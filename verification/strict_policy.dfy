/**
 * `StrictPolicy`: access is allowed exactly when the most recent response was LICENSED.
 * Nothing is cached or persisted; a denial records the redirect URL it carries.
 */
module StrictPolicy {
  import opened Wrappers
  import opened Response
  import opened Policy

  /** The policy's whole state. */
  datatype PolicyState = PolicyState(lastResponse: LicenseResponse, licensingUrl: Option<string>)

  /** A fresh policy: no response yet (treated as RETRY) and no licensing URL. */
  const Initial: PolicyState := PolicyState(Retry, None)

  /** What every reachable state satisfies: no licensing URL right after a grant. */
  predicate Invariant(s: PolicyState) {
    s.lastResponse == Licensed ==> s.licensingUrl.None?
  }

  /** The state after `processServerResponse(response, data)`. */
  function Next(s: PolicyState, response: LicenseResponse, data: Option<ResponseData>): (r: PolicyState)
    ensures r.lastResponse == response
    ensures Invariant(r)
  {
    PolicyState(response, NextLicensingUrl(s.licensingUrl, response, ExtrasOf(data)))
  }

  /** `allowAccess`. */
  predicate Allows(s: PolicyState) {
    s.lastResponse == Licensed
  }

  /** The decision depends on the latest response alone, whatever came before. */
  lemma AllowsOnlyAfterGrant(s: PolicyState, response: LicenseResponse, data: Option<ResponseData>)
    ensures Allows(Next(s, response, data)) <==> response == Licensed
  {
  }

  /**
   * Only a denial sets the licensing URL, to the `LU` extra it carries; a grant clears it
   * and a retry keeps it.
   */
  lemma UrlOnlyFromDenial(s: PolicyState, response: LicenseResponse, data: Option<ResponseData>)
    ensures response == NotLicensed ==> Next(s, response, data).licensingUrl == LicensingUrlOf(data)
    ensures response == Licensed ==> Next(s, response, data).licensingUrl == None
    ensures response == Retry ==> Next(s, response, data).licensingUrl == s.licensingUrl
  {
  }

  class StrictPolicy {
    var lastResponse: LicenseResponse
    var licensingUrl: Option<string>

    function State(): PolicyState
      reads this
    {
      PolicyState(lastResponse, licensingUrl)
    }

    constructor()
      ensures State() == Initial
      ensures Valid()
    {
      lastResponse := Retry;
      licensingUrl := None;
    }

    /** Records the verdict; a denial records its `LU` extra (none if absent), a grant clears it. */
    method ProcessServerResponse(response: LicenseResponse, data: Option<ResponseData>)
      modifies this
      ensures State() == Next(old(State()), response, data)
      ensures Valid()
    {
      lastResponse := response;
      if response == NotLicensed {
        licensingUrl := MapGet(ExtrasOf(data), "LU");
      } else if response == Licensed {
        licensingUrl := None;
      }
    }

    predicate Valid()
      reads this
    {
      Invariant(State())
    }

    /** `allowAccess`. */
    function AllowAccess(): (allowed: bool)
      reads this
      ensures allowed <==> lastResponse == Licensed
    {
      Allows(State())
    }

    /** `getLicensingUrl`: the URL of the latest denial, never one left over from before a grant. */
    function GetLicensingUrl(): (url: Option<string>)
      reads this
      requires Valid()
      ensures url == State().licensingUrl
      ensures url.Some? ==> !AllowAccess()
    {
      licensingUrl
    }
  }
}

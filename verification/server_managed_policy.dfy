/**
 * `ServerManagedPolicy`: caches the server's grant for as long as the server says
 * (`VT`), and tolerates an unreachable server until `GT` while `GR` retries remain.
 */
module ServerManagedPolicy {
  import opened Wrappers
  import opened Text
  import opened Response
  import opened Policy

  /** The policy's whole state. */
  datatype PolicyState = PolicyState(lastResponse: LicenseResponse, timers: Timers, licensingUrl: Option<string>)

  /** A fresh policy: no response yet (treated as RETRY), cleared timers, no licensing URL. */
  const Initial: PolicyState := PolicyState(Retry, Cleared, None)

  /** What every reachable state satisfies: the timers are Java longs, and no URL right after a grant. */
  predicate Invariant(s: PolicyState) {
    && LongTimers(s.timers)
    && (s.lastResponse == Licensed ==> s.licensingUrl.None?)
  }

  /** The state after `processServerResponse(response, data)`. */
  function Next(s: PolicyState, response: LicenseResponse, data: Option<ResponseData>): (r: PolicyState)
    ensures r.lastResponse == response
    ensures response != Retry ==> Invariant(r)
    ensures Invariant(s) ==> Invariant(r)
  {
    var extras := ExtrasOf(data);
    PolicyState(response, NextTimers(s.timers, response, extras), NextLicensingUrl(s.licensingUrl, response, extras))
  }

  /** `allowAccess` at time `now`. */
  predicate Allows(s: PolicyState, now: int) {
    AllowsAccess(s.lastResponse, s.timers, now)
  }

  /** A fresh policy denies access, and so does one whose only response was a retry. */
  lemma FreshDenies(data: Option<ResponseData>, now: int)
    requires now >= 0
    ensures !Allows(Initial, now)
    ensures !Allows(Next(Initial, Retry, data), now)
  {
  }

  /** A denial clears all three timers and denies access, whatever it carries. */
  lemma DenialClears(s: PolicyState, data: Option<ResponseData>, now: int)
    requires now >= 0
    ensures Next(s, NotLicensed, data).timers == Cleared
    ensures !Allows(Next(s, NotLicensed, data), now)
  {
    DenialDenies(s.timers, ExtrasOf(data), now);
  }

  /** A grant replaces all three timers with its extras and clears the licensing URL. */
  lemma GrantReadsTimers(s: PolicyState, data: Option<ResponseData>)
    ensures Next(s, Licensed, data).timers == TimersOf(ExtrasOf(data))
    ensures Next(s, Licensed, data).licensingUrl == None
  {
  }

  /** A retry keeps every timer and the URL; only the last verdict changes. */
  lemma RetryKeeps(s: PolicyState, data: Option<ResponseData>)
    ensures Next(s, Retry, data) == s.(lastResponse := Retry)
  {
  }

  class ServerManagedPolicy {
    var lastResponse: LicenseResponse
    var validityTimestamp: int
    var retryUntil: int
    var maxRetries: int
    var licensingUrl: Option<string>

    function State(): PolicyState
      reads this
    {
      PolicyState(lastResponse, Timers(validityTimestamp, retryUntil, maxRetries), licensingUrl)
    }

    constructor()
      ensures State() == Initial
      ensures Valid()
    {
      lastResponse := Retry;
      validityTimestamp, retryUntil, maxRetries := 0, 0, 0;
      licensingUrl := None;
    }

    /**
     * On LICENSED reads `VT`, `GT` and `GR` (missing or unparseable read as 0); on
     * NOT_LICENSED clears them and records `LU`; on RETRY keeps them.
     */
    method ProcessServerResponse(response: LicenseResponse, data: Option<ResponseData>)
      modifies this
      requires Valid()
      ensures State() == Next(old(State()), response, data)
      ensures Valid()
    {
      var extras := ExtrasOf(data);
      lastResponse := response;
      if response == Licensed {
        validityTimestamp := LongExtra(extras, "VT");
        retryUntil := LongExtra(extras, "GT");
        maxRetries := LongExtra(extras, "GR");
        licensingUrl := None;
      } else if response == NotLicensed {
        validityTimestamp, retryUntil, maxRetries := 0, 0, 0;
        licensingUrl := MapGet(extras, "LU");
      }
    }

    predicate Valid()
      reads this
    {
      Invariant(State())
    }

    /** `allowAccess` at time `now`; outside a retry only the validity timestamp decides. */
    function AllowAccess(now: int): (allowed: bool)
      reads this
      ensures allowed <==> Allows(State(), now)
      ensures lastResponse != Retry ==> (allowed <==> now < validityTimestamp)
      ensures allowed ==> now < validityTimestamp || now < retryUntil
    {
      Allows(State(), now)
    }

    /** `getValidityTimestamp`, a Java `long`. */
    function GetValidityTimestamp(): (v: int)
      reads this
      requires Valid()
      ensures v == State().timers.validityTimestamp
      ensures MinLong <= v <= MaxLong
    {
      validityTimestamp
    }

    /** `getRetryUntil`, a Java `long`. */
    function GetRetryUntil(): (v: int)
      reads this
      requires Valid()
      ensures v == State().timers.retryUntil
      ensures MinLong <= v <= MaxLong
    {
      retryUntil
    }

    /** `getMaxRetries`, a Java `long`. */
    function GetMaxRetries(): (v: int)
      reads this
      requires Valid()
      ensures v == State().timers.maxRetries
      ensures MinLong <= v <= MaxLong
    {
      maxRetries
    }

    /** `getLicensingUrl`: the URL of the latest denial, never one left over from before a grant. */
    function GetLicensingUrl(): (url: Option<string>)
      reads this
      requires Valid()
      ensures url == State().licensingUrl
      ensures url.Some? ==> lastResponse != Licensed
    {
      licensingUrl
    }
  }
}

/**
 * What the policies share: the caller's classification of a server response, and the
 * reading of the policy extras (`VT`, `GT`, `GR`, `LU`) out of a parsed response.
 */
module Policy {
  import opened Wrappers
  import opened Text
  import opened Response

  /** The caller's verdict on a response: `LICENSED`, `NOT_LICENSED` or `RETRY`. */
  datatype LicenseResponse = Licensed | NotLicensed | Retry

  /** The decoded extras of a response, none when the response is absent. */
  function ExtrasOf(data: Option<ResponseData>): map<string, string> {
    match data
    case Some(rd) => Extras(rd)
    case None => map[]
  }

  /** A numeric extra read with `Long.parseLong`; missing or unparseable reads as 0. */
  function LongExtra(extras: map<string, string>, key: string): (v: int)
    ensures MinLong <= v <= MaxLong
    ensures key !in extras ==> v == 0
    ensures key in extras && ParseLong(extras[key]).Some? ==> v == ParseLong(extras[key]).value
    ensures key in extras && ParseLong(extras[key]).None? ==> v == 0
  {
    if key in extras then ParseLong(extras[key]).GetOr(0) else 0
  }

  /** The redirect URL a denial carries in its `LU` extra, decoded. */
  function LicensingUrlOf(data: Option<ResponseData>): Option<string> {
    MapGet(ExtrasOf(data), "LU")
  }

  /** A numeral in range reads back as its number. */
  lemma LongExtraOfNumeral(extras: map<string, string>, key: string, n: int)
    requires MinLong <= n <= MaxLong
    requires key in extras && extras[key] == IntToString(n)
    ensures LongExtra(extras, key) == n
  {
    ParseOfToString(n, MinLong, MaxLong);
  }

  // ---------------------------------------------------------------------------
  // Validity and retry timers, shared by the server-managed policies
  // ---------------------------------------------------------------------------

  /** The server-managed trust state: validity timestamp, retry-until and max retries. */
  datatype Timers = Timers(validityTimestamp: int, retryUntil: int, maxRetries: int)

  /** No grant and no retries: what a denial leaves and what a fresh policy starts from. */
  const Cleared: Timers := Timers(0, 0, 0)

  /** Each timer fits a Java `long`, as the policies store them. */
  predicate LongTimers(t: Timers) {
    && MinLong <= t.validityTimestamp <= MaxLong
    && MinLong <= t.retryUntil <= MaxLong
    && MinLong <= t.maxRetries <= MaxLong
  }

  /** The timers a grant carries in its `VT`, `GT` and `GR` extras. */
  function TimersOf(extras: map<string, string>): Timers {
    Timers(LongExtra(extras, "VT"), LongExtra(extras, "GT"), LongExtra(extras, "GR"))
  }

  /**
   * The timers after a response: a grant replaces all three with its extras, a denial
   * clears all three, a retry keeps them.
   */
  function NextTimers(t: Timers, response: LicenseResponse, extras: map<string, string>): (u: Timers)
    ensures response != Retry ==> LongTimers(u)
    ensures LongTimers(t) ==> LongTimers(u)
  {
    match response
    case Licensed => TimersOf(extras)
    case NotLicensed => Cleared
    case Retry => t
  }

  /**
   * The licensing URL after a response: a denial records its `LU` extra, a grant clears
   * it, a retry keeps it.
   */
  function NextLicensingUrl(url: Option<string>, response: LicenseResponse, extras: map<string, string>): (u: Option<string>)
    ensures response == Licensed ==> u.None?
    ensures u.Some? ==> || (response == NotLicensed && "LU" in extras && u.value == extras["LU"])
                        || (response == Retry && u == url)
  {
    match response
    case NotLicensed => MapGet(extras, "LU")
    case Licensed => None
    case Retry => url
  }

  /** The licensing URL after a run of responses, each with its optional data, the latest last. */
  function UrlAfter(url: Option<string>, steps: seq<(LicenseResponse, Option<ResponseData>)>): Option<string>
    decreases |steps|
  {
    if |steps| == 0 then url
    else
      var k := |steps| - 1;
      NextLicensingUrl(UrlAfter(url, steps[..k]), steps[k].0, ExtrasOf(steps[k].1))
  }

  /** Step `i` was a denial redirecting to `u`, and only retries came after it. */
  predicate DeniedWithUrlSince(steps: seq<(LicenseResponse, Option<ResponseData>)>, i: int, u: string) {
    && 0 <= i < |steps|
    && steps[i].0 == NotLicensed
    && LicensingUrlOf(steps[i].1) == Some(u)
    && forall j | i < j < |steps| :: steps[j].0 == Retry
  }

  /**
   * Starting from no URL, a URL is present only after a NOT_LICENSED response carrying it,
   * followed by nothing but retries.
   */
  lemma {:induction false} UrlOnlyAfterDenial(steps: seq<(LicenseResponse, Option<ResponseData>)>, u: string)
    requires UrlAfter(None, steps) == Some(u)
    ensures exists i :: DeniedWithUrlSince(steps, i, u)
    decreases |steps|
  {
    var k := |steps| - 1;
    var prefix := steps[..k];
    var last := steps[k].0;
    assert UrlAfter(None, steps) == NextLicensingUrl(UrlAfter(None, prefix), last, ExtrasOf(steps[k].1));
    if last == NotLicensed {
      assert DeniedWithUrlSince(steps, k, u);
    } else if last == Retry {
      UrlOnlyAfterDenial(prefix, u);
      var i :| DeniedWithUrlSince(prefix, i, u);
      RetryKeepsDenial(steps, i, u);
    }
  }

  /** A retry appended after a denial with its URL keeps that denial the latest one. */
  lemma RetryKeepsDenial(steps: seq<(LicenseResponse, Option<ResponseData>)>, i: int, u: string)
    requires |steps| > 0 && steps[|steps| - 1].0 == Retry
    requires DeniedWithUrlSince(steps[..|steps| - 1], i, u)
    ensures DeniedWithUrlSince(steps, i, u)
  {
    var k := |steps| - 1;
    forall j | i < j < |steps|
      ensures steps[j].0 == Retry
    {
      if j < k {
        assert steps[j] == steps[..k][j];
      }
    }
    assert steps[i] == steps[..k][i];
  }

  /** Conversely, a denial carrying a URL, followed only by retries, leaves that URL in place. */
  lemma {:induction false} UrlAfterDenial(url: Option<string>, steps: seq<(LicenseResponse, Option<ResponseData>)>, i: int, u: string)
    requires DeniedWithUrlSince(steps, i, u)
    ensures UrlAfter(url, steps) == Some(u)
    decreases |steps|
  {
    var k := |steps| - 1;
    if i < k {
      assert DeniedWithUrlSince(steps[..k], i, u);
      UrlAfterDenial(url, steps[..k], i, u);
    }
  }

  /**
   * `allowAccess` at time `now`: within the validity period, or after a retry within the
   * retry period while retries remain.
   */
  function AllowsAccess(lastResponse: LicenseResponse, t: Timers, now: int): (allowed: bool)
    ensures lastResponse != Retry ==> (allowed <==> now < t.validityTimestamp)
    ensures t.maxRetries <= 0 ==> (allowed <==> now < t.validityTimestamp)
    ensures allowed ==> now < t.validityTimestamp || now < t.retryUntil
  {
    now < t.validityTimestamp || (lastResponse == Retry && now < t.retryUntil && t.maxRetries > 0)
  }

  /** The three timers change together: all kept, all cleared, or all read from one response. */
  lemma TimersChangeTogether(t: Timers, response: LicenseResponse, extras: map<string, string>)
    ensures var u := NextTimers(t, response, extras);
      u == t || u == Cleared || u == TimersOf(extras)
  {
  }

  /** After a denial no time is early enough to be allowed, whatever extras the denial carried. */
  lemma DenialDenies(t: Timers, extras: map<string, string>, now: int)
    requires now >= 0
    ensures !AllowsAccess(NotLicensed, NextTimers(t, NotLicensed, extras), now)
  {
  }

  /** After a grant, access is allowed exactly before the granted validity timestamp. */
  lemma GrantAllowsUntilValidity(t: Timers, extras: map<string, string>, now: int)
    ensures AllowsAccess(Licensed, NextTimers(t, Licensed, extras), now) <==> now < LongExtra(extras, "VT")
  {
  }

  /** Only the `VT`, `GT`, `GR` and `LU` extras matter; any other extra is ignored. */
  lemma OnlyPolicyExtrasMatter(t: Timers, url: Option<string>, response: LicenseResponse,
                               e1: map<string, string>, e2: map<string, string>)
    requires forall k | k in ["VT", "GT", "GR", "LU"] :: MapGet(e1, k) == MapGet(e2, k)
    ensures NextTimers(t, response, e1) == NextTimers(t, response, e2)
    ensures NextLicensingUrl(url, response, e1) == NextLicensingUrl(url, response, e2)
  {
    assert MapGet(e1, "VT") == MapGet(e2, "VT");
    assert MapGet(e1, "GT") == MapGet(e2, "GT");
    assert MapGet(e1, "GR") == MapGet(e2, "GR");
    assert MapGet(e1, "LU") == MapGet(e2, "LU");
  }
}

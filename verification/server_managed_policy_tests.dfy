/**
 * The ServerManagedPolicy test scenarios, as methods: each builds a fresh policy, feeds it
 * the test's responses, and promises what the test asserts. The clock reading of
 * `allowAccess` is the parameter `now`.
 */
module ServerManagedPolicyTests {
  import opened Wrappers
  import opened Response
  import opened Policy
  import opened ServerManagedPolicy
  import opened Samples

  /** A grant carrying "VT=11&GT=22&GR=33" sets the three timers to 11, 22 and 33. */
  method ExtraDataParsed() returns (validity: int, retryUntil: int, maxRetries: int)
    ensures validity == 11 && retryUntil == 22 && maxRetries == 33
  {
    var p := new ServerManagedPolicy();
    var extra := "VT=11&GT=22&GR=33";
    TimerPairsText();
    ParseSample(extra);
    GrantTimers();
    p.ProcessServerResponse(Licensed, SampleParsed(extra));
    validity := p.GetValidityTimestamp();
    retryUntil := p.GetRetryUntil();
    maxRetries := p.GetMaxRetries();
  }

  /**
   * A grant carrying "VT=1&GT=2&GR=3" sets three non-zero timers; a following NOT_LICENSED
   * with no response data clears all three.
   */
  method RetryCountsCleared() returns (granted: Timers, denied: Timers)
    ensures granted.validityTimestamp != 0 && granted.retryUntil != 0 && granted.maxRetries != 0
    ensures denied == Timers(0, 0, 0)
  {
    var p := new ServerManagedPolicy();
    var extra := "VT=1&GT=2&GR=3";
    TimerPairsText();
    ParseSample(extra);
    SmallGrantTimers();
    p.ProcessServerResponse(Licensed, SampleParsed(extra));
    granted := Timers(p.GetValidityTimestamp(), p.GetRetryUntil(), p.GetMaxRetries());
    p.ProcessServerResponse(NotLicensed, None);
    denied := Timers(p.GetValidityTimestamp(), p.GetRetryUntil(), p.GetMaxRetries());
  }

  /**
   * A grant carrying an `LU` extra leaves the licensing URL unset; a denial carrying it
   * records the decoded URL.
   */
  method LicensingUrlExtraParsed() returns (afterGrant: Option<string>, afterDenial: Option<string>)
    ensures afterGrant == None
    ensures afterDenial == Some(LicensingUrl(Pkg))
  {
    var p := new ServerManagedPolicy();
    var extra := JoinPairs(LicensingPairs(Pkg));
    ParseSample(extra);
    PkgPlain();
    LicensingExtras(Pkg);
    p.ProcessServerResponse(Licensed, SampleParsed(extra));
    afterGrant := p.GetLicensingUrl();
    p.ProcessServerResponse(NotLicensed, SampleParsed(extra));
    afterDenial := p.GetLicensingUrl();
  }

  /** RETRY with no response data is accepted, and access is then denied at any time. */
  method NoFailureOnNullResponseData(now: int) returns (allowed: bool)
    requires now >= 0
    ensures !allowed
  {
    var p := new ServerManagedPolicy();
    p.ProcessServerResponse(Retry, None);
    allowed := p.AllowAccess(now);
  }

  /**
   * A grant whose extras also carry "test=hello%20world%20%26%20friends" still sets the
   * timers 1, 2 and 3: the escaped '&' does not split the extras.
   */
  method NoFailureOnAdditionalEncodedExtras() returns (validity: int, retryUntil: int, maxRetries: int)
    ensures validity == 1 && retryUntil == 2 && maxRetries == 3
  {
    var p := new ServerManagedPolicy();
    var extra := JoinPairs(EncodedPairs("hello", "world", "friends"));
    ParseSample(extra);
    WordsPlain();
    EncodedTimers("hello", "world", "friends");
    p.ProcessServerResponse(Licensed, SampleParsed(extra));
    validity := p.GetValidityTimestamp();
    retryUntil := p.GetRetryUntil();
    maxRetries := p.GetMaxRetries();
  }
}

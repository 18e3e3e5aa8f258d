/**
 * The StrictPolicy test scenarios, as methods: each builds a fresh policy, feeds it the
 * test's responses, and promises what the test asserts.
 */
module StrictPolicyTests {
  import opened Wrappers
  import opened Response
  import opened Policy
  import opened StrictPolicy
  import opened Samples

  /** A fresh policy denies access. */
  method InitialResponse() returns (result: bool)
    ensures !result
  {
    var p := new StrictPolicy();
    result := p.AllowAccess();
  }

  /** After LICENSED (with no response data) access is allowed. */
  method LicensedResponse() returns (result: bool)
    ensures result
  {
    var p := new StrictPolicy();
    p.ProcessServerResponse(Licensed, None);
    result := p.AllowAccess();
  }

  /** After NOT_LICENSED carrying an `LU` extra, access is denied and the URL is decoded and kept. */
  method NotLicensedResponse() returns (result: bool, url: Option<string>)
    ensures !result
    ensures url == Some(LicensingUrl(Pkg))
  {
    var p := new StrictPolicy();
    var extra := JoinPairs(LicensingPairs(Pkg));
    ParseSample(extra);
    PkgPlain();
    LicensingExtras(Pkg);
    p.ProcessServerResponse(NotLicensed, SampleParsed(extra));
    result := p.AllowAccess();
    url := p.GetLicensingUrl();
  }

  /** After NOT_LICENSED with no response data, access is denied and there is no URL. */
  method NotLicensedWithoutData() returns (result: bool, url: Option<string>)
    ensures !result
    ensures url == None
  {
    var p := new StrictPolicy();
    p.ProcessServerResponse(NotLicensed, None);
    result := p.AllowAccess();
    url := p.GetLicensingUrl();
  }

  /** After RETRY access is denied. */
  method RetryResponse() returns (result: bool)
    ensures !result
  {
    var p := new StrictPolicy();
    p.ProcessServerResponse(Retry, None);
    result := p.AllowAccess();
  }
}

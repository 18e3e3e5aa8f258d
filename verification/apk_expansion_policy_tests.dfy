/**
 * The APKExpansionPolicy test scenarios, as methods. The current version of the class
 * decodes the expansion URLs (`decodeFileUrls == true`); the earlier one keeps them as
 * sent (`decodeFileUrls == false`), and its scenarios that differ have their own methods.
 */
module APKExpansionPolicyTests {
  import opened Wrappers
  import opened Text
  import opened FormEncoding
  import opened Response
  import opened Policy
  import opened APKExpansionPolicy
  import opened Samples
  import opened ExpansionSamples

  /** The sample grant announcing a main and a patch file. */
  function SampleGrant(): Option<ResponseData> {
    SampleParsed(JoinPairs(SamplePairs()))
  }

  /**
   * What a fresh policy holds after a grant made of these pairs: timers 11, 22 and 33, no
   * licensing URL, and the two files in index order.
   */
  lemma GrantState(u1: string, n1: string, s1: string, u2: string, n2: string, s2: string, decodeFileUrls: bool)
    requires Carriable(u1, n1, s1, u2, n2, s2)
    ensures Next(decodeFileUrls, Initial, Licensed, SampleParsed(JoinPairs(ExpansionPairs(u1, n1, s1, u2, n2, s2))))
         == PolicyState(Licensed, Timers(11, 22, 33), None,
                        ExpansionFiles([Held(u1, decodeFileUrls), Held(u2, decodeFileUrls)],
                                       [Decode(n1), Decode(n2)],
                                       [ParseLong(Decode(s1)).GetOr(0), ParseLong(Decode(s2)).GetOr(0)]))
  {
    ParseSample(JoinPairs(ExpansionPairs(u1, n1, s1, u2, n2, s2)));
    ExpansionTimers(u1, n1, s1, u2, n2, s2);
    ExpansionFilesRead(u1, n1, s1, u2, n2, s2, decodeFileUrls);
  }

  /** The sample grant, read as GrantState reads any grant of this shape. */
  lemma SampleGrantRead(decodeFileUrls: bool)
    ensures Next(decodeFileUrls, Initial, Licensed, SampleGrant())
         == PolicyState(Licensed, Timers(11, 22, 33), None,
                        ExpansionFiles([Held(EncodedFileUrl(Pkg, MainToken), decodeFileUrls),
                                        Held(EncodedFileUrl(Pkg, PatchToken), decodeFileUrls)],
                                       [Decode(MainName(Pkg)), Decode(PatchName(Pkg))],
                                       [ParseLong(Decode("687801613")).GetOr(0), ParseLong(Decode("204233")).GetOr(0)]))
  {
    SampleCarriable();
    GrantState(EncodedFileUrl(Pkg, MainToken), MainName(Pkg), "687801613",
               EncodedFileUrl(Pkg, PatchToken), PatchName(Pkg), "204233", decodeFileUrls);
  }

  /** The sample's file names and sizes, as the policy reads them. */
  lemma SampleNamesAndSizesRead()
    ensures [Decode(MainName(Pkg)), Decode(PatchName(Pkg))] == [MainName(Pkg), PatchName(Pkg)]
    ensures [ParseLong(Decode("687801613")).GetOr(0), ParseLong(Decode("204233")).GetOr(0)] == [687801613, 204233]
  {
    SampleNamesAndSizes();
  }

  /**
   * What a fresh policy holds after the sample grant: timers 11, 22 and 33, no licensing
   * URL, and the two files with their names, sizes and URLs (decoded or as sent).
   */
  lemma SampleGrantState(decodeFileUrls: bool)
    ensures Next(decodeFileUrls, Initial, Licensed, SampleGrant())
         == PolicyState(Licensed, Timers(11, 22, 33), None,
                        ExpansionFiles([Held(EncodedFileUrl(Pkg, MainToken), decodeFileUrls),
                                        Held(EncodedFileUrl(Pkg, PatchToken), decodeFileUrls)],
                                       [MainName(Pkg), PatchName(Pkg)],
                                       [687801613, 204233]))
  {
    SampleGrantRead(decodeFileUrls);
    SampleNamesAndSizesRead();
  }

  /** The current class stores the sample's URLs decoded. */
  lemma SampleGrantDecoded()
    ensures Next(true, Initial, Licensed, SampleGrant()).timers == Timers(11, 22, 33)
    ensures Next(true, Initial, Licensed, SampleGrant()).files
         == ExpansionFiles([FileUrl(Pkg, MainToken), FileUrl(Pkg, PatchToken)],
                           [MainName(Pkg), PatchName(Pkg)], [687801613, 204233])
  {
    SampleGrantState(true);
    SampleUrls();
  }

  /** The earlier class stores the sample's URLs as sent. */
  lemma SampleGrantUndecoded()
    ensures Next(false, Initial, Licensed, SampleGrant()).timers == Timers(11, 22, 33)
    ensures Next(false, Initial, Licensed, SampleGrant()).files
         == ExpansionFiles([EncodedFileUrl(Pkg, MainToken), EncodedFileUrl(Pkg, PatchToken)],
                           [MainName(Pkg), PatchName(Pkg)], [687801613, 204233])
  {
    SampleGrantState(false);
  }

  /**
   * The sample grant sets the timers to 11, 22 and 33 and announces two files: the main
   * file first, then the patch file, each with its name, size and decoded download URL.
   */
  method ExtraDataParsed()
    returns (timers: Timers, count: nat,
             name0: Result<string, IndexOutOfRange>, size0: Result<int, IndexOutOfRange>, url0: Result<string, IndexOutOfRange>,
             name1: Result<string, IndexOutOfRange>, size1: Result<int, IndexOutOfRange>, url1: Result<string, IndexOutOfRange>)
    ensures timers == Timers(11, 22, 33) && count == 2
    ensures name0 == Ok(MainName(Pkg)) && size0 == Ok(687801613) && url0 == Ok(FileUrl(Pkg, MainToken))
    ensures name1 == Ok(PatchName(Pkg)) && size1 == Ok(204233) && url1 == Ok(FileUrl(Pkg, PatchToken))
  {
    var p := new APKExpansionPolicy(true);
    SampleGrantDecoded();
    p.ProcessServerResponse(Licensed, SampleGrant());
    timers := Timers(p.GetValidityTimestamp(), p.GetRetryUntil(), p.GetMaxRetries());
    count := p.GetExpansionURLCount();
    name0, size0, url0 := p.GetExpansionFileName(0), p.GetExpansionFileSize(0), p.GetExpansionURL(0);
    name1, size1, url1 := p.GetExpansionFileName(1), p.GetExpansionFileSize(1), p.GetExpansionURL(1);
  }

  /** As ExtraDataParsed, for the earlier class: the URLs are stored as sent, still escaped. */
  method ExtraDataParsedUndecoded()
    returns (timers: Timers, count: nat,
             name0: Result<string, IndexOutOfRange>, size0: Result<int, IndexOutOfRange>, url0: Result<string, IndexOutOfRange>,
             name1: Result<string, IndexOutOfRange>, size1: Result<int, IndexOutOfRange>, url1: Result<string, IndexOutOfRange>)
    ensures timers == Timers(11, 22, 33) && count == 2
    ensures name0 == Ok(MainName(Pkg)) && size0 == Ok(687801613) && url0 == Ok(EncodedFileUrl(Pkg, MainToken))
    ensures name1 == Ok(PatchName(Pkg)) && size1 == Ok(204233) && url1 == Ok(EncodedFileUrl(Pkg, PatchToken))
  {
    var p := new APKExpansionPolicy(false);
    SampleGrantUndecoded();
    p.ProcessServerResponse(Licensed, SampleGrant());
    timers := Timers(p.GetValidityTimestamp(), p.GetRetryUntil(), p.GetMaxRetries());
    count := p.GetExpansionURLCount();
    name0, size0, url0 := p.GetExpansionFileName(0), p.GetExpansionFileSize(0), p.GetExpansionURL(0);
    name1, size1, url1 := p.GetExpansionFileName(1), p.GetExpansionFileSize(1), p.GetExpansionURL(1);
  }

  /** A grant carrying "VT=1&GT=2&GR=3" sets three non-zero timers, in either version of the class. */
  lemma SmallGrantState(decodeFileUrls: bool)
    ensures Next(decodeFileUrls, Initial, Licensed, SampleParsed(JoinPairs(TimerPairs("1", "2", "3")))).timers
         == Timers(1, 2, 3)
  {
    ParseSample(JoinPairs(TimerPairs("1", "2", "3")));
    SmallGrantTimers();
  }

  /**
   * A grant carrying "VT=1&GT=2&GR=3" sets three non-zero timers; NOT_LICENSED with the
   * same response data then clears all three.
   */
  method RetryCountsCleared() returns (granted: Timers, denied: Timers)
    ensures granted.validityTimestamp != 0 && granted.retryUntil != 0 && granted.maxRetries != 0
    ensures denied == Cleared
  {
    var p := new APKExpansionPolicy(true);
    var data := SampleParsed(JoinPairs(TimerPairs("1", "2", "3")));
    SmallGrantState(true);
    p.ProcessServerResponse(Licensed, data);
    granted := Timers(p.GetValidityTimestamp(), p.GetRetryUntil(), p.GetMaxRetries());
    p.ProcessServerResponse(NotLicensed, data);
    denied := Timers(p.GetValidityTimestamp(), p.GetRetryUntil(), p.GetMaxRetries());
  }

  /** As RetryCountsCleared, for the earlier class, whose test denies with no response data. */
  method RetryCountsClearedWithoutData() returns (granted: Timers, denied: Timers)
    ensures granted.validityTimestamp != 0 && granted.retryUntil != 0 && granted.maxRetries != 0
    ensures denied == Cleared
  {
    var p := new APKExpansionPolicy(false);
    var data := SampleParsed(JoinPairs(TimerPairs("1", "2", "3")));
    SmallGrantState(false);
    p.ProcessServerResponse(Licensed, data);
    granted := Timers(p.GetValidityTimestamp(), p.GetRetryUntil(), p.GetMaxRetries());
    p.ProcessServerResponse(NotLicensed, None);
    denied := Timers(p.GetValidityTimestamp(), p.GetRetryUntil(), p.GetMaxRetries());
  }

  /**
   * A grant carrying an `LU` extra leaves the licensing URL unset; a denial carrying it
   * records the decoded URL.
   */
  method LicensingUrlExtraParsed() returns (afterGrant: Option<string>, afterDenial: Option<string>)
    ensures afterGrant == None
    ensures afterDenial == Some(LicensingUrl(Pkg))
  {
    var p := new APKExpansionPolicy(true);
    var extra := JoinPairs(LicensingPairs(Pkg));
    ParseSample(extra);
    PkgPlain();
    LicensingExtras(Pkg);
    p.ProcessServerResponse(Licensed, SampleParsed(extra));
    afterGrant := p.GetLicensingUrl();
    p.ProcessServerResponse(NotLicensed, SampleParsed(extra));
    afterDenial := p.GetLicensingUrl();
  }

  /** RETRY with no response data is accepted, and access is then denied at any time. */
  method NoFailureOnNullResponseData(decodeFileUrls: bool, now: int) returns (allowed: bool)
    requires now >= 0
    ensures !allowed
  {
    var p := new APKExpansionPolicy(decodeFileUrls);
    p.ProcessServerResponse(Retry, None);
    allowed := p.AllowAccess(now);
  }

  /**
   * A grant whose extras also carry "test=hello%20world%20%26%20friends" still sets the
   * timers 1, 2 and 3, in either version of the class.
   */
  method NoFailureOnAdditionalEncodedExtras(decodeFileUrls: bool) returns (timers: Timers)
    ensures timers == Timers(1, 2, 3)
  {
    var p := new APKExpansionPolicy(decodeFileUrls);
    var extra := JoinPairs(EncodedPairs("hello", "world", "friends"));
    ParseSample(extra);
    WordsPlain();
    EncodedTimers("hello", "world", "friends");
    p.ProcessServerResponse(Licensed, SampleParsed(extra));
    timers := Timers(p.GetValidityTimestamp(), p.GetRetryUntil(), p.GetMaxRetries());
  }
}

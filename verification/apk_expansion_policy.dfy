/**
 * `APKExpansionPolicy`: the server-managed policy that also keeps the expansion files a
 * grant announces in its `FILE_URLn`, `FILE_NAMEn` and `FILE_SIZEn` extras, n = 1, 2, ...
 *
 * Whether the expansion URLs come back form-decoded differs between the two versions of
 * this class: the constant `decodeFileUrls` chooses the behaviour.
 */
module APKExpansionPolicy {
  import opened Wrappers
  import opened Text
  import opened Response
  import opened Policy

  /** The failure of an accessor called with an index beyond the stored files. */
  datatype IndexOutOfRange = IndexOutOfRange

  /** The expansion files as three parallel sequences. */
  datatype ExpansionFiles = ExpansionFiles(urls: seq<string>, names: seq<string>, sizes: seq<int>)

  /** The policy's whole state. */
  datatype PolicyState = PolicyState(
    lastResponse: LicenseResponse,
    timers: Timers,
    licensingUrl: Option<string>,
    files: ExpansionFiles)

  const NoFiles: ExpansionFiles := ExpansionFiles([], [], [])

  /** One URL, one name and one size per file, each size a Java `long`. */
  predicate FilesAligned(f: ExpansionFiles) {
    && |f.urls| == |f.names| == |f.sizes|
    && forall i | 0 <= i < |f.sizes| :: MinLong <= f.sizes[i] <= MaxLong
  }

  /** What every reachable state satisfies: long timers, no URL right after a grant, aligned files. */
  predicate Invariant(s: PolicyState) {
    && LongTimers(s.timers)
    && (s.lastResponse == Licensed ==> s.licensingUrl.None?)
    && FilesAligned(s.files)
  }

  /** A fresh policy: no response yet (treated as RETRY), cleared timers, no URL, no files. */
  const Initial: PolicyState := PolicyState(Retry, Cleared, None, NoFiles)

  function FileUrlKey(n: nat): string {
    "FILE_URL" + NatToString(n)
  }

  function FileNameKey(n: nat): string {
    "FILE_NAME" + NatToString(n)
  }

  function FileSizeKey(n: nat): string {
    "FILE_SIZE" + NatToString(n)
  }

  /** Distinct indexes have distinct URL keys. */
  lemma FileUrlKeyInjective(m: nat, n: nat)
    requires FileUrlKey(m) == FileUrlKey(n)
    ensures m == n
  {
    assert FileUrlKey(m)[8..] == NatToString(m);
    assert FileUrlKey(n)[8..] == NatToString(n);
    NatToStringInjective(m, n);
  }

  /**
   * The index of the last file when the indexes from `n` on are consecutive: the first
   * missing `FILE_URLn` ends the list. (The bound `|extras|` never ends it first; see
   * FileCountStopsAtFirstGap.)
   */
  function FileCount(extras: map<string, string>, n: nat): (c: nat)
    requires n >= 1
    ensures c >= n - 1
    ensures c >= n ==> FileUrlKey(n) in extras
    decreases |extras| + 1 - n
  {
    if n <= |extras| && FileUrlKey(n) in extras then FileCount(extras, n + 1) else n - 1
  }

  /** The URL of file `n`, from the decoded or the raw extras; "" when absent. */
  function UrlAt(urlExtras: map<string, string>, n: nat): string {
    MapGet(urlExtras, FileUrlKey(n)).GetOr("")
  }

  /** The name of file `n`; "" when absent. */
  function NameAt(extras: map<string, string>, n: nat): string {
    MapGet(extras, FileNameKey(n)).GetOr("")
  }

  /** The size of file `n`; 0 when absent or unparseable. */
  function SizeAt(extras: map<string, string>, n: nat): int {
    LongExtra(extras, FileSizeKey(n))
  }

  /** Files 1 to `k`, in index order. */
  function FilesUpTo(extras: map<string, string>, urlExtras: map<string, string>, k: nat): (f: ExpansionFiles)
    ensures |f.urls| == |f.names| == |f.sizes| == k
    ensures FilesAligned(f)
  {
    ExpansionFiles(
      seq(k, i requires 0 <= i < k => UrlAt(urlExtras, i + 1)),
      seq(k, i requires 0 <= i < k => NameAt(extras, i + 1)),
      seq(k, i requires 0 <= i < k => SizeAt(extras, i + 1)))
  }

  /** Reading one more file appends it to each of the three lists. */
  lemma FilesUpToSnoc(extras: map<string, string>, urlExtras: map<string, string>, k: nat)
    ensures var f := FilesUpTo(extras, urlExtras, k);
      FilesUpTo(extras, urlExtras, k + 1)
        == ExpansionFiles(f.urls + [UrlAt(urlExtras, k + 1)],
                          f.names + [NameAt(extras, k + 1)],
                          f.sizes + [SizeAt(extras, k + 1)])
  {
    var f, g := FilesUpTo(extras, urlExtras, k), FilesUpTo(extras, urlExtras, k + 1);
    assert g.urls == f.urls + [UrlAt(urlExtras, k + 1)];
    assert g.names == f.names + [NameAt(extras, k + 1)];
    assert g.sizes == f.sizes + [SizeAt(extras, k + 1)];
  }

  /** The files a grant announces, in index order. */
  function FilesOf(extras: map<string, string>, urlExtras: map<string, string>): (f: ExpansionFiles)
    ensures |f.urls| == |f.names| == |f.sizes| == FileCount(extras, 1)
    ensures FilesAligned(f)
  {
    FilesUpTo(extras, urlExtras, FileCount(extras, 1))
  }

  /** The extras URLs are read from. */
  function UrlExtrasOf(data: Option<ResponseData>, decodeFileUrls: bool): map<string, string> {
    match data
    case Some(rd) => ExtrasMap(rd.extra, decodeFileUrls)
    case None => map[]
  }

  /**
   * The state after `processServerResponse(response, data)`: a grant replaces the files,
   * a denial or a retry keeps them.
   */
  function Next(decodeFileUrls: bool, s: PolicyState, response: LicenseResponse, data: Option<ResponseData>): (r: PolicyState)
    ensures r.lastResponse == response
    ensures response == Licensed ==> Invariant(r)
    ensures Invariant(s) ==> Invariant(r)
  {
    var extras := ExtrasOf(data);
    PolicyState(
      response,
      NextTimers(s.timers, response, extras),
      NextLicensingUrl(s.licensingUrl, response, extras),
      if response == Licensed then FilesOf(extras, UrlExtrasOf(data, decodeFileUrls)) else s.files)
  }

  /** `allowAccess` at time `now`. */
  predicate Allows(s: PolicyState, now: int) {
    AllowsAccess(s.lastResponse, s.timers, now)
  }

  // ---------------------------------------------------------------------------
  // The file list ends at the first missing index
  // ---------------------------------------------------------------------------

  /** The URL keys of files 1 to n. */
  function UrlKeys(n: nat): set<string>
    decreases n
  {
    if n == 0 then {} else UrlKeys(n - 1) + {FileUrlKey(n)}
  }

  lemma {:induction false} UrlKeysBelow(n: nat, m: nat)
    requires FileUrlKey(m) in UrlKeys(n)
    ensures 1 <= m <= n
    decreases n
  {
    if FileUrlKey(m) == FileUrlKey(n) {
      FileUrlKeyInjective(m, n);
    } else {
      UrlKeysBelow(n - 1, m);
    }
  }

  lemma {:induction false} UrlKeysCard(n: nat)
    ensures |UrlKeys(n)| == n
    decreases n
  {
    if n > 0 {
      UrlKeysCard(n - 1);
      if FileUrlKey(n) in UrlKeys(n - 1) {
        UrlKeysBelow(n - 1, n);
      }
    }
  }

  lemma {:induction false} SubsetCard<T>(a: set<T>, b: set<T>)
    requires a <= b
    ensures |a| <= |b|
    decreases |a|
  {
    if a != {} {
      var x :| x in a;
      SubsetCard(a - {x}, b - {x});
    }
  }

  /** A map holding the URL keys of files 1 to n has at least n entries. */
  lemma UrlKeysBound(extras: map<string, string>, n: nat)
    requires forall m | 1 <= m <= n :: FileUrlKey(m) in extras
    ensures n <= |extras|
  {
    forall k | k in UrlKeys(n)
      ensures k in extras.Keys
    {
      UrlKeysMember(n, k);
    }
    SubsetCard(UrlKeys(n), extras.Keys);
    UrlKeysCard(n);
  }

  lemma {:induction false} UrlKeysMember(n: nat, k: string)
    requires k in UrlKeys(n)
    ensures exists m | 1 <= m <= n :: k == FileUrlKey(m)
    decreases n
  {
    if k != FileUrlKey(n) {
      UrlKeysMember(n - 1, k);
    }
  }

  /** Counting from n reaches every present index and stops at the first gap. */
  lemma {:induction false} FileCountFrom(extras: map<string, string>, n: nat)
    requires n >= 1
    requires forall m | 1 <= m < n :: FileUrlKey(m) in extras
    ensures forall m | 1 <= m <= FileCount(extras, n) :: FileUrlKey(m) in extras
    ensures FileUrlKey(FileCount(extras, n) + 1) !in extras
    decreases |extras| + 1 - n
  {
    var key := FileUrlKey(n);
    if key in extras {
      forall m | 1 <= m <= n
        ensures FileUrlKey(m) in extras
      {
        if m == n {
          assert FileUrlKey(m) == key;
        }
      }
      if n <= |extras| {
        assert FileCount(extras, n) == FileCount(extras, n + 1);
        FileCountFrom(extras, n + 1);
      } else {
        UrlKeysBound(extras, n);
      }
    } else {
      assert FileCount(extras, n) == n - 1;
    }
  }

  /** The files are exactly those numbered 1 to c, where file c + 1 is the first missing one. */
  lemma FileCountStopsAtFirstGap(extras: map<string, string>)
    ensures forall m | 1 <= m <= FileCount(extras, 1) :: FileUrlKey(m) in extras
    ensures FileUrlKey(FileCount(extras, 1) + 1) !in extras
  {
    FileCountFrom(extras, 1);
  }

  /** The count for extras whose first gap is known. */
  lemma {:induction false} FileCountIs(extras: map<string, string>, c: nat, n: nat)
    requires 1 <= n <= c + 1
    requires forall m | 1 <= m <= c :: FileUrlKey(m) in extras
    requires FileUrlKey(c + 1) !in extras
    ensures FileCount(extras, n) == c
    decreases c + 1 - n
  {
    if n <= c {
      UrlKeysBound(extras, c);
      FileCountIs(extras, c, n + 1);
    }
  }

  // ---------------------------------------------------------------------------
  // Properties of the state machine
  // ---------------------------------------------------------------------------

  /** A fresh policy denies access, and so does one whose only response was a retry. */
  lemma FreshDenies(decodeFileUrls: bool, data: Option<ResponseData>, now: int)
    requires now >= 0
    ensures !Allows(Initial, now)
    ensures !Allows(Next(decodeFileUrls, Initial, Retry, data), now)
  {
  }

  /** A denial clears the timers and denies access, but keeps the files for a paused download. */
  lemma DenialClearsTimersKeepsFiles(decodeFileUrls: bool, s: PolicyState, data: Option<ResponseData>, now: int)
    requires now >= 0
    ensures Next(decodeFileUrls, s, NotLicensed, data).timers == Cleared
    ensures Next(decodeFileUrls, s, NotLicensed, data).files == s.files
    ensures !Allows(Next(decodeFileUrls, s, NotLicensed, data), now)
  {
  }

  /** A grant replaces the files wholesale: the old list has no bearing on the new one. */
  lemma GrantReplacesFiles(decodeFileUrls: bool, s1: PolicyState, s2: PolicyState, data: Option<ResponseData>)
    ensures Next(decodeFileUrls, s1, Licensed, data).files == Next(decodeFileUrls, s2, Licensed, data).files
    ensures Next(decodeFileUrls, s1, Licensed, data).licensingUrl == None
  {
  }

  /**
   * Reads the files of a grant: `FILE_URLn`, `FILE_NAMEn` and `FILE_SIZEn` for n = 1, 2, ...
   * while `FILE_URLn` is present.
   */
  method ReadFiles(extras: map<string, string>, urlExtras: map<string, string>) returns (files: ExpansionFiles)
    ensures files == FilesOf(extras, urlExtras)
  {
    var urls, names, sizes := [], [], [];
    var n := 1;
    while n <= |extras| && FileUrlKey(n) in extras
      invariant 1 <= n <= |extras| + 1
      invariant FileCount(extras, n) == FileCount(extras, 1)
      invariant ExpansionFiles(urls, names, sizes) == FilesUpTo(extras, urlExtras, n - 1)
      decreases |extras| + 1 - n
    {
      FilesUpToSnoc(extras, urlExtras, n - 1);
      urls := urls + [UrlAt(urlExtras, n)];
      names := names + [NameAt(extras, n)];
      sizes := sizes + [SizeAt(extras, n)];
      n := n + 1;
    }
    assert FileCount(extras, n) == n - 1;
    files := ExpansionFiles(urls, names, sizes);
  }

  class APKExpansionPolicy {
    /** Whether expansion URLs are form-decoded before they are stored. */
    const decodeFileUrls: bool
    var lastResponse: LicenseResponse
    var validityTimestamp: int
    var retryUntil: int
    var maxRetries: int
    var licensingUrl: Option<string>
    var expansionUrls: seq<string>
    var expansionNames: seq<string>
    var expansionSizes: seq<int>

    function State(): PolicyState
      reads this
    {
      PolicyState(lastResponse, Timers(validityTimestamp, retryUntil, maxRetries), licensingUrl,
                  ExpansionFiles(expansionUrls, expansionNames, expansionSizes))
    }

    constructor(decodeFileUrls: bool)
      ensures this.decodeFileUrls == decodeFileUrls
      ensures State() == Initial
      ensures Valid()
    {
      this.decodeFileUrls := decodeFileUrls;
      lastResponse := Retry;
      validityTimestamp, retryUntil, maxRetries := 0, 0, 0;
      licensingUrl := None;
      expansionUrls, expansionNames, expansionSizes := [], [], [];
    }

    /**
     * As ServerManagedPolicy, and on LICENSED also replaces the expansion files with
     * those the extras number 1, 2, ... up to the first missing URL.
     */
    method ProcessServerResponse(response: LicenseResponse, data: Option<ResponseData>)
      modifies this
      requires Valid()
      ensures State() == Next(decodeFileUrls, old(State()), response, data)
      ensures Valid()
    {
      var extras := ExtrasOf(data);
      lastResponse := response;
      if response == Licensed {
        validityTimestamp := LongExtra(extras, "VT");
        retryUntil := LongExtra(extras, "GT");
        maxRetries := LongExtra(extras, "GR");
        var files := ReadFiles(extras, UrlExtrasOf(data, decodeFileUrls));
        expansionUrls, expansionNames, expansionSizes := files.urls, files.names, files.sizes;
        licensingUrl := None;
      } else if response == NotLicensed {
        validityTimestamp, retryUntil, maxRetries := 0, 0, 0;
        licensingUrl := MapGet(extras, "LU");
      }
    }

    predicate Valid()
      reads this
    {
      Invariant(State())
    }

    /** `allowAccess` at time `now`; outside a retry only the validity timestamp decides. */
    function AllowAccess(now: int): (allowed: bool)
      reads this
      ensures allowed <==> Allows(State(), now)
      ensures lastResponse != Retry ==> (allowed <==> now < validityTimestamp)
      ensures allowed ==> now < validityTimestamp || now < retryUntil
    {
      Allows(State(), now)
    }

    /** `getValidityTimestamp`, a Java `long`. */
    function GetValidityTimestamp(): (v: int)
      reads this
      requires Valid()
      ensures v == State().timers.validityTimestamp
      ensures MinLong <= v <= MaxLong
    {
      validityTimestamp
    }

    /** `getRetryUntil`, a Java `long`. */
    function GetRetryUntil(): (v: int)
      reads this
      requires Valid()
      ensures v == State().timers.retryUntil
      ensures MinLong <= v <= MaxLong
    {
      retryUntil
    }

    /** `getMaxRetries`, a Java `long`. */
    function GetMaxRetries(): (v: int)
      reads this
      requires Valid()
      ensures v == State().timers.maxRetries
      ensures MinLong <= v <= MaxLong
    {
      maxRetries
    }

    /** `getLicensingUrl`: the URL of the latest denial, never one left over from before a grant. */
    function GetLicensingUrl(): (url: Option<string>)
      reads this
      requires Valid()
      ensures url == State().licensingUrl
      ensures url.Some? ==> lastResponse != Licensed
    {
      licensingUrl
    }

    /** `getExpansionURLCount`: the number of files, which also index the names and the sizes. */
    function GetExpansionURLCount(): (n: nat)
      reads this
      requires Valid()
      ensures n == |State().files.urls|
      ensures n == |expansionNames| == |expansionSizes|
    {
      |expansionUrls|
    }

    /** The URL of file `i` (from 0), or IndexOutOfRange. */
    function GetExpansionURL(i: int): (r: Result<string, IndexOutOfRange>)
      reads this
      ensures r.Ok? <==> 0 <= i < |expansionUrls|
      ensures r.Ok? ==> r.value == expansionUrls[i]
    {
      if 0 <= i < |expansionUrls| then Ok(expansionUrls[i]) else Err(IndexOutOfRange)
    }

    /** The name of file `i` (from 0), or IndexOutOfRange. */
    function GetExpansionFileName(i: int): (r: Result<string, IndexOutOfRange>)
      reads this
      ensures r.Ok? <==> 0 <= i < |expansionNames|
      ensures r.Ok? ==> r.value == expansionNames[i]
    {
      if 0 <= i < |expansionNames| then Ok(expansionNames[i]) else Err(IndexOutOfRange)
    }

    /** The size of file `i` (from 0), or IndexOutOfRange. */
    function GetExpansionFileSize(i: int): (r: Result<int, IndexOutOfRange>)
      reads this
      ensures r.Ok? <==> 0 <= i < |expansionSizes|
      ensures r.Ok? ==> r.value == expansionSizes[i]
    {
      if 0 <= i < |expansionSizes| then Ok(expansionSizes[i]) else Err(IndexOutOfRange)
    }
  }
}

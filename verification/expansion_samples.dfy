/**
 * The sample grant of the expansion-file tests: timers, then two files (a main and a
 * patch file), each announced by a download URL, a file name and a size. The package name
 * and the download tokens are parameters of the texts that embed them.
 */
module ExpansionSamples {
  import opened Wrappers
  import opened Text
  import opened FormEncoding
  import opened Response
  import opened Policy
  import opened APKExpansionPolicy
  import opened Samples

  /** "http://jmt17.google.com/vending_kila/download/AppDownload?packageName" */
  const UrlBase: string :=
    "http://" + "jmt17." + "google." + "com/"
    + ("vending_" + "kila/" + "download/" + "AppDownlo")
    + ("ad?" + "packageNa" + "me")

  lemma UrlBasePlain()
    ensures Plain(UrlBase)
  {
    UrlBaseHeadPlain();
    UrlBaseMiddlePlain();
    UrlBaseTailPlain();
    PlainAppend("http://" + "jmt17." + "google." + "com/", "vending_" + "kila/" + "download/" + "AppDownlo");
    PlainAppend("http://" + "jmt17." + "google." + "com/" + ("vending_" + "kila/" + "download/" + "AppDownlo"),
                "ad?" + "packageNa" + "me");
  }

  lemma UrlBaseHeadPlain()
    ensures Plain("http://" + "jmt17." + "google." + "com/")
  {
    assert Plain("http://");
    assert Plain("jmt17.");
    assert Plain("google.");
    assert Plain("com/");
    PlainAppend("http://", "jmt17.");
    PlainAppend("http://" + "jmt17.", "google.");
    PlainAppend("http://" + "jmt17." + "google.", "com/");
  }

  lemma UrlBaseTailPlain()
    ensures Plain("ad?" + "packageNa" + "me")
  {
    assert Plain("ad?");
    assert Plain("packageNa");
    assert Plain("me");
    PlainAppend("ad?", "packageNa");
    PlainAppend("ad?" + "packageNa", "me");
  }

  lemma UrlBaseMiddlePlain()
    ensures Plain("vending_" + "kila/" + "download/" + "AppDownlo")
  {
    assert Plain("vending_");
    assert Plain("kila/");
    assert Plain("download/");
    assert Plain("AppDownlo");
    PlainAppend("vending_", "kila/");
    PlainAppend("vending_" + "kila/", "download/");
    PlainAppend("vending_" + "kila/" + "download/", "AppDownlo");
  }

  /** The download URL of a file, form-encoded as the server sends it. */
  function EncodedFileUrl(p: string, t: string): string {
    UrlBase + ("%3D" + (p + ("%26" + ("versionCode" + ("%3D" + ("3" + ("%26" + ("ft" + ("%3D" + ("o"
      + ("%26" + ("token" + ("%3D" + t)))))))))))))
  }

  /** "http://jmt17.google.com/vending_kila/download/AppDownload?packageName=" + p + "&versionCode=3&ft=o&token=" + t */
  function FileUrl(p: string, t: string): string {
    UrlBase + ("=" + (p + ("&" + ("versionCode" + ("=" + ("3" + ("&" + ("ft" + ("=" + ("o"
      + ("&" + ("token" + ("=" + t)))))))))))))
  }

  lemma DecodeFileUrl(p: string, t: string)
    requires Plain(p) && Plain(t)
    ensures Decode(EncodedFileUrl(p, t)) == FileUrl(p, t)
  {
    DecodePlain(t);
    var r1 := "token" + ("%3D" + t);
    DecodeStep("token", '3', 'D', t);
    var r2 := "o" + ("%26" + r1);
    DecodeStep("o", '2', '6', r1);
    var r3 := "ft" + ("%3D" + r2);
    DecodeStep("ft", '3', 'D', r2);
    var r4 := "3" + ("%26" + r3);
    DecodeStep("3", '2', '6', r3);
    var r5 := "versionCode" + ("%3D" + r4);
    DecodeStep("versionCode", '3', 'D', r4);
    var r6 := p + ("%26" + r5);
    DecodeStep(p, '2', '6', r5);
    UrlBasePlain();
    DecodeStep(UrlBase, '3', 'D', r6);
  }

  /** The encoded URL has neither separator, so it travels as one value. */
  lemma EncodedFileUrlPlain(p: string, t: string)
    requires Plain(p) && Plain(t)
    ensures '&' !in EncodedFileUrl(p, t) && '=' !in EncodedFileUrl(p, t)
  {
    var r1 := "token" + ("%3D" + t);
    var r2 := "o" + ("%26" + r1);
    var r3 := "ft" + ("%3D" + r2);
    var r4 := "3" + ("%26" + r3);
    var r5 := "versionCode" + ("%3D" + r4);
    var r6 := p + ("%26" + r5);
    assert '&' !in r1 && '=' !in r1;
    assert '&' !in r2 && '=' !in r2;
    assert '&' !in r3 && '=' !in r3;
    assert '&' !in r4 && '=' !in r4;
    assert '&' !in r5 && '=' !in r5;
    assert '&' !in r6 && '=' !in r6;
    UrlBasePlain();
  }

  /** The download token of the main file. */
  const MainToken: string :=
    "AOTCm0Rwl" + "zqFYylBNS" + "CTLJApGH0"
    + ("cYtm9g8mG" + "MdUhKLSLJ" + "W4v9VM8GL")
    + ("j4GVlGU5o" + "yW6y3FsXr" + "JiQqMunTG" + "w9B")

  /** The download token of the patch file; it shares its first 54 characters with MainToken. */
  const PatchToken: string :=
    "AOTCm0Rwl" + "zqFYylBNS" + "CTLJApGH0"
    + ("cYtm9g8mG" + "MdUhKLSLJ" + "W4v9VM8GL")
    + ("sdSDjefsd" + "fEKdVaseE" + "sfaMeifTe" + "k9B")

  /** Three plain texts written one after the other are plain. */
  lemma PlainAppend3(a: string, b: string, c: string)
    requires Plain(a) && Plain(b) && Plain(c)
    ensures Plain(a + b + c)
  {
    PlainAppend(a, b);
    PlainAppend(a + b, c);
  }

  lemma TokenHeadPlain()
    ensures Plain("AOTCm0Rwl" + "zqFYylBNS" + "CTLJApGH0")
  {
    assert Plain("AOTCm0Rwl");
    assert Plain("zqFYylBNS");
    assert Plain("CTLJApGH0");
    PlainAppend3("AOTCm0Rwl", "zqFYylBNS", "CTLJApGH0");
  }

  lemma TokenMiddlePlain()
    ensures Plain("cYtm9g8mG" + "MdUhKLSLJ" + "W4v9VM8GL")
  {
    assert Plain("cYtm9g8mG");
    assert Plain("MdUhKLSLJ");
    assert Plain("W4v9VM8GL");
    PlainAppend3("cYtm9g8mG", "MdUhKLSLJ", "W4v9VM8GL");
  }

  lemma MainTokenTailPlain()
    ensures Plain("j4GVlGU5o" + "yW6y3FsXr" + "JiQqMunTG" + "w9B")
  {
    assert Plain("j4GVlGU5o");
    assert Plain("yW6y3FsXr");
    assert Plain("JiQqMunTG");
    assert Plain("w9B");
    PlainAppend3("j4GVlGU5o", "yW6y3FsXr", "JiQqMunTG");
    PlainAppend("j4GVlGU5o" + "yW6y3FsXr" + "JiQqMunTG", "w9B");
  }

  lemma PatchTokenTailPlain()
    ensures Plain("sdSDjefsd" + "fEKdVaseE" + "sfaMeifTe" + "k9B")
  {
    assert Plain("sdSDjefsd");
    assert Plain("fEKdVaseE");
    assert Plain("sfaMeifTe");
    assert Plain("k9B");
    PlainAppend3("sdSDjefsd", "fEKdVaseE", "sfaMeifTe");
    PlainAppend("sdSDjefsd" + "fEKdVaseE" + "sfaMeifTe", "k9B");
  }

  lemma MainTokenPlain()
    ensures Plain(MainToken)
  {
    TokenHeadPlain();
    TokenMiddlePlain();
    MainTokenTailPlain();
    PlainAppend3("AOTCm0Rwl" + "zqFYylBNS" + "CTLJApGH0", "cYtm9g8mG" + "MdUhKLSLJ" + "W4v9VM8GL",
                 "j4GVlGU5o" + "yW6y3FsXr" + "JiQqMunTG" + "w9B");
  }

  lemma PatchTokenPlain()
    ensures Plain(PatchToken)
  {
    TokenHeadPlain();
    TokenMiddlePlain();
    PatchTokenTailPlain();
    PlainAppend3("AOTCm0Rwl" + "zqFYylBNS" + "CTLJApGH0", "cYtm9g8mG" + "MdUhKLSLJ" + "W4v9VM8GL",
                 "sdSDjefsd" + "fEKdVaseE" + "sfaMeifTe" + "k9B");
  }

  /** "main.3." + p + ".obb" */
  function MainName(p: string): string {
    "main.3." + p + ".obb"
  }

  /** "patch.3." + p + ".obb" */
  function PatchName(p: string): string {
    "patch.3." + p + ".obb"
  }

  /**
   * "VT=11&GT=22&GR=33&FILE_URL1=u1&FILE_NAME1=n1&FILE_SIZE1=s1&FILE_URL2=u2&FILE_NAME2=n2&FILE_SIZE2=s2",
   * as pairs.
   */
  function ExpansionPairs(u1: string, n1: string, s1: string, u2: string, n2: string, s2: string): seq<(string, string)> {
    [("VT", "11"), ("GT", "22"), ("GR", "33"),
     ("FILE_URL1", u1), ("FILE_NAME1", n1), ("FILE_SIZE1", s1),
     ("FILE_URL2", u2), ("FILE_NAME2", n2), ("FILE_SIZE2", s2)]
  }

  /** The pairs of the sample grant of the expansion-file tests. */
  function SamplePairs(): seq<(string, string)> {
    ExpansionPairs(EncodedFileUrl(Pkg, MainToken), MainName(Pkg), "687801613",
                   EncodedFileUrl(Pkg, PatchToken), PatchName(Pkg), "204233")
  }

  /** The keys the policy looks up for files 1 to 3. */
  lemma FileKeys()
    ensures FileUrlKey(1) == "FILE_URL1" && FileUrlKey(2) == "FILE_URL2" && FileUrlKey(3) == "FILE_URL3"
    ensures FileNameKey(1) == "FILE_NAME1" && FileNameKey(2) == "FILE_NAME2"
    ensures FileSizeKey(1) == "FILE_SIZE1" && FileSizeKey(2) == "FILE_SIZE2"
  {
    assert NatToString(1) == "1";
    assert NatToString(2) == "2";
    assert NatToString(3) == "3";
  }

  /** The main file's size numeral, read three digits at a time. */
  lemma MainSizeDigits(s: string)
    requires s == "687801613"
    ensures ParseLong(s) == Some(687801613)
  {
    assert PrefixValue(s, 3) == 687;
    assert PrefixValue(s, 6) == 687801;
    assert PrefixValue(s, 9) == 687801613;
  }

  /** The patch file's size numeral. */
  lemma PatchSizeDigits(s: string)
    requires s == "204233"
    ensures ParseLong(s) == Some(204233)
  {
    assert PrefixValue(s, 3) == 204;
    assert PrefixValue(s, 6) == 204233;
  }

  lemma SizeNumerals()
    ensures ParseLong("687801613") == Some(687801613) && ParseLong("204233") == Some(204233)
  {
    MainSizeDigits("687801613");
    PatchSizeDigits("204233");
  }

  /** Values the pairs can carry: no '&' in any of them. */
  predicate Carriable(u1: string, n1: string, s1: string, u2: string, n2: string, s2: string) {
    '&' !in u1 && '&' !in n1 && '&' !in s1 && '&' !in u2 && '&' !in n2 && '&' !in s2
  }

  lemma ExpansionPairsSeparable(u1: string, n1: string, s1: string, u2: string, n2: string, s2: string)
    requires Carriable(u1, n1, s1, u2, n2, s2)
    ensures Separable(ExpansionPairs(u1, n1, s1, u2, n2, s2))
    ensures forall j | 0 <= j < 9 :: Plain(ExpansionPairs(u1, n1, s1, u2, n2, s2)[j].0)
  {
    assert Plain("FILE_URL1");
    assert Plain("FILE_NAME1");
    assert Plain("FILE_SIZE1");
    assert Plain("FILE_URL2");
    assert Plain("FILE_NAME2");
    assert Plain("FILE_SIZE2");
  }

  /** The extras of a grant made of these pairs, decoded or as raw text. */
  function ExpansionExtras(u1: string, n1: string, s1: string, u2: string, n2: string, s2: string,
                           decodeValues: bool): map<string, string> {
    ExtrasMap(JoinPairs(ExpansionPairs(u1, n1, s1, u2, n2, s2)), decodeValues)
  }

  /** A value as the extras hold it. */
  function Held(v: string, decodeValues: bool): string {
    if decodeValues then Decode(v) else v
  }

  lemma ExpansionKeysDistinct(u1: string, n1: string, s1: string, u2: string, n2: string, s2: string)
    ensures forall i, j | 0 <= i < j < 9 ::
      ExpansionPairs(u1, n1, s1, u2, n2, s2)[i].0 != ExpansionPairs(u1, n1, s1, u2, n2, s2)[j].0
  {
  }

  /** Every pair of the grant is found under its key, its value decoded or not. */
  lemma ExpansionLookup(u1: string, n1: string, s1: string, u2: string, n2: string, s2: string,
                        decodeValues: bool, i: nat)
    requires Carriable(u1, n1, s1, u2, n2, s2) && i < 9
    ensures MapGet(ExpansionExtras(u1, n1, s1, u2, n2, s2, decodeValues), ExpansionPairs(u1, n1, s1, u2, n2, s2)[i].0)
         == Some(Held(ExpansionPairs(u1, n1, s1, u2, n2, s2)[i].1, decodeValues))
  {
    var ps := ExpansionPairs(u1, n1, s1, u2, n2, s2);
    ExpansionPairsSeparable(u1, n1, s1, u2, n2, s2);
    ExpansionKeysDistinct(u1, n1, s1, u2, n2, s2);
    LookupPlain(ps, decodeValues, i);
  }

  /** There is no third file. */
  lemma ExpansionNoThirdUrl(u1: string, n1: string, s1: string, u2: string, n2: string, s2: string, decodeValues: bool)
    requires Carriable(u1, n1, s1, u2, n2, s2)
    ensures MapGet(ExpansionExtras(u1, n1, s1, u2, n2, s2, decodeValues), FileUrlKey(3)) == None
  {
    var ps := ExpansionPairs(u1, n1, s1, u2, n2, s2);
    ExpansionPairsSeparable(u1, n1, s1, u2, n2, s2);
    FileKeys();
    AbsentPlain(ps, decodeValues, "FILE_URL3");
  }

  lemma ExpansionUrls(u1: string, n1: string, s1: string, u2: string, n2: string, s2: string, decodeValues: bool)
    requires Carriable(u1, n1, s1, u2, n2, s2)
    ensures MapGet(ExpansionExtras(u1, n1, s1, u2, n2, s2, decodeValues), FileUrlKey(1)) == Some(Held(u1, decodeValues))
    ensures MapGet(ExpansionExtras(u1, n1, s1, u2, n2, s2, decodeValues), FileUrlKey(2)) == Some(Held(u2, decodeValues))
    ensures MapGet(ExpansionExtras(u1, n1, s1, u2, n2, s2, decodeValues), FileUrlKey(3)) == None
  {
    FileKeys();
    ExpansionLookup(u1, n1, s1, u2, n2, s2, decodeValues, 3);
    ExpansionLookup(u1, n1, s1, u2, n2, s2, decodeValues, 6);
    ExpansionNoThirdUrl(u1, n1, s1, u2, n2, s2, decodeValues);
  }

  lemma ExpansionNamesAndSizes(u1: string, n1: string, s1: string, u2: string, n2: string, s2: string)
    requires Carriable(u1, n1, s1, u2, n2, s2)
    ensures MapGet(ExpansionExtras(u1, n1, s1, u2, n2, s2, true), FileNameKey(1)) == Some(Decode(n1))
    ensures MapGet(ExpansionExtras(u1, n1, s1, u2, n2, s2, true), FileNameKey(2)) == Some(Decode(n2))
    ensures MapGet(ExpansionExtras(u1, n1, s1, u2, n2, s2, true), FileSizeKey(1)) == Some(Decode(s1))
    ensures MapGet(ExpansionExtras(u1, n1, s1, u2, n2, s2, true), FileSizeKey(2)) == Some(Decode(s2))
  {
    FileKeys();
    ExpansionLookup(u1, n1, s1, u2, n2, s2, true, 4);
    ExpansionLookup(u1, n1, s1, u2, n2, s2, true, 5);
    ExpansionLookup(u1, n1, s1, u2, n2, s2, true, 7);
    ExpansionLookup(u1, n1, s1, u2, n2, s2, true, 8);
  }

  lemma ExpansionTimerTexts(u1: string, n1: string, s1: string, u2: string, n2: string, s2: string)
    requires Carriable(u1, n1, s1, u2, n2, s2)
    ensures MapGet(ExpansionExtras(u1, n1, s1, u2, n2, s2, true), "VT") == Some(Decode("11"))
    ensures MapGet(ExpansionExtras(u1, n1, s1, u2, n2, s2, true), "GT") == Some(Decode("22"))
    ensures MapGet(ExpansionExtras(u1, n1, s1, u2, n2, s2, true), "GR") == Some(Decode("33"))
  {
    ExpansionLookup(u1, n1, s1, u2, n2, s2, true, 0);
    ExpansionLookup(u1, n1, s1, u2, n2, s2, true, 1);
    ExpansionLookup(u1, n1, s1, u2, n2, s2, true, 2);
  }

  lemma ExpansionHasNoUrl(u1: string, n1: string, s1: string, u2: string, n2: string, s2: string)
    requires Carriable(u1, n1, s1, u2, n2, s2)
    ensures MapGet(ExpansionExtras(u1, n1, s1, u2, n2, s2, true), "LU") == None
  {
    var ps := ExpansionPairs(u1, n1, s1, u2, n2, s2);
    ExpansionPairsSeparable(u1, n1, s1, u2, n2, s2);
    AbsentPlain(ps, true, "LU");
  }

  lemma ExpansionTimers(u1: string, n1: string, s1: string, u2: string, n2: string, s2: string)
    requires Carriable(u1, n1, s1, u2, n2, s2)
    ensures TimersOf(ExpansionExtras(u1, n1, s1, u2, n2, s2, true)) == Timers(11, 22, 33)
  {
    ExpansionTimerTexts(u1, n1, s1, u2, n2, s2);
    DecodePlain("11");
    DecodePlain("22");
    DecodePlain("33");
    SmallNumerals();
  }

  /** The file list of such a grant has two entries. */
  lemma ExpansionFileCount(u1: string, n1: string, s1: string, u2: string, n2: string, s2: string)
    requires Carriable(u1, n1, s1, u2, n2, s2)
    ensures FileCount(ExpansionExtras(u1, n1, s1, u2, n2, s2, true), 1) == 2
  {
    ExpansionUrls(u1, n1, s1, u2, n2, s2, true);
    FileCountTwo(ExpansionExtras(u1, n1, s1, u2, n2, s2, true));
  }

  /** Extras with the URLs of files 1 and 2 and none for file 3 announce two files. */
  lemma FileCountTwo(extras: map<string, string>)
    requires MapGet(extras, FileUrlKey(1)).Some? && MapGet(extras, FileUrlKey(2)).Some?
    requires MapGet(extras, FileUrlKey(3)).None?
    ensures FileCount(extras, 1) == 2
  {
    forall m | 1 <= m <= 2
      ensures FileUrlKey(m) in extras
    {
    }
    FileCountIs(extras, 2, 1);
  }

  /** A file list of two entries, read entry by entry. */
  lemma FilesOfTwo(extras: map<string, string>, urlExtras: map<string, string>)
    requires FileCount(extras, 1) == 2
    ensures FilesOf(extras, urlExtras)
         == ExpansionFiles([UrlAt(urlExtras, 1), UrlAt(urlExtras, 2)],
                           [NameAt(extras, 1), NameAt(extras, 2)],
                           [SizeAt(extras, 1), SizeAt(extras, 2)])
  {
    var f := FilesOf(extras, urlExtras);
    assert f.urls == [UrlAt(urlExtras, 1), UrlAt(urlExtras, 2)];
    assert f.names == [NameAt(extras, 1), NameAt(extras, 2)];
    assert f.sizes == [SizeAt(extras, 1), SizeAt(extras, 2)];
  }

  /**
   * A grant made of these pairs announces exactly two files, in index order, with their
   * URLs decoded or kept as sent.
   */
  lemma ExpansionFilesRead(u1: string, n1: string, s1: string, u2: string, n2: string, s2: string, decodeFileUrls: bool)
    requires Carriable(u1, n1, s1, u2, n2, s2)
    ensures FilesOf(ExpansionExtras(u1, n1, s1, u2, n2, s2, true), ExpansionExtras(u1, n1, s1, u2, n2, s2, decodeFileUrls))
         == ExpansionFiles([Held(u1, decodeFileUrls), Held(u2, decodeFileUrls)],
                           [Decode(n1), Decode(n2)],
                           [ParseLong(Decode(s1)).GetOr(0), ParseLong(Decode(s2)).GetOr(0)])
  {
    var extras := ExpansionExtras(u1, n1, s1, u2, n2, s2, true);
    var urlExtras := ExpansionExtras(u1, n1, s1, u2, n2, s2, decodeFileUrls);
    ExpansionFileCount(u1, n1, s1, u2, n2, s2);
    ExpansionUrls(u1, n1, s1, u2, n2, s2, decodeFileUrls);
    ExpansionNamesAndSizes(u1, n1, s1, u2, n2, s2);
    FilesOfTwo(extras, urlExtras);
  }

  /** The sample's values can be carried in pairs. */
  lemma SampleCarriable()
    ensures Carriable(EncodedFileUrl(Pkg, MainToken), MainName(Pkg), "687801613",
                      EncodedFileUrl(Pkg, PatchToken), PatchName(Pkg), "204233")
  {
    PkgPlain();
    MainTokenPlain();
    PatchTokenPlain();
    EncodedFileUrlPlain(Pkg, MainToken);
    EncodedFileUrlPlain(Pkg, PatchToken);
    assert Plain(MainName(Pkg)) && Plain(PatchName(Pkg));
  }

  /** The sample's URLs decode to the download addresses. */
  lemma SampleUrls()
    ensures Decode(EncodedFileUrl(Pkg, MainToken)) == FileUrl(Pkg, MainToken)
    ensures Decode(EncodedFileUrl(Pkg, PatchToken)) == FileUrl(Pkg, PatchToken)
  {
    PkgPlain();
    MainTokenPlain();
    PatchTokenPlain();
    DecodeFileUrl(Pkg, MainToken);
    DecodeFileUrl(Pkg, PatchToken);
  }

  /** The sample's names read as sent and its sizes as their numbers. */
  lemma SampleNamesAndSizes()
    ensures Decode(MainName(Pkg)) == MainName(Pkg) && Decode(PatchName(Pkg)) == PatchName(Pkg)
    ensures ParseLong(Decode("687801613")) == Some(687801613) && ParseLong(Decode("204233")) == Some(204233)
  {
    PkgPlain();
    assert Plain(MainName(Pkg)) && Plain(PatchName(Pkg));
    DecodePlain(MainName(Pkg));
    DecodePlain(PatchName(Pkg));
    DecodePlain("687801613");
    DecodePlain("204233");
    SizeNumerals();
  }
}

/**
 * The signed responses the policy tests feed to `ResponseData.parse`, and what parsing
 * them yields. Long texts are written as concatenations of short pieces, and the texts
 * that embed the package name or a download token take them as parameters; with the
 * sample values the pieces join up to the response text of the tests.
 */
module Samples {
  import opened Wrappers
  import opened Text
  import opened FormEncoding
  import opened Response
  import opened Policy

  /** "com.example.android.market.licensing" */
  const Pkg: string := "com." + "example." + "android." + "market." + "licensing"

  /** "ADf8I4ajjgc1P5ZI1S1DN/YIPIUNPECLrg==", the user-id field of the samples. */
  const Sig: string := "ADf8I4ajj" + "gc1P5ZI1S" + "1DN/YIPIU" + "NPECLrg=="

  /**
   * "0|1579380448|com.example.android.market.licensing|1|ADf8I4ajjgc1P5ZI1S1DN/YIPIUNPECLrg==|1279578835423:"
   * followed by `extra`.
   */
  function SampleResponse(extra: string): string {
    Fields("0", "1579380448", Pkg, "1", Sig, "1279578835423", extra)
  }

  /** The record the sample response parses to. */
  function SampleData(extra: string): ResponseData {
    ResponseData(0, 1579380448, Pkg, 1, Sig, 1279578835423, extra)
  }

  /** `ResponseData.parse(sampleResponse)` as the tests pass it to a policy. */
  function SampleParsed(extra: string): Option<ResponseData> {
    Parse(SampleResponse(extra)).ToOption()
  }

  lemma ParsesZero()
    ensures ParseInt("0") == Some(0)
  {
    assert PrefixValue("0", 1) == 0;
  }

  lemma ParsesOne()
    ensures ParseInt("1") == Some(1)
  {
    assert PrefixValue("1", 1) == 1;
  }

  /** The nonce numeral's value, read three digits at a time (`s` keeps the literal out of sight). */
  lemma NonceDigits(s: string)
    requires s == "1579380448"
    ensures ParseInt(s) == Some(1579380448)
  {
    assert PrefixValue(s, 4) == 1579;
    assert PrefixValue(s, 7) == 1579380;
    assert PrefixValue(s, 10) == 1579380448;
  }

  lemma ParsesNonce()
    ensures ParseInt("1579380448") == Some(1579380448)
  {
    NonceDigits("1579380448");
  }

  /** The timestamp numeral's value, read three digits at a time. */
  lemma TimestampDigits(s: string)
    requires s == "1279578835423"
    ensures ParseLong(s) == Some(1279578835423)
  {
    assert PrefixValue(s, 4) == 1279;
    assert PrefixValue(s, 7) == 1279578;
    assert PrefixValue(s, 10) == 1279578835;
    assert PrefixValue(s, 13) == 1279578835423;
  }

  lemma ParsesTimestamp()
    ensures ParseLong("1279578835423") == Some(1279578835423)
  {
    TimestampDigits("1279578835423");
  }

  lemma PkgHasNoBar()
    ensures '|' !in Pkg
  {
    assert '|' !in "com.";
    assert '|' !in "example.";
    assert '|' !in "android.";
    assert '|' !in "market.";
    assert '|' !in "licensing";
  }

  lemma SigHasNoBar()
    ensures '|' !in Sig
  {
    assert '|' !in "ADf8I4ajj";
    assert '|' !in "gc1P5ZI1S";
    assert '|' !in "1DN/YIPIU";
    assert '|' !in "NPECLrg==";
  }

  lemma NumeralsHaveNoBar()
    ensures '|' !in "1579380448"
    ensures '|' !in "1279578835423" && ':' !in "1279578835423"
  {
    assert "1279578835423" == "1279578" + "835423";
    assert '|' !in "1279578" && ':' !in "1279578";
    assert '|' !in "835423" && ':' !in "835423";
  }

  /** The fields before the extras hold neither separator. */
  lemma SampleFieldsSeparable()
    ensures '|' !in Pkg && '|' !in Sig && '|' !in "1579380448"
    ensures '|' !in "1279578835423" && ':' !in "1279578835423"
  {
    PkgHasNoBar();
    SigHasNoBar();
    NumeralsHaveNoBar();
  }

  /** The sample response parses, whatever its extras, and keeps the extras as sent. */
  lemma ParseSample(extra: string)
    ensures SampleParsed(extra) == Some(SampleData(extra))
  {
    ParsesZero();
    ParsesOne();
    ParsesNonce();
    ParsesTimestamp();
    SampleFieldsSeparable();
    ParseFields("0", "1579380448", Pkg, "1", Sig, "1279578835423", extra);
  }

  // ---------------------------------------------------------------------------
  // Reading extras made of plain pieces
  // ---------------------------------------------------------------------------

  /** Text with no character that form-decoding or pair-splitting treats specially. */
  predicate Plain(s: string) {
    '%' !in s && '+' !in s && '&' !in s && '=' !in s
  }

  lemma PkgPlain()
    ensures Plain(Pkg)
  {
    assert Plain("com.");
    assert Plain("example.");
    assert Plain("android.");
    assert Plain("market.");
    assert Plain("licensing");
    PlainAppend("com.", "example.");
    PlainAppend("com." + "example.", "android.");
    PlainAppend("com." + "example." + "android.", "market.");
    PlainAppend("com." + "example." + "android." + "market.", "licensing");
  }

  /** Plain texts written one after the other are plain. */
  lemma PlainAppend(a: string, b: string)
    requires Plain(a) && Plain(b)
    ensures Plain(a + b)
  {
  }

  /** A plain text, then an escape, then anything: the plain text stays, the escape becomes its character. */
  lemma DecodeStep(a: string, x: char, y: char, r: string)
    requires '%' !in a && '+' !in a && IsHex(x) && IsHex(y)
    ensures Decode(a + (['%', x, y] + r)) == a + ([Unescape(x, y)] + Decode(r))
  {
    DecodePlainPrefix(a, ['%', x, y] + r);
    DecodeEscapePrefix(x, y, r);
  }

  /** The value under a key that is plain and not repeated later. */
  lemma LookupPlain(ps: seq<(string, string)>, decodeValues: bool, i: nat)
    requires |ps| >= 1 && Separable(ps) && i < |ps|
    requires forall j | 0 <= j < |ps| :: Plain(ps[j].0)
    requires forall j | i < j < |ps| :: ps[j].0 != ps[i].0
    ensures MapGet(ExtrasMap(JoinPairs(ps), decodeValues), ps[i].0)
         == Some(if decodeValues then Decode(ps[i].1) else ps[i].1)
  {
    forall j | 0 <= j < |ps|
      ensures Decode(ps[j].0) == ps[j].0
    {
      DecodePlain(ps[j].0);
    }
    ExtrasLookup(ps, decodeValues, i, ps[i].0);
  }

  /** A key that no pair has is absent. */
  lemma AbsentPlain(ps: seq<(string, string)>, decodeValues: bool, k: string)
    requires |ps| >= 1 && Separable(ps)
    requires forall j | 0 <= j < |ps| :: Plain(ps[j].0)
    requires forall j | 0 <= j < |ps| :: ps[j].0 != k
    ensures MapGet(ExtrasMap(JoinPairs(ps), decodeValues), k) == None
  {
    forall j | 0 <= j < |ps|
      ensures Decode(ps[j].0) == ps[j].0
    {
      DecodePlain(ps[j].0);
    }
    ExtrasAbsent(ps, decodeValues, k);
  }

  // ---------------------------------------------------------------------------
  // "VT=11&GT=22&GR=33" and "VT=1&GT=2&GR=3"
  // ---------------------------------------------------------------------------

  function TimerPairs(vt: string, gt: string, gr: string): seq<(string, string)> {
    [("VT", vt), ("GT", gt), ("GR", gr)]
  }

  lemma TimerPairsText()
    ensures JoinPairs(TimerPairs("11", "22", "33")) == "VT=11&GT=22&GR=33"
    ensures JoinPairs(TimerPairs("1", "2", "3")) == "VT=1&GT=2&GR=3"
  {
  }

  lemma SmallNumerals()
    ensures ParseLong("1") == Some(1) && ParseLong("2") == Some(2) && ParseLong("3") == Some(3)
    ensures ParseLong("11") == Some(11) && ParseLong("22") == Some(22) && ParseLong("33") == Some(33)
  {
    assert PrefixValue("1", 1) == 1;
    assert PrefixValue("2", 1) == 2;
    assert PrefixValue("3", 1) == 3;
    assert PrefixValue("11", 2) == 11;
    assert PrefixValue("22", 2) == 22;
    assert PrefixValue("33", 2) == 33;
  }

  /** A grant whose `VT`, `GT` and `GR` are plain numerals sets the timers they spell. */
  lemma TimerExtras(vt: string, gt: string, gr: string)
    requires Plain(vt) && Plain(gt) && Plain(gr)
    ensures TimersOf(Extras(SampleData(JoinPairs(TimerPairs(vt, gt, gr)))))
         == Timers(ParseLong(vt).GetOr(0), ParseLong(gt).GetOr(0), ParseLong(gr).GetOr(0))
  {
    var ps := TimerPairs(vt, gt, gr);
    assert Separable(ps);
    DecodePlain(vt);
    DecodePlain(gt);
    DecodePlain(gr);
    LookupPlain(ps, true, 0);
    LookupPlain(ps, true, 1);
    LookupPlain(ps, true, 2);
  }

  lemma GrantTimers()
    ensures TimersOf(Extras(SampleData(JoinPairs(TimerPairs("11", "22", "33"))))) == Timers(11, 22, 33)
  {
    TimerExtras("11", "22", "33");
    SmallNumerals();
  }

  lemma SmallGrantTimers()
    ensures TimersOf(Extras(SampleData(JoinPairs(TimerPairs("1", "2", "3"))))) == Timers(1, 2, 3)
  {
    TimerExtras("1", "2", "3");
    SmallNumerals();
  }

  // ---------------------------------------------------------------------------
  // "VT=1&test=hello%20world%20%26%20friends&GT=2&GR=3"
  // ---------------------------------------------------------------------------

  /** "hello%20world%20%26%20friends", with the three words as parameters. */
  function EncodedHello(w1: string, w2: string, w3: string): string {
    w1 + ("%20" + (w2 + ("%20" + ("%26" + ("%20" + w3)))))
  }

  /** The three words of the sample are plain. */
  lemma WordsPlain()
    ensures Plain("hello") && Plain("world") && Plain("friends")
  {
  }

  function EncodedPairs(w1: string, w2: string, w3: string): seq<(string, string)> {
    [("VT", "1"), ("test", EncodedHello(w1, w2, w3)), ("GT", "2"), ("GR", "3")]
  }

  /** The pairs make the text "VT=1&test=" + the escaped words + "&GT=2&GR=3". */
  lemma EncodedPairsText(w1: string, w2: string, w3: string)
    ensures JoinPairs(EncodedPairs(w1, w2, w3)) == "VT=1&test=" + EncodedHello(w1, w2, w3) + "&GT=2&GR=3"
  {
    var h := EncodedHello(w1, w2, w3);
    var texts := PairTexts(EncodedPairs(w1, w2, w3));
    assert texts[1] == "test=" + h by {
      assert "test" + "=" == "test=";
    }
    assert texts[0] == "VT=1" && texts[2] == "GT=2" && texts[3] == "GR=3";
    assert texts == ["VT=1", "test=" + h, "GT=2", "GR=3"];
    assert Join(texts[2..], '&') == "GT=2&GR=3";
    assert Join(texts[1..], '&') == "test=" + h + "&" + "GT=2&GR=3" by {
      assert texts[1..][1..] == texts[2..];
    }
  }

  lemma DecodeHello(w1: string, w2: string, w3: string)
    requires Plain(w1) && Plain(w2) && Plain(w3)
    ensures Decode(EncodedHello(w1, w2, w3)) == w1 + (" " + (w2 + (" " + ("&" + (" " + w3)))))
  {
    DecodePlain(w3);
    DecodeEscapePrefix('2', '0', w3);
    DecodeEscapePrefix('2', '6', "%20" + w3);
    DecodeStep(w2, '2', '0', "%26" + ("%20" + w3));
    DecodeStep(w1, '2', '0', w2 + ("%20" + ("%26" + ("%20" + w3))));
  }

  lemma EncodedPairsSeparable(w1: string, w2: string, w3: string)
    requires Plain(w1) && Plain(w2) && Plain(w3)
    ensures Separable(EncodedPairs(w1, w2, w3))
    ensures forall j | 0 <= j < 4 :: Plain(EncodedPairs(w1, w2, w3)[j].0)
  {
  }

  /** The timers are read around the escaped text. */
  lemma EncodedTimers(w1: string, w2: string, w3: string)
    requires Plain(w1) && Plain(w2) && Plain(w3)
    ensures TimersOf(Extras(SampleData(JoinPairs(EncodedPairs(w1, w2, w3))))) == Timers(1, 2, 3)
  {
    var ps := EncodedPairs(w1, w2, w3);
    EncodedPairsSeparable(w1, w2, w3);
    LookupPlain(ps, true, 0);
    LookupPlain(ps, true, 2);
    LookupPlain(ps, true, 3);
    DecodePlain("1");
    DecodePlain("2");
    DecodePlain("3");
    SmallNumerals();
  }

  /** The escaped '&' stays inside the value of `test`; there is no `LU`. */
  lemma EncodedText(w1: string, w2: string, w3: string)
    requires Plain(w1) && Plain(w2) && Plain(w3)
    ensures MapGet(Extras(SampleData(JoinPairs(EncodedPairs(w1, w2, w3)))), "test")
         == Some(w1 + (" " + (w2 + (" " + ("&" + (" " + w3))))))
    ensures MapGet(Extras(SampleData(JoinPairs(EncodedPairs(w1, w2, w3)))), "LU") == None
  {
    var ps := EncodedPairs(w1, w2, w3);
    EncodedPairsSeparable(w1, w2, w3);
    LookupPlain(ps, true, 1);
    AbsentPlain(ps, true, "LU");
    DecodeHello(w1, w2, w3);
  }

  // ---------------------------------------------------------------------------
  // "LU=https%3A%2F%2Fplay.google.com%2Fstore%2Fapps%2Fdetails%3Fid%3D" + package
  // ---------------------------------------------------------------------------

  /** The store page of package `p`, form-encoded as the server sends it. */
  function EncodedLicensingUrl(p: string): string {
    "https" + ("%3A" + ("%2F" + ("%2F" + ("play.goog" + "le.com" + ("%2F" + ("store" + ("%2F" + ("apps"
      + ("%2F" + ("details" + ("%3F" + ("id" + ("%3D" + p)))))))))))))
  }

  /** "https://play.google.com/store/apps/details?id=" + p */
  function LicensingUrl(p: string): string {
    "https" + (":" + ("/" + ("/" + ("play.goog" + "le.com" + ("/" + ("store" + ("/" + ("apps"
      + ("/" + ("details" + ("?" + ("id" + ("=" + p)))))))))))))
  }

  /** The characters the store page's escapes stand for. */
  lemma UrlEscapes()
    ensures Unescape('3', 'A') == ':' && Unescape('2', 'F') == '/'
    ensures Unescape('3', 'F') == '?' && Unescape('3', 'D') == '='
  {
  }

  /** The path and query of the store page decode on their own. */
  lemma DecodeStorePath(p: string)
    requires '%' !in p && '+' !in p
    ensures Decode("store" + ("%2F" + ("apps" + ("%2F" + ("details" + ("%3F" + ("id" + ("%3D" + p))))))))
         == "store" + ("/" + ("apps" + ("/" + ("details" + ("?" + ("id" + ("=" + p)))))))
  {
    UrlEscapes();
    DecodePlain(p);
    var r1 := "id" + ("%3D" + p);
    DecodeStep("id", '3', 'D', p);
    var r2 := "details" + ("%3F" + r1);
    DecodeStep("details", '3', 'F', r1);
    var r3 := "apps" + ("%2F" + r2);
    DecodeStep("apps", '2', 'F', r2);
    DecodeStep("store", '2', 'F', r3);
  }

  lemma DecodeLicensingUrl(p: string)
    requires '%' !in p && '+' !in p
    ensures Decode(EncodedLicensingUrl(p)) == LicensingUrl(p)
  {
    UrlEscapes();
    var r4 := "store" + ("%2F" + ("apps" + ("%2F" + ("details" + ("%3F" + ("id" + ("%3D" + p)))))));
    DecodeStorePath(p);
    var r5 := "play.goog" + "le.com" + ("%2F" + r4);
    DecodeStep("play.goog" + "le.com", '2', 'F', r4);
    DecodeEscapePrefix('2', 'F', r5);
    var r6 := "%2F" + r5;
    DecodeEscapePrefix('2', 'F', r6);
    DecodeStep("https", '3', 'A', "%2F" + r6);
  }

  function LicensingPairs(p: string): seq<(string, string)> {
    [("LU", EncodedLicensingUrl(p))]
  }

  /** The encoded store page can be carried as a value. */
  lemma LicensingPairsSeparable(p: string)
    requires Plain(p)
    ensures Separable(LicensingPairs(p))
  {
    var t1 := "id" + ("%3D" + p);
    assert '&' !in t1;
    var t2 := "details" + ("%3F" + t1);
    assert '&' !in t2;
    var t3 := "apps" + ("%2F" + t2);
    assert '&' !in t3;
    var t4 := "store" + ("%2F" + t3);
    assert '&' !in t4;
    var t5 := "play.goog" + "le.com" + ("%2F" + t4);
    assert '&' !in t5;
    assert '&' !in "https" + ("%3A" + ("%2F" + ("%2F" + t5)));
  }

  /** The `LU` extra decodes to the store page. */
  lemma LicensingUrlExtra(p: string)
    requires Plain(p)
    ensures MapGet(Extras(SampleData(JoinPairs(LicensingPairs(p)))), "LU") == Some(LicensingUrl(p))
  {
    LicensingPairsSeparable(p);
    LookupPlain(LicensingPairs(p), true, 0);
    DecodeLicensingUrl(p);
  }

  /** A response carrying only `LU` has no timers. */
  lemma LicensingTimers(p: string)
    requires Plain(p)
    ensures TimersOf(Extras(SampleData(JoinPairs(LicensingPairs(p))))) == Cleared
  {
    var ps := LicensingPairs(p);
    LicensingPairsSeparable(p);
    AbsentPlain(ps, true, "VT");
    AbsentPlain(ps, true, "GT");
    AbsentPlain(ps, true, "GR");
  }

  /** The `LU` extra decodes to the store page; the response has no timers. */
  lemma LicensingExtras(p: string)
    requires Plain(p)
    ensures MapGet(Extras(SampleData(JoinPairs(LicensingPairs(p)))), "LU") == Some(LicensingUrl(p))
    ensures TimersOf(Extras(SampleData(JoinPairs(LicensingPairs(p))))) == Cleared
  {
    LicensingUrlExtra(p);
    LicensingTimers(p);
  }
}

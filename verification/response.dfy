/**
 * The license server's signed response text and its parse (`ResponseData.parse`).
 *
 * The text is `code|nonce|packageName|versionCode|userId|timestamp:extras`: six fields cut
 * at '|', the last of which is cut at its first ':' into the timestamp and the extras.
 * The extras are `key=value` pairs cut at raw '&' and then at the first raw '=', and only
 * then form-decoded, so an escaped `%26` or `%3D` inside a value never cuts a pair.
 */
module Response {
  import opened Wrappers
  import opened Text
  import FormEncoding

  /** The parse failure: too few fields, or a numeric field that is not a number. */
  datatype MalformedResponse = MalformedResponse

  /**
   * One parsed response. `extra` keeps the extras text as received; Extras decodes it.
   */
  datatype ResponseData = ResponseData(
    responseCode: int,
    nonce: int,
    packageName: string,
    versionCode: int,
    userId: string,
    timestamp: int,
    extra: string)

  /** What every parsed response satisfies: numbers in Java's ranges, text fields without '|'. */
  predicate Valid(rd: ResponseData) {
    && MinInt <= rd.responseCode <= MaxInt
    && MinInt <= rd.nonce <= MaxInt
    && MinInt <= rd.versionCode <= MaxInt
    && MinLong <= rd.timestamp <= MaxLong
    && '|' !in rd.packageName
    && '|' !in rd.userId
  }

  /** `ResponseData.parse`. */
  function Parse(raw: string): (r: Result<ResponseData, MalformedResponse>)
    ensures |Split(raw, '|')| < 6 ==> r.Err?
    ensures r.Ok? ==> Valid(r.value)
  {
    SplitPrefixNone(raw, '|', 5);
    match SplitPrefix(raw, '|', 5)
    case None => Err(MalformedResponse)
    case Some(f) =>
      var (ts, extra) := SplitFirst(f[5], ':');
      var code, nonce, versionCode, timestamp := ParseInt(f[0]), ParseInt(f[1]), ParseInt(f[3]), ParseLong(ts);
      if code.None? || nonce.None? || versionCode.None? || timestamp.None? then Err(MalformedResponse)
      else Ok(ResponseData(code.value, nonce.value, f[2], versionCode.value, f[4], timestamp.value, extra.GetOr("")))
  }

  /** The response text with the given field texts, as the server writes it. */
  function Fields(code: string, nonce: string, packageName: string, versionCode: string,
                  userId: string, timestamp: string, extra: string): string {
    code + "|" + (nonce + "|" + (packageName + "|" + (versionCode + "|" + (userId + "|" + (timestamp + ":" + extra)))))
  }

  /** The response text the server writes for a record, the partner of Parse. */
  function Format(rd: ResponseData): string {
    Fields(IntToString(rd.responseCode), IntToString(rd.nonce), rd.packageName,
           IntToString(rd.versionCode), rd.userId, IntToString(rd.timestamp), rd.extra)
  }

  lemma SixPieces(a: string, b: string, c: string, d: string, e: string, f: string)
    ensures [a] + ([b] + ([c] + ([d] + ([e] + [f])))) == [a, b, c, d, e, f]
  {
  }

  /** Text fields free of '|' are cut back apart, the last one with its ':' and extras. */
  lemma SplitFields(code: string, nonce: string, packageName: string, versionCode: string,
                    userId: string, timestamp: string, extra: string)
    requires '|' !in code && '|' !in nonce && '|' !in packageName && '|' !in versionCode && '|' !in userId
    ensures SplitPrefix(Fields(code, nonce, packageName, versionCode, userId, timestamp, extra), '|', 5)
         == Some([code, nonce, packageName, versionCode, userId, timestamp + ":" + extra])
  {
    var r5 := timestamp + ":" + extra;
    var r4 := userId + "|" + r5;
    var r3 := versionCode + "|" + r4;
    var r2 := packageName + "|" + r3;
    var r1 := nonce + "|" + r2;
    assert SplitPrefix(r5, '|', 0) == Some([r5]);
    SplitPrefixConsSome(userId, '|', r5, 0, [r5]);
    var p4 := [userId] + [r5];
    SplitPrefixConsSome(versionCode, '|', r4, 1, p4);
    var p3 := [versionCode] + p4;
    SplitPrefixConsSome(packageName, '|', r3, 2, p3);
    var p2 := [packageName] + p3;
    SplitPrefixConsSome(nonce, '|', r2, 3, p2);
    var p1 := [nonce] + p2;
    SplitPrefixConsSome(code, '|', r1, 4, p1);
    SixPieces(code, nonce, packageName, versionCode, userId, r5);
  }

  /**
   * Text fields free of the separators parse to the record of their numbers; the extras
   * are everything after the timestamp's ':', whatever they hold.
   */
  lemma ParseFields(code: string, nonce: string, packageName: string, versionCode: string,
                    userId: string, timestamp: string, extra: string)
    requires '|' !in code && '|' !in nonce && '|' !in packageName && '|' !in versionCode && '|' !in userId
    requires '|' !in timestamp && ':' !in timestamp
    requires ParseInt(code).Some? && ParseInt(nonce).Some? && ParseInt(versionCode).Some?
    requires ParseLong(timestamp).Some?
    ensures Parse(Fields(code, nonce, packageName, versionCode, userId, timestamp, extra))
         == Ok(ResponseData(ParseInt(code).value, ParseInt(nonce).value, packageName,
                            ParseInt(versionCode).value, userId, ParseLong(timestamp).value, extra))
  {
    SplitFields(code, nonce, packageName, versionCode, userId, timestamp, extra);
    SplitFirstOfJoin(timestamp, ':', extra);
  }

  /** With the same separators in place, a code, nonce, version code or timestamp that is not a number rejects the response. */
  lemma ParseFieldsBadNumber(code: string, nonce: string, packageName: string, versionCode: string,
                             userId: string, timestamp: string, extra: string)
    requires '|' !in code && '|' !in nonce && '|' !in packageName && '|' !in versionCode && '|' !in userId
    requires '|' !in timestamp && ':' !in timestamp
    requires || ParseInt(code).None? || ParseInt(nonce).None? || ParseInt(versionCode).None?
             || ParseLong(timestamp).None?
    ensures Parse(Fields(code, nonce, packageName, versionCode, userId, timestamp, extra)).Err?
  {
    SplitFields(code, nonce, packageName, versionCode, userId, timestamp, extra);
    SplitFirstOfJoin(timestamp, ':', extra);
  }

  /** A numeral holds none of the separators of the response text. */
  lemma NumeralHasNoSeparators(n: int)
    ensures '|' !in IntToString(n) && ':' !in IntToString(n)
    ensures '&' !in IntToString(n) && '=' !in IntToString(n)
  {
    var s := IntToString(n);
    assert forall i | 0 <= i < |s| :: s[i] != '|' && s[i] != ':' && s[i] != '&' && s[i] != '=';
  }

  /** Every valid record survives formatting and parsing unchanged. */
  lemma ParseFormat(rd: ResponseData)
    requires Valid(rd)
    ensures Parse(Format(rd)) == Ok(rd)
  {
    NumeralHasNoSeparators(rd.responseCode);
    NumeralHasNoSeparators(rd.nonce);
    NumeralHasNoSeparators(rd.versionCode);
    NumeralHasNoSeparators(rd.timestamp);
    ParseOfToString(rd.responseCode, MinInt, MaxInt);
    ParseOfToString(rd.nonce, MinInt, MaxInt);
    ParseOfToString(rd.versionCode, MinInt, MaxInt);
    ParseOfToString(rd.timestamp, MinLong, MaxLong);
    ParseFields(IntToString(rd.responseCode), IntToString(rd.nonce), rd.packageName,
                IntToString(rd.versionCode), rd.userId, IntToString(rd.timestamp), rd.extra);
  }

  // ---------------------------------------------------------------------------
  // Extras
  // ---------------------------------------------------------------------------

  /** One extras piece cut at its first '='; a piece without '=' is no pair. */
  function PairOf(piece: string): (r: Option<(string, string)>)
    ensures r.None? <==> '=' !in piece
    ensures r.Some? ==> '=' !in r.value.0 && piece == r.value.0 + "=" + r.value.1
  {
    match SplitFirst(piece, '=')
    case (k, Some(v)) => Some((k, v))
    case (_, None) => None
  }

  /** The pairs of the pieces, in order, skipping pieces without '='. */
  function Pairs(pieces: seq<string>): (ps: seq<(string, string)>)
    ensures |ps| <= |pieces|
    decreases |pieces|
  {
    if |pieces| == 0 then []
    else
      match PairOf(pieces[0])
      case None => Pairs(pieces[1..])
      case Some(p) => [p] + Pairs(pieces[1..])
  }

  /** The pairs with their keys, and their values when `decodeValues`, form-decoded. */
  function DecodePairs(ps: seq<(string, string)>, decodeValues: bool): (r: seq<(string, string)>)
    ensures |r| == |ps|
  {
    seq(|ps|, i requires 0 <= i < |ps| =>
      (FormEncoding.Decode(ps[i].0), if decodeValues then FormEncoding.Decode(ps[i].1) else ps[i].1))
  }

  /** A mapping built by inserting the pairs in order, so a later duplicate key wins. */
  function MapOf(ps: seq<(string, string)>): map<string, string>
    decreases |ps|
  {
    if |ps| == 0 then map[]
    else MapOf(ps[..|ps| - 1])[ps[|ps| - 1].0 := ps[|ps| - 1].1]
  }

  /**
   * The extras mapping of an extras text. With `decodeValues` false the values are kept as
   * received, which is what the older expansion-file code reads its URLs from.
   */
  function ExtrasMap(blob: string, decodeValues: bool): (extras: map<string, string>)
    ensures |extras| <= |Split(blob, '&')|
  {
    var ps := DecodePairs(Pairs(Split(blob, '&')), decodeValues);
    MapOfSize(ps);
    MapOf(ps)
  }

  /** Some `key=value` piece of the extras text `blob` has a key that decodes to `k`. */
  predicate KeyWritten(blob: string, k: string) {
    exists p | p in Pairs(Split(blob, '&')) :: FormEncoding.Decode(p.0) == k
  }

  /** `decodeExtras`: the decoded extras of a response; every key is spelled out in the response. */
  function Extras(rd: ResponseData): (extras: map<string, string>)
    ensures |extras| <= |Split(rd.extra, '&')|
  {
    ExtrasMap(rd.extra, true)
  }

  /** Inserting the pairs one by one maps at most one key per pair. */
  lemma {:induction false} MapOfSize(ps: seq<(string, string)>)
    ensures |MapOf(ps)| <= |ps|
    decreases |ps|
  {
    if |ps| > 0 {
      MapOfSize(ps[..|ps| - 1]);
    }
  }

  /** Every key of the extras is the decoding of a key written in the extras text. */
  lemma ExtrasKeysWritten(blob: string, decodeValues: bool)
    ensures forall k | k in ExtrasMap(blob, decodeValues) :: KeyWritten(blob, k)
  {
    var ps := Pairs(Split(blob, '&'));
    var decoded := DecodePairs(ps, decodeValues);
    forall k | k in MapOf(decoded)
      ensures KeyWritten(blob, k)
    {
      MapOfKeys(decoded, k);
      var j :| 0 <= j < |decoded| && decoded[j].0 == k;
      assert ps[j] in ps;
    }
  }

  /** The key of the last pair with it maps to that pair's value. */
  lemma {:induction false} MapOfLast(ps: seq<(string, string)>, i: nat)
    requires i < |ps|
    requires forall j | i < j < |ps| :: ps[j].0 != ps[i].0
    ensures ps[i].0 in MapOf(ps) && MapOf(ps)[ps[i].0] == ps[i].1
    decreases |ps|
  {
    if i < |ps| - 1 {
      MapOfLast(ps[..|ps| - 1], i);
    }
  }

  /** A key no pair has is not mapped. */
  lemma {:induction false} MapOfAbsent(ps: seq<(string, string)>, k: string)
    requires forall j | 0 <= j < |ps| :: ps[j].0 != k
    ensures k !in MapOf(ps)
    decreases |ps|
  {
    if |ps| > 0 {
      MapOfAbsent(ps[..|ps| - 1], k);
    }
  }

  /** Every mapped key is the key of some pair. */
  lemma {:induction false} MapOfKeys(ps: seq<(string, string)>, k: string)
    requires k in MapOf(ps)
    ensures exists j | 0 <= j < |ps| :: ps[j].0 == k
    decreases |ps|
  {
    if ps[|ps| - 1].0 != k {
      MapOfKeys(ps[..|ps| - 1], k);
      var j :| 0 <= j < |ps| - 1 && ps[..|ps| - 1][j].0 == k;
      assert ps[j].0 == k;
    }
  }

  /** The text of a pair as the server writes it. */
  function PairText(p: (string, string)): string {
    p.0 + "=" + p.1
  }

  function PairTexts(ps: seq<(string, string)>): (r: seq<string>)
    ensures |r| == |ps|
    ensures forall i | 0 <= i < |ps| :: r[i] == PairText(ps[i])
    decreases |ps|
  {
    if |ps| == 0 then [] else [PairText(ps[0])] + PairTexts(ps[1..])
  }

  /** Pairs as written on the wire (already encoded), joined with '&'. */
  function JoinPairs(ps: seq<(string, string)>): string {
    Join(PairTexts(ps), '&')
  }

  /** Pairs whose texts can be cut apart again: no '&' anywhere, no '=' in a key. */
  predicate Separable(ps: seq<(string, string)>) {
    forall i | 0 <= i < |ps| :: '&' !in ps[i].0 && '&' !in ps[i].1 && '=' !in ps[i].0
  }

  lemma {:induction false} PairsOfPairTexts(ps: seq<(string, string)>)
    requires Separable(ps)
    ensures Pairs(PairTexts(ps)) == ps
    decreases |ps|
  {
    if |ps| > 0 {
      SplitFirstOfJoin(ps[0].0, '=', ps[0].1);
      assert PairTexts(ps)[1..] == PairTexts(ps[1..]);
      PairsOfPairTexts(ps[1..]);
      assert [ps[0]] + ps[1..] == ps;
    }
  }

  /**
   * Cutting joined pairs apart recovers exactly the pairs, so the extras are the
   * decoded pairs, the last duplicate winning; an escaped '&' or '=' inside a value
   * never cuts a pair.
   */
  lemma ExtrasOfJoinPairs(ps: seq<(string, string)>, decodeValues: bool)
    requires |ps| >= 1 && Separable(ps)
    ensures ExtrasMap(JoinPairs(ps), decodeValues) == MapOf(DecodePairs(ps, decodeValues))
  {
    var texts := PairTexts(ps);
    forall i | 0 <= i < |texts|
      ensures '&' !in texts[i]
    {
      assert texts[i] == ps[i].0 + "=" + ps[i].1;
    }
    SplitOfJoin(texts, '&');
    PairsOfPairTexts(ps);
  }

  /** The value an extras text gives the key of its last pair with that key. */
  lemma ExtrasLookup(ps: seq<(string, string)>, decodeValues: bool, i: nat, k: string)
    requires |ps| >= 1 && Separable(ps) && i < |ps|
    requires FormEncoding.Decode(ps[i].0) == k
    requires forall j | i < j < |ps| :: FormEncoding.Decode(ps[j].0) != k
    ensures k in ExtrasMap(JoinPairs(ps), decodeValues)
    ensures ExtrasMap(JoinPairs(ps), decodeValues)[k]
         == if decodeValues then FormEncoding.Decode(ps[i].1) else ps[i].1
  {
    ExtrasOfJoinPairs(ps, decodeValues);
    MapOfLast(DecodePairs(ps, decodeValues), i);
  }

  /** A key no pair decodes to is absent from the extras. */
  lemma ExtrasAbsent(ps: seq<(string, string)>, decodeValues: bool, k: string)
    requires |ps| >= 1 && Separable(ps)
    requires forall j | 0 <= j < |ps| :: FormEncoding.Decode(ps[j].0) != k
    ensures k !in ExtrasMap(JoinPairs(ps), decodeValues)
  {
    ExtrasOfJoinPairs(ps, decodeValues);
    MapOfAbsent(DecodePairs(ps, decodeValues), k);
  }

  /** An empty extras text has no extras. */
  lemma ExtrasOfEmpty(decodeValues: bool)
    ensures ExtrasMap("", decodeValues) == map[]
  {
    assert Split("", '&') == [""];
  }

  /** Form-encodes every key and value. */
  function EncodePairs(ps: seq<(string, string)>): (r: seq<(string, string)>)
    ensures |r| == |ps|
  {
    seq(|ps|, i requires 0 <= i < |ps| => (FormEncoding.Encode(ps[i].0), FormEncoding.Encode(ps[i].1)))
  }

  /** The extras text a server writes for the pairs, the partner of ExtrasMap. */
  function FormatExtras(ps: seq<(string, string)>): string {
    JoinPairs(EncodePairs(ps))
  }

  /** Any pairs, whatever characters they hold, are recovered from their encoded text. */
  lemma ExtrasOfFormat(ps: seq<(string, string)>)
    requires |ps| >= 1
    ensures ExtrasMap(FormatExtras(ps), true) == MapOf(ps)
  {
    EncodedPairsDecode(ps);
    ExtrasOfJoinPairs(EncodePairs(ps), true);
  }

  /** Encoded pairs hold no separator, and decoding them gives the pairs back. */
  lemma EncodedPairsDecode(ps: seq<(string, string)>)
    ensures Separable(EncodePairs(ps))
    ensures DecodePairs(EncodePairs(ps), true) == ps
  {
    var e := EncodePairs(ps);
    forall i | 0 <= i < |ps|
      ensures '&' !in e[i].0 && '&' !in e[i].1 && '=' !in e[i].0
      ensures DecodePairs(e, true)[i] == ps[i]
    {
      FormEncoding.EncodeHasNoSeparators(ps[i].0);
      FormEncoding.EncodeHasNoSeparators(ps[i].1);
      FormEncoding.DecodeEncode(ps[i].0);
      FormEncoding.DecodeEncode(ps[i].1);
    }
  }
}

/**
 * String helpers the licensing code leans on from the Java library: splitting at a
 * delimiter, decimal conversion in both directions (`Long.toString`, `Long.parseLong`,
 * `Integer.parseInt`) with Java's 32- and 64-bit ranges written out.
 */
module Text {
  import opened Wrappers

  // ---------------------------------------------------------------------------
  // Splitting and joining
  // ---------------------------------------------------------------------------

  /**
   * Splits `s` at the first `d`: the text before it and, when `d` occurs, the text after it.
   * The pair is the unique decomposition `s == before + [d] + after` with `d` not in `before`.
   */
  function SplitFirst(s: string, d: char): (r: (string, Option<string>))
    ensures d !in r.0
    ensures r.1.None? <==> d !in s
    ensures r.1.None? ==> r.0 == s
    ensures r.1.Some? ==> s == r.0 + [d] + r.1.value
    decreases |s|
  {
    if s == [] then ("", None)
    else if s[0] == d then ("", Some(s[1..]))
    else
      var rest := SplitFirst(s[1..], d);
      assert s == [s[0]] + s[1..];
      ([s[0]] + rest.0, rest.1)
  }

  /** The converse of SplitFirst: a text glued at a delimiter it does not contain splits back. */
  lemma {:induction false} SplitFirstOfJoin(a: string, d: char, b: string)
    requires d !in a
    ensures SplitFirst(a + [d] + b, d) == (a, Some(b))
    decreases |a|
  {
    var s := a + [d] + b;
    if a == [] {
      assert s[1..] == b;
    } else {
      assert s[1..] == a[1..] + [d] + b;
      SplitFirstOfJoin(a[1..], d, b);
      assert a == [a[0]] + a[1..];
    }
  }

  /** `parts` glued with `d` between consecutive parts (`TextUtils.join`). */
  function Join(parts: seq<string>, d: char): string
    decreases |parts|
  {
    if |parts| == 0 then ""
    else if |parts| == 1 then parts[0]
    else parts[0] + [d] + Join(parts[1..], d)
  }

  /** `s` cut at every `d` (`String.split` without dropping empty pieces). */
  function Split(s: string, d: char): (parts: seq<string>)
    ensures |parts| >= 1
    ensures forall i | 0 <= i < |parts| :: d !in parts[i]
    ensures Join(parts, d) == s
    decreases |s|
  {
    var (first, rest) := SplitFirst(s, d);
    if rest.None? then [first]
    else
      var tail := Split(rest.value, d);
      assert ([first] + tail)[1..] == tail;
      [first] + tail
  }

  /** Joining pieces free of the delimiter and splitting again gives the pieces back. */
  lemma {:induction false} SplitOfJoin(parts: seq<string>, d: char)
    requires |parts| >= 1
    requires forall i | 0 <= i < |parts| :: d !in parts[i]
    ensures Split(Join(parts, d), d) == parts
    decreases |parts|
  {
    if |parts| > 1 {
      SplitFirstOfJoin(parts[0], d, Join(parts[1..], d));
      SplitOfJoin(parts[1..], d);
    }
  }

  /**
   * The first `n` pieces of `s` cut at `d`, followed by everything after the `n`-th `d`
   * (which may contain further `d`s); None when `s` holds fewer than `n` delimiters.
   */
  function SplitPrefix(s: string, d: char, n: nat): (r: Option<seq<string>>)
    ensures r.Some? ==> |r.value| == n + 1 && Join(r.value, d) == s
    ensures r.Some? ==> forall i | 0 <= i < n :: d !in r.value[i]
    decreases n
  {
    if n == 0 then Some([s])
    else
      match SplitFirst(s, d)
      case (_, None) => None
      case (head, Some(tail)) =>
        match SplitPrefix(tail, d, n - 1)
        case None => None
        case Some(rest) =>
          assert ([head] + rest)[1..] == rest;
          Some([head] + rest)
  }

  /** SplitPrefix fails exactly when the text has at most `n` pieces, that is fewer than `n` delimiters. */
  lemma {:induction false} SplitPrefixNone(s: string, d: char, n: nat)
    ensures SplitPrefix(s, d, n).None? <==> |Split(s, d)| <= n
    decreases n
  {
    if n > 0 {
      var (head, tail) := SplitFirst(s, d);
      if tail.Some? {
        SplitPrefixNone(tail.value, d, n - 1);
      }
    }
  }

  /** A piece free of the delimiter in front of a text: SplitPrefix cuts it off first. */
  lemma SplitPrefixCons(a: string, d: char, rest: string, n: nat)
    requires d !in a
    ensures SplitPrefix(a + [d] + rest, d, n + 1) ==
      match SplitPrefix(rest, d, n)
      case None => None
      case Some(r) => Some([a] + r)
  {
    SplitFirstOfJoin(a, d, rest);
  }

  /** SplitPrefixCons when the rest is known to split. */
  lemma SplitPrefixConsSome(a: string, d: char, rest: string, n: nat, r: seq<string>)
    requires d !in a && SplitPrefix(rest, d, n) == Some(r)
    ensures SplitPrefix(a + [d] + rest, d, n + 1) == Some([a] + r)
  {
    SplitPrefixCons(a, d, rest, n);
  }

  /** The step of SplitPrefixOfJoin: one more piece in front of pieces that split back. */
  lemma SplitPrefixOfJoinCons(a: string, tail: seq<string>, d: char)
    requires |tail| >= 1 && d !in a
    requires SplitPrefix(Join(tail, d), d, |tail| - 1) == Some(tail)
    ensures SplitPrefix(Join([a] + tail, d), d, |tail|) == Some([a] + tail)
  {
    assert ([a] + tail)[1..] == tail;
    SplitPrefixCons(a, d, Join(tail, d), |tail| - 1);
  }

  /** Pieces free of the delimiter, followed by any last piece, are cut back apart by SplitPrefix. */
  lemma {:induction false} SplitPrefixOfJoin(parts: seq<string>, d: char)
    requires |parts| >= 1
    requires forall i | 0 <= i < |parts| - 1 :: d !in parts[i]
    ensures SplitPrefix(Join(parts, d), d, |parts| - 1) == Some(parts)
    decreases |parts|
  {
    if |parts| == 1 {
      assert [parts[0]] == parts;
    } else {
      var tail := parts[1..];
      assert forall i | 0 <= i < |tail| - 1 :: d !in tail[i] by {
        forall i | 0 <= i < |tail| - 1
          ensures d !in tail[i]
        {
          assert tail[i] == parts[i + 1];
        }
      }
      SplitPrefixOfJoin(tail, d);
      SplitPrefixOfJoinCons(parts[0], tail, d);
      assert [parts[0]] + tail == parts;
    }
  }

  // ---------------------------------------------------------------------------
  // Decimal digits
  // ---------------------------------------------------------------------------

  predicate IsDigit(c: char) {
    '0' <= c <= '9'
  }

  predicate AllDigits(s: string) {
    forall i | 0 <= i < |s| :: IsDigit(s[i])
  }

  /** The value of a digit character (0 for anything else). */
  function DigitValue(c: char): (v: nat)
    ensures v < 10
  {
    if IsDigit(c) then c as int - '0' as int else 0
  }

  /** The digit character for `v`. */
  function DigitChar(v: nat): (c: char)
    requires v < 10
    ensures IsDigit(c) && DigitValue(c) == v
  {
    (v + '0' as int) as char
  }

  /** The value of the decimal numeral formed by the first `n` characters of `s`. */
  function PrefixValue(s: string, n: nat): nat
    requires n <= |s|
    decreases n
  {
    if n == 0 then 0 else PrefixValue(s, n - 1) * 10 + DigitValue(s[n - 1])
  }

  /** The value of the decimal numeral `s`. */
  function DigitsValue(s: string): nat {
    PrefixValue(s, |s|)
  }

  /** A numeral as `Long.toString` writes it: digits, no leading zero unless it is "0". */
  predicate Canonical(s: string) {
    |s| >= 1 && AllDigits(s) && (s[0] == '0' ==> |s| == 1)
  }

  lemma {:induction false} PrefixValueExtend(s: string, t: string, n: nat)
    requires n <= |s|
    ensures PrefixValue(s + t, n) == PrefixValue(s, n)
    decreases n
  {
    if n > 0 {
      PrefixValueExtend(s, t, n - 1);
    }
  }

  /** Appending a digit shifts the value one decimal place. */
  lemma DigitsValueSnoc(s: string, c: char)
    ensures DigitsValue(s + [c]) == DigitsValue(s) * 10 + DigitValue(c)
  {
    PrefixValueExtend(s, [c], |s|);
  }

  /** `Long.toString` of a non-negative number. */
  function NatToString(n: nat): (s: string)
    ensures Canonical(s)
    ensures DigitsValue(s) == n
    decreases n
  {
    if n < 10 then [DigitChar(n)]
    else
      var s := NatToString(n / 10) + [DigitChar(n % 10)];
      DigitsValueSnoc(NatToString(n / 10), DigitChar(n % 10));
      s
  }

  /** A numeral that does not start with '0' has a positive value. */
  lemma {:induction false} PositivePrefix(s: string, n: nat)
    requires 1 <= n <= |s|
    requires IsDigit(s[0]) && s[0] != '0'
    ensures PrefixValue(s, n) >= 1
    decreases n
  {
    if n > 1 {
      PositivePrefix(s, n - 1);
    }
  }

  /** A canonical numeral is the one NatToString writes for its value. */
  lemma {:induction false} NatToStringOfValue(s: string)
    requires Canonical(s)
    ensures NatToString(DigitsValue(s)) == s
    decreases |s|
  {
    if |s| > 1 {
      var t, c := s[..|s| - 1], s[|s| - 1];
      assert s == t + [c];
      assert Canonical(t);
      DigitsValueSnoc(t, c);
      PositivePrefix(t, |t|);
      NatToStringOfValue(t);
      assert DigitsValue(s) / 10 == DigitsValue(t);
      assert DigitsValue(s) % 10 == DigitValue(c);
    }
  }

  /** NatToString is injective: distinct numbers have distinct numerals. */
  lemma NatToStringInjective(m: nat, n: nat)
    requires NatToString(m) == NatToString(n)
    ensures m == n
  {
  }

  // ---------------------------------------------------------------------------
  // Java integer parsing
  // ---------------------------------------------------------------------------

  const MinInt: int := -0x8000_0000
  const MaxInt: int := 0x7fff_ffff
  const MinLong: int := -0x8000_0000_0000_0000
  const MaxLong: int := 0x7fff_ffff_ffff_ffff

  /** `Long.toString` of any number. */
  function IntToString(n: int): (s: string)
    ensures forall i | 0 <= i < |s| :: s[i] == '-' || IsDigit(s[i])
  {
    if n < 0 then "-" + NatToString(-n) else NatToString(n)
  }

  /**
   * Java's `parseLong`/`parseInt` for the range [lo, hi]: an optional '-' or '+' sign,
   * then one or more decimal digits (leading zeros allowed), whose value must fit the range;
   * anything else is a NumberFormatException, here None.
   */
  function ParseSigned(s: string, lo: int, hi: int): (r: Option<int>)
    ensures r.Some? ==> lo <= r.value <= hi
    ensures r.Some? ==> |s| >= 1 && (IsDigit(s[0]) || (|s| >= 2 && (s[0] == '-' || s[0] == '+')))
  {
    if |s| == 0 then None
    else
      var digits := if s[0] == '-' || s[0] == '+' then s[1..] else s;
      if |digits| == 0 || !AllDigits(digits) then None
      else
        var v := if s[0] == '-' then -(DigitsValue(digits) as int) else DigitsValue(digits) as int;
        if lo <= v <= hi then Some(v) else None
  }

  /** `Integer.parseInt`. */
  function ParseInt(s: string): Option<int> {
    ParseSigned(s, MinInt, MaxInt)
  }

  /** `Long.parseLong`. */
  function ParseLong(s: string): Option<int> {
    ParseSigned(s, MinLong, MaxLong)
  }

  /** Parsing what toString wrote gives the number back, for every number in range. */
  lemma ParseOfToString(n: int, lo: int, hi: int)
    requires lo <= n <= hi
    ensures ParseSigned(IntToString(n), lo, hi) == Some(n)
  {
    if n < 0 {
      assert ("-" + NatToString(-n))[1..] == NatToString(-n);
    }
  }

  /** A parsed text that is canonical is exactly what toString writes for the result. */
  lemma ToStringOfParse(s: string, lo: int, hi: int)
    requires ParseSigned(s, lo, hi).Some?
    requires Canonical(s)
    ensures IntToString(ParseSigned(s, lo, hi).value) == s
  {
    NatToStringOfValue(s);
  }
}

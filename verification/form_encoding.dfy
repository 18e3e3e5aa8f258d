/**
 * `application/x-www-form-urlencoded` text, as the licensing server writes the extras of a
 * response: '+' stands for a space and `%XY` for the character with code 0xXY
 * (percent-encoding, section 2.1 of RFC 3986). Decoding is best-effort: a '%' that is not
 * followed by two hexadecimal digits is kept as it is, so decoding never fails.
 */
module FormEncoding {

  predicate IsHex(c: char) {
    ('0' <= c <= '9') || ('a' <= c <= 'f') || ('A' <= c <= 'F')
  }

  function HexValue(c: char): (v: nat)
    requires IsHex(c)
    ensures v < 16
  {
    if '0' <= c <= '9' then c as int - '0' as int
    else if 'a' <= c <= 'f' then c as int - 'a' as int + 10
    else c as int - 'A' as int + 10
  }

  /** The upper-case hexadecimal digit for `v`. */
  function HexDigit(v: nat): (c: char)
    requires v < 16
    ensures IsHex(c) && HexValue(c) == v
  {
    if v < 10 then (v + '0' as int) as char else (v - 10 + 'A' as int) as char
  }

  /** The character an escape `%xy` stands for. */
  function Unescape(x: char, y: char): char
    requires IsHex(x) && IsHex(y)
  {
    (HexValue(x) * 16 + HexValue(y)) as char
  }

  /** Form-decoding of `s`. */
  function Decode(s: string): (r: string)
    ensures |r| <= |s|
    decreases |s|
  {
    if |s| == 0 then ""
    else if s[0] == '+' then " " + Decode(s[1..])
    else if s[0] == '%' && |s| >= 3 && IsHex(s[1]) && IsHex(s[2]) then
      [Unescape(s[1], s[2])] + Decode(s[3..])
    else [s[0]] + Decode(s[1..])
  }

  /** Characters a form encoder leaves as they are. */
  predicate Unreserved(c: char) {
    ('a' <= c <= 'z') || ('A' <= c <= 'Z') || ('0' <= c <= '9') || c in ".-*_"
  }

  /**
   * The encoding of one character: itself when unreserved, '+' for a space, an upper-case
   * escape for any other character below 256, and itself above that.
   */
  function EncodeChar(c: char): (e: string)
    ensures Decode(e) == [c]
    ensures '&' !in e && '=' !in e
  {
    if Unreserved(c) then [c]
    else if c == ' ' then "+"
    else if c as int < 256 then
      var e := ['%', HexDigit(c as int / 16), HexDigit(c as int % 16)];
      assert e[3..] == "";
      e
    else [c]
  }

  /** Form-encoding of `s`, the partner of Decode. */
  function Encode(s: string): string
    decreases |s|
  {
    if |s| == 0 then "" else EncodeChar(s[0]) + Encode(s[1..])
  }

  /** Decoding an escape, a plus sign or a plain character consumes exactly its encoding. */
  lemma DecodeEncodeCharPrefix(c: char, rest: string)
    ensures Decode(EncodeChar(c) + rest) == [c] + Decode(rest)
  {
    var e := EncodeChar(c) + rest;
    if Unreserved(c) || c == ' ' || c as int >= 256 {
      assert e[1..] == rest;
    } else {
      assert e[3..] == rest;
    }
  }

  /** Encoding is undone by decoding, for every text. */
  lemma {:induction false} DecodeEncode(s: string)
    ensures Decode(Encode(s)) == s
    decreases |s|
  {
    if |s| > 0 {
      DecodeEncodeCharPrefix(s[0], Encode(s[1..]));
      DecodeEncode(s[1..]);
      assert s == [s[0]] + s[1..];
    }
  }

  /** An encoded text never contains the pair separators '&' and '='. */
  lemma {:induction false} EncodeHasNoSeparators(s: string)
    ensures '&' !in Encode(s) && '=' !in Encode(s)
    decreases |s|
  {
    if |s| > 0 {
      EncodeHasNoSeparators(s[1..]);
    }
  }

  /** Encoding distributes over concatenation. */
  lemma {:induction false} EncodeAppend(s: string, t: string)
    ensures Encode(s + t) == Encode(s) + Encode(t)
    decreases |s|
  {
    if |s| == 0 {
      assert s + t == t;
    } else {
      assert (s + t)[1..] == s[1..] + t;
      EncodeAppend(s[1..], t);
      assert Encode(s + t) == EncodeChar(s[0]) + Encode(s[1..] + t);
    }
  }

  /** A run of text with neither '%' nor '+' decodes to itself, whatever follows it. */
  lemma {:induction false} DecodePlainPrefix(a: string, rest: string)
    requires '%' !in a && '+' !in a
    ensures Decode(a + rest) == a + Decode(rest)
    decreases |a|
  {
    if |a| == 0 {
      assert a + rest == rest;
    } else {
      assert (a + rest)[1..] == a[1..] + rest;
      DecodePlainPrefix(a[1..], rest);
      assert a == [a[0]] + a[1..];
    }
  }

  /** An escape `%xy` at the front decodes to one character, whatever follows it. */
  lemma DecodeEscapePrefix(x: char, y: char, rest: string)
    requires IsHex(x) && IsHex(y)
    ensures Decode(['%', x, y] + rest) == [Unescape(x, y)] + Decode(rest)
  {
    assert (['%', x, y] + rest)[3..] == rest;
  }

  /** Text with neither '%' nor '+' is its own decoding. */
  lemma DecodePlain(a: string)
    requires '%' !in a && '+' !in a
    ensures Decode(a) == a
  {
    DecodePlainPrefix(a, "");
    assert a + "" == a;
  }
}

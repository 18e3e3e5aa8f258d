/**
 * `AESObfuscator`, as an ideal keyed encoding. A token records the identity it was made
 * under (salt, package name, device id), the entity key it is bound to and the optional
 * plaintext; `unobfuscate` gives the plaintext back only to the same identity and the same
 * entity key, and fails with the single ValidationException for anything else.
 *
 * Confidentiality is not modelled: the ideal token holds its parts in the clear, and what
 * is proved is the binding (round trip, determinism, rejection of every mismatch).
 */
module Obfuscation {
  import opened Wrappers
  import opened Text

  /** A Java `byte`. */
  newtype Byte = x: int | -128 <= x < 128

  /** The one failure `unobfuscate` reports, whatever went wrong. */
  datatype ValidationException = ValidationException

  /** A length-prefixed field: the length in decimal, ':', then the text itself. */
  function Field(x: string): string {
    NatToString(|x|) + ":" + x
  }

  /** Reads one length-prefixed field off the front of `s`, with what follows it. */
  function ReadField(s: string): Option<(string, string)> {
    var (lenText, rest) := SplitFirst(s, ':');
    if rest.None? || !Canonical(lenText) then None
    else
      var n := DigitsValue(lenText);
      if n <= |rest.value| then Some((rest.value[..n], rest.value[n..])) else None
  }

  lemma NumeralHasNoColon(n: nat)
    ensures ':' !in NatToString(n)
  {
    var s := NatToString(n);
    assert forall i | 0 <= i < |s| :: s[i] != ':';
  }

  /** A field reads back as itself, whatever follows it. */
  lemma ReadFieldOfField(x: string, rest: string)
    ensures ReadField(Field(x) + rest) == Some((x, rest))
  {
    NumeralHasNoColon(|x|);
    assert Field(x) + rest == NatToString(|x|) + [':'] + (x + rest);
    SplitFirstOfJoin(NatToString(|x|), ':', x + rest);
    assert (x + rest)[..|x|] == x;
    assert (x + rest)[|x|..] == rest;
  }

  /** Whatever reads as a field is that field followed by the rest. */
  lemma FieldOfReadField(s: string, x: string, rest: string)
    requires ReadField(s) == Some((x, rest))
    ensures s == Field(x) + rest
  {
    var (lenText, after) := SplitFirst(s, ':');
    NatToStringOfValue(lenText);
    assert after.value == after.value[..DigitsValue(lenText)] + after.value[DigitsValue(lenText)..];
  }

  /** Four fields read one after the other are the four fields followed by the rest. */
  lemma FieldsOfReadFields(s: string, salt: string, r1: string, pkg: string, r2: string,
                           dev: string, r3: string, key: string, body: string)
    requires ReadField(s) == Some((salt, r1)) && ReadField(r1) == Some((pkg, r2))
    requires ReadField(r2) == Some((dev, r3)) && ReadField(r3) == Some((key, body))
    ensures s == Field(salt) + (Field(pkg) + (Field(dev) + (Field(key) + body)))
  {
    FieldOfReadField(s, salt, r1);
    FieldOfReadField(r1, pkg, r2);
    FieldOfReadField(r2, dev, r3);
    FieldOfReadField(r3, key, body);
  }

  /** The parts of a token. */
  datatype TokenParts = TokenParts(saltText: string, packageName: string, deviceId: string, entityKey: string, body: string)

  /** The token text of its parts. */
  function Compose(p: TokenParts): string {
    "T" + (Field(p.saltText) + (Field(p.packageName) + (Field(p.deviceId) + (Field(p.entityKey) + p.body))))
  }

  /** The parts of a token text, if it is one. */
  function Decompose(token: string): Option<TokenParts> {
    if |token| == 0 || token[0] != 'T' then None
    else
      match ReadField(token[1..])
      case None => None
      case Some((salt, r1)) =>
        match ReadField(r1)
        case None => None
        case Some((pkg, r2)) =>
          match ReadField(r2)
          case None => None
          case Some((dev, r3)) =>
            match ReadField(r3)
            case None => None
            case Some((key, body)) => Some(TokenParts(salt, pkg, dev, key, body))
  }

  /** Every token's parts are read back. */
  lemma DecomposeCompose(p: TokenParts)
    ensures Decompose(Compose(p)) == Some(p)
  {
    var r3 := Field(p.entityKey) + p.body;
    var r2 := Field(p.deviceId) + r3;
    var r1 := Field(p.packageName) + r2;
    assert Compose(p)[1..] == Field(p.saltText) + r1;
    ReadFieldOfField(p.saltText, r1);
    ReadFieldOfField(p.packageName, r2);
    ReadFieldOfField(p.deviceId, r3);
    ReadFieldOfField(p.entityKey, p.body);
  }

  /** A text that decomposes is the token of its parts: token texts have one reading. */
  lemma ComposeDecompose(token: string)
    requires Decompose(token).Some?
    ensures Compose(Decompose(token).value) == token
  {
    var s1 := token[1..];
    var (salt, r1) := ReadField(s1).value;
    var (pkg, r2) := ReadField(r1).value;
    var (dev, r3) := ReadField(r2).value;
    var (key, body) := ReadField(r3).value;
    FieldsOfReadFields(s1, salt, r1, pkg, r2, dev, r3, key, body);
    assert token == "T" + s1;
  }

  /** The body of a token: "N" for null, "S" then the plaintext otherwise. */
  function Body(plaintext: Option<string>): string {
    match plaintext
    case None => "N"
    case Some(s) => "S" + s
  }

  function ReadBody(body: string): (r: Option<Option<string>>)
    ensures r.Some? ==> Body(r.value) == body
  {
    if body == "N" then Some(None)
    else if |body| >= 1 && body[0] == 'S' then
      assert body == "S" + body[1..];
      Some(Some(body[1..]))
    else None
  }

  lemma ReadBodyOfBody(plaintext: Option<string>)
    ensures ReadBody(Body(plaintext)) == Some(plaintext)
  {
    if plaintext.Some? {
      assert Body(plaintext)[1..] == plaintext.value;
    }
  }

  /** The text form of the salt, one character per byte. */
  function SaltText(salt: seq<Byte>): (t: string)
    ensures |t| == |salt|
    ensures forall i | 0 <= i < |salt| :: t[i] as int == salt[i] as int + 128
  {
    seq(|salt|, i requires 0 <= i < |salt| => (salt[i] as int + 128) as char)
  }

  /** Distinct salts have distinct texts. */
  lemma SaltTextInjective(a: seq<Byte>, b: seq<Byte>)
    requires SaltText(a) == SaltText(b)
    ensures a == b
  {
    assert forall i | 0 <= i < |a| :: a[i] as int + 128 == SaltText(a)[i] as int;
  }

  /** Java's `s + t` where `s` may be null: null reads as "null". */
  function JavaConcat(s: Option<string>, t: string): string {
    match s
    case None => "null" + t
    case Some(x) => x + t
  }

  /** An obfuscator: the identity its key is derived from. */
  datatype AESObfuscator = AESObfuscator(salt: seq<Byte>, packageName: string, deviceId: string) {

    /**
     * The token for `plaintext` bound to `key`: it reads back as this identity, this key
     * and the plaintext's body.
     */
    function Obfuscate(plaintext: Option<string>, key: string): (token: string)
      ensures Decompose(token) == Some(TokenParts(SaltText(salt), packageName, deviceId, key, Body(plaintext)))
    {
      DecomposeCompose(TokenParts(SaltText(salt), packageName, deviceId, key, Body(plaintext)));
      Compose(TokenParts(SaltText(salt), packageName, deviceId, key, Body(plaintext)))
    }

    /**
     * The plaintext of `token`, when it is a token made under this identity for `key`;
     * ValidationException otherwise.
     */
    function Unobfuscate(token: string, key: string): (r: Result<Option<string>, ValidationException>)
      ensures r.Ok? ==> token == Obfuscate(r.value, key)
    {
      match Decompose(token)
      case None => Err(ValidationException)
      case Some(p) =>
        if p.saltText != SaltText(salt) || p.packageName != packageName || p.deviceId != deviceId || p.entityKey != key then
          Err(ValidationException)
        else
          match ReadBody(p.body)
          case None => Err(ValidationException)
          case Some(plaintext) =>
            ComposeDecompose(token);
            Ok(plaintext)
    }
  }

  /** Unobfuscating a token with the identity and key it was made with gives the plaintext back. */
  lemma UnobfuscateObfuscate(o: AESObfuscator, plaintext: Option<string>, key: string)
    ensures o.Unobfuscate(o.Obfuscate(plaintext, key), key) == Ok(plaintext)
  {
    ReadBodyOfBody(plaintext);
  }

  /**
   * A token is accepted exactly by the identity and the key it was made with: any other
   * salt, package name, device id or entity key is rejected.
   */
  lemma AcceptedIffSameIdentityAndKey(o1: AESObfuscator, o2: AESObfuscator, plaintext: Option<string>, k1: string, k2: string)
    ensures o2.Unobfuscate(o1.Obfuscate(plaintext, k1), k2).Ok? <==> o1 == o2 && k1 == k2
    ensures o1 == o2 && k1 == k2 ==> o2.Unobfuscate(o1.Obfuscate(plaintext, k1), k2) == Ok(plaintext)
  {
    DecomposeCompose(TokenParts(SaltText(o1.salt), o1.packageName, o1.deviceId, k1, Body(plaintext)));
    ReadBodyOfBody(plaintext);
    if SaltText(o1.salt) == SaltText(o2.salt) {
      SaltTextInjective(o1.salt, o2.salt);
    }
  }

  /** Equal identities make equal tokens. */
  lemma ObfuscateDeterministic(o1: AESObfuscator, o2: AESObfuscator, plaintext: Option<string>, key: string)
    requires o1.salt == o2.salt && o1.packageName == o2.packageName && o1.deviceId == o2.deviceId
    ensures o1.Obfuscate(plaintext, key) == o2.Obfuscate(plaintext, key)
  {
  }
}

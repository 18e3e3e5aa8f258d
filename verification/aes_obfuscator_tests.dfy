/**
 * The AESObfuscator test scenarios: an obfuscator for the salt below, package "package"
 * and device "device", and what it must accept and reject.
 */
module AESObfuscatorTests {
  import opened Wrappers
  import opened Obfuscation

  const Salt: seq<Byte> := [104, -12, 112, 82, -85, -10, -11, 61, 15, 54, 44, -66, -117, -89, -64, 110, -53, 123, 33]

  /** The obfuscator every scenario starts from. */
  const Mine: AESObfuscator := AESObfuscator(Salt, "package", "device")

  /** Every printable ASCII class, separators and escapes included, and one non-ASCII letter. */
  const Mixed: string := "0123456789abcdefghijklmnopqrstuvwxyzABCDEFGHIJKLMNOPQRSTUVWXYZ!@#$%^&*-=/\\|~`,.;:"
                         + "()[]{}<>\U{00F6}"

  /** A token for "test" under the key "testKey". */
  function TestToken(): string {
    Mine.Obfuscate(Some("test"), "testKey")
  }

  /** `isInvertible`: a text obfuscated under the key `original + "Key"` reads back under that key. */
  lemma Invertible(original: Option<string>)
    ensures Mine.Unobfuscate(Mine.Obfuscate(original, JavaConcat(original, "Key")), JavaConcat(original, "Key"))
         == Ok(original)
  {
    UnobfuscateObfuscate(Mine, original, JavaConcat(original, "Key"));
  }

  /** null, the empty text and the mixed text all survive the round trip, each under its own key. */
  lemma ObfuscateUnobfuscate()
    ensures Mine.Unobfuscate(Mine.Obfuscate(None, JavaConcat(None, "Key")), JavaConcat(None, "Key")) == Ok(None)
    ensures Mine.Unobfuscate(Mine.Obfuscate(Some(""), JavaConcat(Some(""), "Key")), JavaConcat(Some(""), "Key"))
         == Ok(Some(""))
    ensures Mine.Unobfuscate(Mine.Obfuscate(Some(Mixed), JavaConcat(Some(Mixed), "Key")), JavaConcat(Some(Mixed), "Key"))
         == Ok(Some(Mixed))
  {
    Invertible(None);
    Invertible(Some(""));
    Invertible(Some(Mixed));
  }

  /** A text that is no token is rejected. */
  lemma UnobfuscateInvalid()
    ensures Mine.Unobfuscate("invalid", "testKey") == Err(ValidationException)
  {
  }

  /** An obfuscator with the one-byte salt [1] rejects the token. */
  lemma UnobfuscateDifferentSalt()
    ensures AESObfuscator([1], "package", "device").Unobfuscate(TestToken(), "testKey") == Err(ValidationException)
  {
    AcceptedIffSameIdentityAndKey(Mine, AESObfuscator([1], "package", "device"), Some("test"), "testKey", "testKey");
  }

  /** `length` zeros. */
  function Zeros(length: nat): (s: string)
    ensures |s| == length
  {
    seq(length, _ => '0')
  }

  /** For every length below 255, the obfuscator with salt [1] rejects the token of that many zeros. */
  lemma UnobfuscateAvoidBadPaddingAll()
    ensures forall length: nat | length < 255 ::
      AESObfuscator([1], "package", "device").Unobfuscate(Mine.Obfuscate(Some(Zeros(length)), "testKey"), "testKey")
        == Err(ValidationException)
  {
    forall length: nat | length < 255
      ensures AESObfuscator([1], "package", "device").Unobfuscate(Mine.Obfuscate(Some(Zeros(length)), "testKey"), "testKey")
        == Err(ValidationException)
    {
      AcceptedIffSameIdentityAndKey(Mine, AESObfuscator([1], "package", "device"), Some(Zeros(length)), "testKey", "testKey");
    }
  }

  /**
   * For every length below 255, a run of that many zeros obfuscated by this obfuscator is
   * rejected by the obfuscator with salt [1]; the count of rejections is all 255.
   */
  method UnobfuscateAvoidBadPadding() returns (rejected: nat)
    ensures rejected == 255
  {
    var differentSalt := AESObfuscator([1], "package", "device");
    rejected := 0;
    for length := 0 to 255
      invariant rejected == length
    {
      var obfuscated := Mine.Obfuscate(Some(Zeros(length)), "testKey");
      AcceptedIffSameIdentityAndKey(Mine, differentSalt, Some(Zeros(length)), "testKey", "testKey");
      if differentSalt.Unobfuscate(obfuscated, "testKey").Err? {
        rejected := rejected + 1;
      }
    }
  }

  /** An obfuscator for device "device2" rejects the token. */
  lemma UnobfuscateDifferentDevice()
    ensures AESObfuscator(Salt, "package", "device2").Unobfuscate(TestToken(), "testKey") == Err(ValidationException)
  {
    AcceptedIffSameIdentityAndKey(Mine, AESObfuscator(Salt, "package", "device2"), Some("test"), "testKey", "testKey");
  }

  /** An obfuscator for package "package2" rejects the token. */
  lemma UnobfuscateDifferentPackage()
    ensures AESObfuscator(Salt, "package2", "device").Unobfuscate(TestToken(), "testKey") == Err(ValidationException)
  {
    AcceptedIffSameIdentityAndKey(Mine, AESObfuscator(Salt, "package2", "device"), Some("test"), "testKey", "testKey");
  }

  /** Another identity asking under another key is rejected. */
  lemma UnobfuscateDifferentKey()
    ensures AESObfuscator(Salt, "package2", "device").Unobfuscate(TestToken(), "notMyKey") == Err(ValidationException)
  {
    AcceptedIffSameIdentityAndKey(Mine, AESObfuscator(Salt, "package2", "device"), Some("test"), "testKey", "notMyKey");
  }

  /**
   * Obfuscating again, by this obfuscator or by a second one built from the same salt,
   * package and device, gives the same token, which the second one reads back as "test".
   */
  lemma ObfuscateSame()
    ensures Mine.Obfuscate(Some("test"), "testKey") == TestToken()
    ensures AESObfuscator(Salt, "package", "device").Obfuscate(Some("test"), "testKey") == TestToken()
    ensures AESObfuscator(Salt, "package", "device").Unobfuscate(TestToken(), "testKey") == Ok(Some("test"))
  {
    ObfuscateDeterministic(Mine, AESObfuscator(Salt, "package", "device"), Some("test"), "testKey");
    UnobfuscateObfuscate(AESObfuscator(Salt, "package", "device"), Some("test"), "testKey");
  }
}

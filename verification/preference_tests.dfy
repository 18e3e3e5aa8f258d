/**
 * The ObfuscatedPreferencesTest scenarios. The fixture stores "Hello world" under
 * "testString" through an obfuscator built from the test salt, the package name and the
 * device id (both parameters here: they come from the Android context).
 */
module PreferenceTests {
  import opened Wrappers
  import opened Obfuscation
  import opened Preferences
  import opened AESObfuscatorTests

  /** The fixture: fresh storage holding one obfuscated value, "Hello world" under "testString". */
  method SetUp(packageName: string, deviceId: string) returns (sp: SharedPreferences, op: PreferenceObfuscator)
    ensures fresh(sp) && fresh(op)
    ensures op.preferences == sp && op.obfuscator == AESObfuscator(Salt, packageName, deviceId)
    ensures op.pending == map[]
    ensures sp.data == map["testString" := op.obfuscator.Obfuscate(Some("Hello world"), "testString")]
  {
    sp := new SharedPreferences();
    op := new PreferenceObfuscator(sp, AESObfuscator(Salt, packageName, deviceId));
    op.PutString("testString", Some("Hello world"));
    op.Commit();
  }

  /** The stored value reads back, not the default "fail". */
  method TestGetString(packageName: string, deviceId: string) returns (r: Option<string>)
    ensures r == Some("Hello world")
  {
    var sp, op := SetUp(packageName, deviceId);
    ReadThroughWritten(op.obfuscator, Some("Hello world"), "testString", Some("fail"));
    r := op.GetString("testString", Some("fail"));
  }

  /** A key never written reads as the default given. */
  method TestGetDefaultString(packageName: string, deviceId: string) returns (r: Option<string>)
    ensures r == Some("Android rocks")
  {
    var sp, op := SetUp(packageName, deviceId);
    r := op.GetString("noExist", Some("Android rocks"));
  }

  /** A key never written reads as a null default. */
  method TestGetDefaultNullString(packageName: string, deviceId: string) returns (r: Option<string>)
    ensures r == None
  {
    var sp, op := SetUp(packageName, deviceId);
    r := op.GetString("noExist", None);
  }

  /**
   * A staged write is read back before `commit`; after `commit` it is in the storage, so a
   * new PreferenceObfuscator over the same storage, with an equal obfuscator, reads it too.
   */
  method ReadYourWritesAndReopen(packageName: string, deviceId: string, key: string, value: Option<string>,
                                 default: Option<string>)
    returns (staged: Option<string>, reopened: Option<string>)
    ensures staged == value
    ensures reopened == value
  {
    var sp, op := SetUp(packageName, deviceId);
    op.PutString(key, value);
    ReadThroughWritten(op.obfuscator, value, key, default);
    staged := op.GetString(key, default);
    op.Commit();
    var again := new PreferenceObfuscator(sp, AESObfuscator(Salt, packageName, deviceId));
    reopened := again.GetString(key, default);
  }

  /**
   * The corrupt-data scenario as written: `stored` is put directly into the storage under
   * "corruptData" and then "corruptdata" (lower-case d) is read. The key read was never
   * written, so the default comes back whatever `stored` is, a valid token included.
   */
  method CorruptDataAsWritten(packageName: string, deviceId: string, stored: string) returns (r: Option<string>)
    ensures r == Some("Android rocks")
  {
    var sp, op := SetUp(packageName, deviceId);
    sp.Commit(map["corruptData" := stored]);
    r := op.GetString("corruptdata", Some("Android rocks"));
  }

  /**
   * The input that shows the scenario as written checks nothing: storing a VALID token for
   * "foo" under "corruptData", the as-written read still gives the default, while a read
   * of the key actually written gives "foo".
   */
  method CorruptDataMissesValidToken(packageName: string, deviceId: string)
    returns (asWritten: Option<string>, sameKey: Option<string>)
    ensures asWritten == Some("Android rocks")
    ensures sameKey == Some("foo")
  {
    var sp, op := SetUp(packageName, deviceId);
    sp.Commit(map["corruptData" := op.obfuscator.Obfuscate(Some("foo"), "corruptData")]);
    ReadThroughWritten(op.obfuscator, Some("foo"), "corruptData", Some("Android rocks"));
    asWritten := op.GetString("corruptdata", Some("Android rocks"));
    sameKey := op.GetString("corruptData", Some("Android rocks"));
  }

  /**
   * The corrupt-data scenario as intended: the non-obfuscated "foo" is put under
   * "corruptData" and the same key is read; the text does not validate, so the default
   * comes back.
   */
  method CorruptDataReturnsDefault(packageName: string, deviceId: string) returns (r: Option<string>)
    ensures r == Some("Android rocks")
  {
    var sp, op := SetUp(packageName, deviceId);
    sp.Commit(map["corruptData" := "foo"]);
    forall p: Option<string> ensures "foo" != op.obfuscator.Obfuscate(p, "corruptData") {
      assert op.obfuscator.Obfuscate(p, "corruptData")[0] == 'T';
    }
    ReadThroughMalformed(op.obfuscator, "foo", "corruptData", Some("Android rocks"));
    r := op.GetString("corruptData", Some("Android rocks"));
  }
}

/**
 * `PreferenceObfuscator`: a string store over unprotected key/value storage in which every
 * value is obfuscated on write, bound to its own key, and validated on read. Writes are
 * staged until `commit`; a read sees staged writes first, then the storage; a value that
 * does not validate reads as the caller's default.
 */
module Preferences {
  import opened Wrappers
  import opened Obfuscation

  /** The backing storage, `SharedPreferences`: plain strings under string keys. */
  class SharedPreferences {
    var data: map<string, string>

    constructor()
      ensures data == map[]
    {
      data := map[];
    }

    /** An editor's `putString` calls followed by `commit`: the writes replace what was stored. */
    method Commit(writes: map<string, string>)
      modifies this
      ensures data == old(data) + writes
    {
      data := data + writes;
    }
  }

  /**
   * `getString`'s reading of the stored text: absent reads as the default, a token this
   * obfuscator made for `key` as its plaintext, anything else as the default.
   */
  function ReadThrough(obfuscator: AESObfuscator, stored: Option<string>, key: string, default: Option<string>): (r: Option<string>)
    ensures stored.None? ==> r == default
    ensures stored.Some? && obfuscator.Unobfuscate(stored.value, key).Err? ==> r == default
    ensures stored.Some? && obfuscator.Unobfuscate(stored.value, key).Ok? ==>
      stored.value == obfuscator.Obfuscate(r, key)
  {
    match stored
    case None => default
    case Some(token) =>
      match obfuscator.Unobfuscate(token, key)
      case Ok(v) => v
      case Err(_) => default
  }

  /** What was written through this obfuscator under `key` reads back, whatever the default. */
  lemma ReadThroughWritten(obfuscator: AESObfuscator, value: Option<string>, key: string, default: Option<string>)
    ensures ReadThrough(obfuscator, Some(obfuscator.Obfuscate(value, key)), key, default) == value
  {
    UnobfuscateObfuscate(obfuscator, value, key);
  }

  /**
   * A value written under another identity, or under another key, reads as the default:
   * foreign or moved data is never returned.
   */
  lemma ReadThroughForeign(writer: AESObfuscator, reader: AESObfuscator, value: Option<string>,
                           writtenKey: string, key: string, default: Option<string>)
    requires writer != reader || writtenKey != key
    ensures ReadThrough(reader, Some(writer.Obfuscate(value, writtenKey)), key, default) == default
  {
    AcceptedIffSameIdentityAndKey(writer, reader, value, writtenKey, key);
  }

  /**
   * A stored text that is not a token this obfuscator makes for `key` (such as one written
   * without obfuscation) reads as the default.
   */
  lemma ReadThroughMalformed(obfuscator: AESObfuscator, stored: string, key: string, default: Option<string>)
    requires forall p :: stored != obfuscator.Obfuscate(p, key)
    ensures ReadThrough(obfuscator, Some(stored), key, default) == default
  {
  }

  class PreferenceObfuscator {
    const preferences: SharedPreferences
    const obfuscator: AESObfuscator
    /** The writes staged since the last commit, already obfuscated. */
    var pending: map<string, string>

    constructor(preferences: SharedPreferences, obfuscator: AESObfuscator)
      ensures this.preferences == preferences && this.obfuscator == obfuscator
      ensures pending == map[]
    {
      this.preferences := preferences;
      this.obfuscator := obfuscator;
      pending := map[];
    }

    /** The text a read of `key` finds: the staged write if any, else the stored one. */
    function StoredText(key: string): Option<string>
      reads this, preferences
    {
      if key in pending then Some(pending[key]) else MapGet(preferences.data, key)
    }

    /** Stages `value`, obfuscated and bound to `key`. */
    method PutString(key: string, value: Option<string>)
      modifies this
      ensures pending == old(pending)[key := obfuscator.Obfuscate(value, key)]
    {
      pending := pending[key := obfuscator.Obfuscate(value, key)];
    }

    /** The value under `key`, or `default` when there is none or it does not validate. */
    function GetString(key: string, default: Option<string>): (r: Option<string>)
      reads this, preferences
      ensures StoredText(key).None? ==> r == default
      ensures StoredText(key).Some? && obfuscator.Unobfuscate(StoredText(key).value, key).Err? ==> r == default
      ensures StoredText(key).Some? && obfuscator.Unobfuscate(StoredText(key).value, key).Ok? ==>
        StoredText(key).value == obfuscator.Obfuscate(r, key)
    {
      ReadThrough(obfuscator, StoredText(key), key, default)
    }

    /** Flushes the staged writes to the storage; with none staged the storage is unchanged. */
    method Commit()
      modifies this, preferences
      ensures preferences.data == old(preferences.data) + old(pending)
      ensures pending == map[]
    {
      preferences.Commit(pending);
      pending := map[];
    }
  }
}

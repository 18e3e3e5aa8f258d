# License Verification Library: policies, response data and obfuscation

This project models the decision core of the Android License Verification Library (LVL).
That core is the part that turns a license server's answer into a yes or no on access.

- **Response data.** `ResponseData.parse` splits the signed response line
  `code|nonce|package|versionCode|userId|timestamp:extras` into its fields. It decodes the
  form-encoded `key=value&...` extras into a map.
- **StrictPolicy.** Allows access exactly when the last response was LICENSED. A
  NOT_LICENSED response records the redirect URL in its `LU` extra. A LICENSED response
  clears it, so a URL is present only after a denial.
- **ServerManagedPolicy.** Keeps the server's validity timestamp (`VT`), retry-until
  timestamp (`GT`) and maximum retry count (`GR`). It allows access before `VT`, or after a
  RETRY before `GT` while retries remain. A denial clears all three. The licensing URL
  follows the same rule as in StrictPolicy.
- **APKExpansionPolicy.** Does what ServerManagedPolicy does. On a grant it also reads the
  expansion files `FILE_URLn`, `FILE_NAMEn` and `FILE_SIZEn` for n = 1, 2, ... up to the
  first missing URL. The getters report an out-of-range index as an error.
- **AESObfuscator.** Binds a stored value to a salt, a package name, a device id and the
  preference key. The binding is modelled as an ideal keyed encoding: a token reads back
  only under the same identity and key, and anything else is a `ValidationException`.
- **PreferenceObfuscator.** Stores obfuscated strings in a `SharedPreferences` map. Writes
  are staged until `commit`. A read returns the caller's default when the key is missing
  or the stored text does not validate.

The model states the behaviour that the library's test suites check, scenario by
scenario. The Java sources of the production classes are not part of this model. Each
test scenario is a lemma or a verified method over the model. The shared
behaviour is stated once in the policy modules, as a state-transition function `Next`
with lemmas about it. The classes' `ProcessServerResponse` methods are proved to follow
`Next`.

The two test trees in the repository disagree on one point.

- In `test/.../APKExpansionPolicyTest.java`, the expansion URLs come back still
  form-encoded.
- In `lvl_sample/.../APKExpansionPolicyTest.java`, they come back decoded.

The model covers both with the flag `decodeFileUrls` on `APKExpansionPolicy`. Every other
extra is decoded in both versions.

Modules:

- `Wrappers`: Option, Result and `MapGet`.
- `Text`: splitting and joining, and Java's `Integer.parseInt` / `Long.parseLong`.
- `FormEncoding`: form encoding and decoding.
- `Response`: `ResponseData`, `Parse`, and the extras.
- `Policy`: the shared timers and the `LU` URL.
- `StrictPolicy`, `ServerManagedPolicy`, `APKExpansionPolicy`: the three policies.
- `Obfuscation`: the obfuscator.
- `Preferences`: `SharedPreferences` and `PreferenceObfuscator`.
- `Samples` and `ExpansionSamples`: the sample server responses.
- One `...Tests` module per test class.

## Model

| member | source | states |
|---|---|---|
| Response.Parse | lvl_sample/src/androidTest/java/com/google/android/vending/licensing/StrictPolicyTest.java:67-70 | A response line with fewer than six bar-separated pieces is a MalformedResponse. Any accepted parse is a valid record: numeric fields in Java `int`/`long` range and no separator inside the leading fields. |
| Response.ParseFields | lvl_sample/src/androidTest/java/com/google/android/vending/licensing/ServerManagedPolicyTest.java:69-72 | Any line built from separator-free fields with parseable numerals parses to exactly those fields. Everything after the first `:` of the last piece is the extra, separators included. |
| Response.ParseFieldsBadNumber | lvl_sample/src/androidTest/java/com/google/android/vending/licensing/StrictPolicyTest.java:67-70 | With the same separator-free fields, a code, nonce or version code that is not a Java `int`, or a timestamp that is not a Java `long`, makes the line a MalformedResponse. |
| Response.ParseFormat | lvl_sample/src/androidTest/java/com/google/android/vending/licensing/StrictPolicyTest.java:67-70 | Round trip: formatting a valid record as a response line and parsing it gives the record back. |
| Response.PairOf | lvl_sample/src/androidTest/java/com/google/android/vending/licensing/ServerManagedPolicyTest.java:69-70 | A piece of the extras without `=` is skipped. Otherwise it splits at its first `=` into a key without `=` and a value, which rejoin to the piece. |
| Response.ExtrasOfJoinPairs | lvl_sample/src/androidTest/java/com/google/android/vending/licensing/ServerManagedPolicyTest.java:129-137 | The extras map of `k1=v1&k2=v2&...` is the map of the decoded pairs, the later duplicate winning. |
| Response.ExtrasLookup | lvl_sample/src/androidTest/java/com/google/android/vending/licensing/ServerManagedPolicyTest.java:69-75 | A key present in the extras maps to the decoded value of its last occurrence. |
| Response.ExtrasAbsent | lvl_sample/src/androidTest/java/com/google/android/vending/licensing/APKExpansionPolicyTest.java:83 | A key that no pair decodes to is absent from the extras, as the missing `FILE_URL3` that ends the file count of the sample grant is. |
| Response.ExtrasOfFormat | lvl_sample/src/androidTest/java/com/google/android/vending/licensing/APKExpansionPolicyTest.java:143-151 | Round trip: encoding arbitrary key/value pairs and parsing them as extras yields exactly their map, so `&`, `=` and spaces inside values survive. |
| Response.ExtrasMap | lvl_sample/src/androidTest/java/com/google/android/vending/licensing/ServerManagedPolicyTest.java:129-137 | The extras map has at most one entry per `&`-separated piece of the text. |
| Response.ExtrasKeysWritten | lvl_sample/src/androidTest/java/com/google/android/vending/licensing/ServerManagedPolicyTest.java:129-137 | Every key of the extras map is the decoding of a key written in some `key=value` piece of the text. No key appears from anywhere else. |
| Response.Extras | lvl_sample/src/androidTest/java/com/google/android/vending/licensing/StrictPolicyTest.java:67-75 | A response's decoded extras have at most one entry per `&`-separated piece of its extras text. |
| FormEncoding.EncodeChar | lvl_sample/src/androidTest/java/com/google/android/vending/licensing/ServerManagedPolicyTest.java:131-132 | Each character's encoding decodes back to that character and never contains `&` or `=`. |
| FormEncoding.DecodeEncode | lvl_sample/src/androidTest/java/com/google/android/vending/licensing/ServerManagedPolicyTest.java:130-132 | Round trip: form-decoding the form-encoding of any text gives that text. |
| FormEncoding.EncodeHasNoSeparators | lvl_sample/src/androidTest/java/com/google/android/vending/licensing/ServerManagedPolicyTest.java:130-132 | An encoded value never contains the pair separators, so it cannot split a pair. |
| FormEncoding.EncodeAppend | lvl_sample/src/androidTest/java/com/google/android/vending/licensing/ServerManagedPolicyTest.java:130-132 | Encoding distributes over concatenation. |
| FormEncoding.DecodeEscapePrefix | lvl_sample/src/androidTest/java/com/google/android/vending/licensing/StrictPolicyTest.java:69-75 | A `%xy` escape at the front decodes to the one character with code 0xxy, whatever follows. |
| FormEncoding.DecodePlain | lvl_sample/src/androidTest/java/com/google/android/vending/licensing/APKExpansionPolicyTest.java:75 | Text without `%` or `+` is its own decoding. |
| FormEncoding.Decode | lvl_sample/src/androidTest/java/com/google/android/vending/licensing/ServerManagedPolicyTest.java:131-132 | Form-decoding never makes a text longer. |
| Text.SplitFirst | lvl_sample/src/androidTest/java/com/google/android/vending/licensing/StrictPolicyTest.java:68 | Splitting at the first delimiter gives a delimiter-free head. The tail is absent exactly when there is no delimiter, and head, delimiter and tail rejoin to the input. |
| Text.SplitFirstOfJoin | lvl_sample/src/androidTest/java/com/google/android/vending/licensing/StrictPolicyTest.java:68 | A delimiter-free head joined to any tail splits back into that head and tail. |
| Text.Split | lvl_sample/src/androidTest/java/com/google/android/vending/licensing/ServerManagedPolicyTest.java:70 | `split` gives at least one delimiter-free piece, and the pieces rejoin to the input. |
| Text.SplitOfJoin | lvl_sample/src/androidTest/java/com/google/android/vending/licensing/ServerManagedPolicyTest.java:70 | Round trip: joining delimiter-free pieces and splitting gives the pieces back. |
| Text.SplitPrefix | lvl_sample/src/androidTest/java/com/google/android/vending/licensing/StrictPolicyTest.java:67-68 | A split limited to n splits gives n delimiter-free pieces plus an unsplit remainder, which rejoin to the input. |
| Text.SplitPrefixNone | lvl_sample/src/androidTest/java/com/google/android/vending/licensing/StrictPolicyTest.java:67-68 | The limited split fails exactly when the input has too few delimiters. |
| Text.SplitPrefixOfJoin | lvl_sample/src/androidTest/java/com/google/android/vending/licensing/StrictPolicyTest.java:67-68 | Round trip for the limited split: separator-free leading pieces come back, with the last piece kept whole even if it contains the delimiter. |
| Text.NatToStringOfValue | lvl_sample/src/androidTest/java/com/google/android/vending/licensing/ServerManagedPolicyTest.java:73-75 | A canonical numeral (no sign, no leading zero) is the decimal text of its own value. |
| Text.NatToStringInjective | lvl_sample/src/androidTest/java/com/google/android/vending/licensing/APKExpansionPolicyTest.java:74-77 | Distinct numbers have distinct decimal texts. |
| Text.ParseSigned | lvl_sample/src/androidTest/java/com/google/android/vending/licensing/ServerManagedPolicyTest.java:73-75 | A successful `parseInt`/`parseLong` lies in the type's range and starts with a digit or a sign followed by more text. |
| Text.ParseOfToString | lvl_sample/src/androidTest/java/com/google/android/vending/licensing/ServerManagedPolicyTest.java:73-75 | Round trip: the decimal text of any in-range number parses back to that number. |
| Text.ToStringOfParse | lvl_sample/src/androidTest/java/com/google/android/vending/licensing/ServerManagedPolicyTest.java:73-75 | Round trip: a canonical numeral that parses is the text of its value. |
| Policy.LongExtra | lvl_sample/src/androidTest/java/com/google/android/vending/licensing/ServerManagedPolicyTest.java:73-75 | A numeric extra is a Java `long`. A missing or unparseable extra reads as 0, and a parseable one reads as its value. |
| Policy.LongExtraOfNumeral | lvl_sample/src/androidTest/java/com/google/android/vending/licensing/ServerManagedPolicyTest.java:73-75 | An extra holding the numeral of an in-range number reads as that number. |
| Policy.NextTimers | lvl_sample/src/androidTest/java/com/google/android/vending/licensing/ServerManagedPolicyTest.java:82-96 | After a grant or a denial every timer fits a Java `long`. A retry keeps timers that fit. |
| Policy.NextLicensingUrl | lvl_sample/src/androidTest/java/com/google/android/vending/licensing/ServerManagedPolicyTest.java:103-117 | A grant leaves no URL. A URL present after a response is the `LU` extra of a denial, or the earlier URL kept by a retry. |
| Policy.UrlOnlyAfterDenial | lvl_sample/src/androidTest/java/com/google/android/vending/licensing/ServerManagedPolicyTest.java:103-117 | Over any run of responses from a fresh policy, a URL is present only when some denial carried it and only retries came after that denial. |
| Policy.UrlAfterDenial | lvl_sample/src/androidTest/java/com/google/android/vending/licensing/ServerManagedPolicyTest.java:113-116 | Conversely, a denial carrying a URL followed only by retries leaves that URL, whatever came before. |
| Policy.AllowsAccess | lvl_sample/src/androidTest/java/com/google/android/vending/licensing/ServerManagedPolicyTest.java:123-125 | Outside a retry, and whenever no retries remain, access is allowed exactly before `VT`. Access is never allowed once both `VT` and `GT` have passed. |
| Policy.TimersChangeTogether | lvl_sample/src/androidTest/java/com/google/android/vending/licensing/ServerManagedPolicyTest.java:82-96 | `VT`, `GT` and `GR` change together: all kept, all cleared, or all read from the same response. |
| Policy.DenialDenies | lvl_sample/src/androidTest/java/com/google/android/vending/licensing/ServerManagedPolicyTest.java:93-96 | After a denial, access is refused at every non-negative time, whatever extras the denial carried. |
| Policy.GrantAllowsUntilValidity | lvl_sample/src/androidTest/java/com/google/android/vending/licensing/ServerManagedPolicyTest.java:71-75 | After a grant, access is allowed exactly before the granted `VT`. |
| Policy.OnlyPolicyExtrasMatter | lvl_sample/src/androidTest/java/com/google/android/vending/licensing/ServerManagedPolicyTest.java:129-138 | Two responses that agree on `VT`, `GT`, `GR` and `LU` lead to the same timers and URL. Unknown extras are ignored. |
| StrictPolicy.AllowsOnlyAfterGrant | lvl_sample/src/androidTest/java/com/google/android/vending/licensing/StrictPolicyTest.java:52-57 | Access is allowed after a response exactly when that response is LICENSED, whatever the history. |
| StrictPolicy.Next | lvl_sample/src/androidTest/java/com/google/android/vending/licensing/StrictPolicyTest.java:52-76 | The new state records the response. It always satisfies the invariant: no licensing URL right after a grant. |
| StrictPolicy.UrlOnlyFromDenial | lvl_sample/src/androidTest/java/com/google/android/vending/licensing/StrictPolicyTest.java:64-76 | A denial sets the licensing URL to its `LU` extra, or null without one. A grant clears the URL and a retry keeps it. |
| StrictPolicy.StrictPolicy.constructor | lvl_sample/src/androidTest/java/com/google/android/vending/licensing/StrictPolicyTest.java:42-44 | A new policy has no response yet (treated as RETRY) and no licensing URL. |
| StrictPolicy.StrictPolicy.ProcessServerResponse | lvl_sample/src/androidTest/java/com/google/android/vending/licensing/StrictPolicyTest.java:54 | The new state is the transition function applied to the old state and the response. |
| StrictPolicy.StrictPolicy.AllowAccess | lvl_sample/src/androidTest/java/com/google/android/vending/licensing/StrictPolicyTest.java:52-57 | Allowed exactly when the last response was LICENSED. |
| StrictPolicy.StrictPolicy.GetLicensingUrl | lvl_sample/src/androidTest/java/com/google/android/vending/licensing/StrictPolicyTest.java:73-75 | Reports the state's URL. A URL is never reported while access is allowed. |
| ServerManagedPolicy.FreshDenies | lvl_sample/src/androidTest/java/com/google/android/vending/licensing/ServerManagedPolicyTest.java:123-126 | A new policy refuses access, and so does one whose only response was a RETRY, at any non-negative time. |
| ServerManagedPolicy.Next | lvl_sample/src/androidTest/java/com/google/android/vending/licensing/ServerManagedPolicyTest.java:67-117 | The new state records the response. After a grant or a denial, and after any response to a state that satisfies it, the invariant holds: the timers are Java `long`s and no URL follows a grant. |
| ServerManagedPolicy.DenialClears | lvl_sample/src/androidTest/java/com/google/android/vending/licensing/ServerManagedPolicyTest.java:92-96 | A denial, with or without data, clears all three timers and refuses access. |
| ServerManagedPolicy.GrantReadsTimers | lvl_sample/src/androidTest/java/com/google/android/vending/licensing/ServerManagedPolicyTest.java:71-75 | A grant sets the timers from its `VT`/`GT`/`GR` extras and clears the licensing URL. |
| ServerManagedPolicy.RetryKeeps | lvl_sample/src/androidTest/java/com/google/android/vending/licensing/ServerManagedPolicyTest.java:124 | A RETRY changes only the last response. Timers and URL are kept. |
| ServerManagedPolicy.ServerManagedPolicy.constructor | lvl_sample/src/androidTest/java/com/google/android/vending/licensing/ServerManagedPolicyTest.java:59-60 | A new policy starts from RETRY, cleared timers and no URL. |
| ServerManagedPolicy.ServerManagedPolicy.ProcessServerResponse | lvl_sample/src/androidTest/java/com/google/android/vending/licensing/ServerManagedPolicyTest.java:71-72 | The new state is the transition function applied to the old state and the response. |
| ServerManagedPolicy.ServerManagedPolicy.AllowAccess | lvl_sample/src/androidTest/java/com/google/android/vending/licensing/ServerManagedPolicyTest.java:123-125 | Agrees with the policy's decision on the state. Outside a retry only `VT` decides, and access is never allowed once both `VT` and `GT` have passed. |
| ServerManagedPolicy.ServerManagedPolicy.GetValidityTimestamp | lvl_sample/src/androidTest/java/com/google/android/vending/licensing/ServerManagedPolicyTest.java:73 | The state's `VT`, a Java `long`. |
| ServerManagedPolicy.ServerManagedPolicy.GetRetryUntil | lvl_sample/src/androidTest/java/com/google/android/vending/licensing/ServerManagedPolicyTest.java:74 | The state's `GT`, a Java `long`. |
| ServerManagedPolicy.ServerManagedPolicy.GetMaxRetries | lvl_sample/src/androidTest/java/com/google/android/vending/licensing/ServerManagedPolicyTest.java:75 | The state's `GR`, a Java `long`. |
| ServerManagedPolicy.ServerManagedPolicy.GetLicensingUrl | lvl_sample/src/androidTest/java/com/google/android/vending/licensing/ServerManagedPolicyTest.java:110-116 | The state's URL, never present right after a grant. |
| APKExpansionPolicy.FileUrlKeyInjective | lvl_sample/src/androidTest/java/com/google/android/vending/licensing/APKExpansionPolicyTest.java:74-76 | `FILE_URLm` and `FILE_URLn` are the same key only when m = n. |
| APKExpansionPolicy.FileCount | lvl_sample/src/androidTest/java/com/google/android/vending/licensing/APKExpansionPolicyTest.java:83 | Counting from index n gives at least n - 1, and counts file n only when `FILE_URLn` is present. |
| APKExpansionPolicy.FileCountStopsAtFirstGap | lvl_sample/src/androidTest/java/com/google/android/vending/licensing/APKExpansionPolicyTest.java:74-83 | The file count c is such that `FILE_URL1` through `FILE_URLc` are present and `FILE_URL(c+1)` is absent. |
| APKExpansionPolicy.FileCountIs | lvl_sample/src/androidTest/java/com/google/android/vending/licensing/APKExpansionPolicyTest.java:83 | Conversely, when `FILE_URL1..c` are present and `FILE_URL(c+1)` is absent, the count is c. |
| APKExpansionPolicy.UrlKeysBound | lvl_sample/src/androidTest/java/com/google/android/vending/licensing/APKExpansionPolicyTest.java:83 | The consecutive URL keys cannot outnumber the extras, so the scan ends. |
| APKExpansionPolicy.FilesOf | lvl_sample/src/androidTest/java/com/google/android/vending/licensing/APKExpansionPolicyTest.java:83-91 | There are as many URLs, names and sizes as the file count. |
| APKExpansionPolicy.FilesUpToSnoc | lvl_sample/src/androidTest/java/com/google/android/vending/licensing/APKExpansionPolicyTest.java:84-91 | File n+1 appends its URL, name and size at index n of the three lists, leaving the earlier files unchanged. |
| APKExpansionPolicy.ReadFiles | lvl_sample/src/androidTest/java/com/google/android/vending/licensing/APKExpansionPolicyTest.java:83-91 | The loop over n = 1, 2, ... while `FILE_URLn` exists collects exactly the specified files. |
| APKExpansionPolicy.FreshDenies | lvl_sample/src/androidTest/java/com/google/android/vending/licensing/APKExpansionPolicyTest.java:137-140 | A new policy, or one whose only response was a RETRY with or without data, refuses access. |
| APKExpansionPolicy.Next | lvl_sample/src/androidTest/java/com/google/android/vending/licensing/APKExpansionPolicyTest.java:78-131 | The new state records the response. After a grant, and after any response to a state that satisfies it, the invariant holds: long timers, no URL after a grant, and one URL, name and `long` size per file. |
| APKExpansionPolicy.DenialClearsTimersKeepsFiles | lvl_sample/src/androidTest/java/com/google/android/vending/licensing/APKExpansionPolicyTest.java:108-112 | A denial clears the timers, refuses access and leaves the expansion files as they were. |
| APKExpansionPolicy.GrantReplacesFiles | lvl_sample/src/androidTest/java/com/google/android/vending/licensing/APKExpansionPolicyTest.java:78-91 | After a grant the files depend only on that grant, not on earlier state, and the licensing URL is cleared. |
| APKExpansionPolicy.APKExpansionPolicy.constructor | lvl_sample/src/androidTest/java/com/google/android/vending/licensing/APKExpansionPolicyTest.java:58-59 | A new policy starts from RETRY, cleared timers, no URL and no files. |
| APKExpansionPolicy.APKExpansionPolicy.ProcessServerResponse | lvl_sample/src/androidTest/java/com/google/android/vending/licensing/APKExpansionPolicyTest.java:78-79 | The new state, files included, is the transition function applied to the old state and the response. |
| APKExpansionPolicy.APKExpansionPolicy.AllowAccess | lvl_sample/src/androidTest/java/com/google/android/vending/licensing/APKExpansionPolicyTest.java:137-140 | Agrees with the policy's decision on the state. Outside a retry only `VT` decides, and access is never allowed once both `VT` and `GT` have passed. |
| APKExpansionPolicy.APKExpansionPolicy.GetValidityTimestamp | lvl_sample/src/androidTest/java/com/google/android/vending/licensing/APKExpansionPolicyTest.java:80 | The state's `VT`, a Java `long`. |
| APKExpansionPolicy.APKExpansionPolicy.GetRetryUntil | lvl_sample/src/androidTest/java/com/google/android/vending/licensing/APKExpansionPolicyTest.java:81 | The state's `GT`, a Java `long`. |
| APKExpansionPolicy.APKExpansionPolicy.GetMaxRetries | lvl_sample/src/androidTest/java/com/google/android/vending/licensing/APKExpansionPolicyTest.java:82 | The state's `GR`, a Java `long`. |
| APKExpansionPolicy.APKExpansionPolicy.GetLicensingUrl | lvl_sample/src/androidTest/java/com/google/android/vending/licensing/APKExpansionPolicyTest.java:124-130 | The state's URL, never present right after a grant. |
| APKExpansionPolicy.APKExpansionPolicy.GetExpansionURLCount | lvl_sample/src/androidTest/java/com/google/android/vending/licensing/APKExpansionPolicyTest.java:83 | The number of files. It is also the number of names and of sizes, so every index below it is valid for all three getters. |
| APKExpansionPolicy.APKExpansionPolicy.GetExpansionURL | lvl_sample/src/androidTest/java/com/google/android/vending/licensing/APKExpansionPolicyTest.java:86-87 | Succeeds exactly for an index in range, with that file's URL. Otherwise it is IndexOutOfRange. |
| APKExpansionPolicy.APKExpansionPolicy.GetExpansionFileName | lvl_sample/src/androidTest/java/com/google/android/vending/licensing/APKExpansionPolicyTest.java:84 | Succeeds exactly for an index in range, with that file's name. Otherwise it is IndexOutOfRange. |
| APKExpansionPolicy.APKExpansionPolicy.GetExpansionFileSize | lvl_sample/src/androidTest/java/com/google/android/vending/licensing/APKExpansionPolicyTest.java:85 | Succeeds exactly for an index in range, with that file's size. Otherwise it is IndexOutOfRange. |
| Obfuscation.DecomposeCompose | lvl_sample/src/androidTest/java/com/google/android/vending/licensing/AESObfuscatorTest.java:144-148 | Every token's parts read back. |
| Obfuscation.ComposeDecompose | lvl_sample/src/androidTest/java/com/google/android/vending/licensing/AESObfuscatorTest.java:62-69 | A text that reads as a token is the token of what it reads as, so no two readings exist. |
| Obfuscation.ReadBody | lvl_sample/src/androidTest/java/com/google/android/vending/licensing/AESObfuscatorTest.java:55 | A body that reads back is the body of what it reads as. |
| Obfuscation.ReadBodyOfBody | lvl_sample/src/androidTest/java/com/google/android/vending/licensing/AESObfuscatorTest.java:55-59 | The body of null and of any text reads back. |
| Obfuscation.SaltText | lvl_sample/src/androidTest/java/com/google/android/vending/licensing/AESObfuscatorTest.java:40-42 | Each salt byte maps one-to-one to a character code. |
| Obfuscation.SaltTextInjective | lvl_sample/src/androidTest/java/com/google/android/vending/licensing/AESObfuscatorTest.java:72-80 | Distinct salts give distinct salt texts. |
| Obfuscation.AESObfuscator.Unobfuscate | lvl_sample/src/androidTest/java/com/google/android/vending/licensing/AESObfuscatorTest.java:62-69 | Whatever is accepted is exactly the token this identity makes for that plaintext and key. |
| Obfuscation.AESObfuscator.Obfuscate | lvl_sample/src/androidTest/java/com/google/android/vending/licensing/AESObfuscatorTest.java:144-148 | The token reads back as exactly this salt, package name, device id, key and the plaintext's body. |
| Obfuscation.UnobfuscateObfuscate | lvl_sample/src/androidTest/java/com/google/android/vending/licensing/AESObfuscatorTest.java:144-148 | Round trip: any plaintext, null included, comes back under the identity and key it was obfuscated with. |
| Obfuscation.AcceptedIffSameIdentityAndKey | lvl_sample/src/androidTest/java/com/google/android/vending/licensing/AESObfuscatorTest.java:101-132 | A token is accepted if and only if the salt, package, device and key all match. When accepted, the result is the original plaintext. |
| Obfuscation.ObfuscateDeterministic | lvl_sample/src/androidTest/java/com/google/android/vending/licensing/AESObfuscatorTest.java:134-140 | Obfuscators built from equal salt, package and device make equal tokens. |
| Preferences.SharedPreferences.Commit | lvl_sample/src/androidTest/java/com/google/android/vending/licensing/ObfuscatedPreferencesTest.java:79-81 | Committed writes replace the stored values under their keys. Other keys keep theirs. |
| Preferences.ReadThrough | lvl_sample/src/androidTest/java/com/google/android/vending/licensing/ObfuscatedPreferencesTest.java:65-75 | Three cases: an absent value reads as the default, a value that fails validation reads as the default, and a validated value is the plaintext whose token was stored. |
| Preferences.ReadThroughWritten | lvl_sample/src/androidTest/java/com/google/android/vending/licensing/ObfuscatedPreferencesTest.java:65-67 | A value written through the obfuscator under a key reads back under that key, whatever the default. |
| Preferences.ReadThroughForeign | lvl_sample/src/androidTest/java/com/google/android/vending/licensing/ObfuscatedPreferencesTest.java:47-51 | A value written under another identity or another key reads as the default. |
| Preferences.ReadThroughMalformed | lvl_sample/src/androidTest/java/com/google/android/vending/licensing/ObfuscatedPreferencesTest.java:79-84 | Stored text that this obfuscator would not produce for that key from any plaintext, such as a plain string, reads as the default. |
| Preferences.PreferenceObfuscator.constructor | lvl_sample/src/androidTest/java/com/google/android/vending/licensing/ObfuscatedPreferencesTest.java:51 | Wraps the given storage and obfuscator with no staged writes. |
| Preferences.PreferenceObfuscator.PutString | lvl_sample/src/androidTest/java/com/google/android/vending/licensing/ObfuscatedPreferencesTest.java:54 | Stages the value's token, bound to its key, replacing any staged write under that key. |
| Preferences.PreferenceObfuscator.GetString | lvl_sample/src/androidTest/java/com/google/android/vending/licensing/ObfuscatedPreferencesTest.java:65-75 | Reads the staged write or else the stored text. Missing or invalid text gives the default; valid text gives the plaintext of the token stored under that key. |
| Preferences.PreferenceObfuscator.Commit | lvl_sample/src/androidTest/java/com/google/android/vending/licensing/ObfuscatedPreferencesTest.java:55 | Moves every staged write into the storage and empties the staging area. |
| Samples.ParseSample | lvl_sample/src/androidTest/java/com/google/android/vending/licensing/ServerManagedPolicyTest.java:69-72 | The sample line, with any extras text, parses to code 0, nonce 1579380448, the sample package, version 1, the sample user id, timestamp 1279578835423 and that extras text. |
| Samples.GrantTimers | lvl_sample/src/androidTest/java/com/google/android/vending/licensing/ServerManagedPolicyTest.java:69-75 | `VT=11&GT=22&GR=33` reads as timers 11, 22, 33. |
| Samples.SmallGrantTimers | lvl_sample/src/androidTest/java/com/google/android/vending/licensing/ServerManagedPolicyTest.java:83-90 | `VT=1&GT=2&GR=3` reads as timers 1, 2, 3. |
| Samples.DecodeHello | lvl_sample/src/androidTest/java/com/google/android/vending/licensing/ServerManagedPolicyTest.java:131-132 | `hello%20world%20%26%20friends` decodes to `hello world & friends`. |
| Samples.EncodedTimers | lvl_sample/src/androidTest/java/com/google/android/vending/licensing/ServerManagedPolicyTest.java:130-137 | The timers still read 1, 2, 3 with the encoded `test` extra between them. |
| Samples.EncodedText | lvl_sample/src/androidTest/java/com/google/android/vending/licensing/ServerManagedPolicyTest.java:130-132 | The `test` extra reads as its decoded text, and there is no `LU`. |
| Samples.DecodeLicensingUrl | lvl_sample/src/androidTest/java/com/google/android/vending/licensing/StrictPolicyTest.java:69-75 | The encoded `LU` value decodes to the store URL of the package. |
| Samples.LicensingExtras | lvl_sample/src/androidTest/java/com/google/android/vending/licensing/StrictPolicyTest.java:67-75 | The sample denial carries the decoded store URL as `LU` and no timers. |
| ExpansionSamples.DecodeFileUrl | lvl_sample/src/androidTest/java/com/google/android/vending/licensing/APKExpansionPolicyTest.java:86-87 | An encoded download URL decodes to the URL with `=` and `&` restored. |
| ExpansionSamples.ExpansionUrls | lvl_sample/src/androidTest/java/com/google/android/vending/licensing/APKExpansionPolicyTest.java:74-77 | In the two-file grant, `FILE_URL1` and `FILE_URL2` hold the URLs (decoded or as sent), and there is no `FILE_URL3`. |
| ExpansionSamples.ExpansionNamesAndSizes | lvl_sample/src/androidTest/java/com/google/android/vending/licensing/APKExpansionPolicyTest.java:75-77 | The name and size extras of both files hold their decoded values. |
| ExpansionSamples.ExpansionTimers | lvl_sample/src/androidTest/java/com/google/android/vending/licensing/APKExpansionPolicyTest.java:73 | The two-file grant carries timers 11, 22, 33. |
| ExpansionSamples.ExpansionFileCount | lvl_sample/src/androidTest/java/com/google/android/vending/licensing/APKExpansionPolicyTest.java:83 | The two-file grant has exactly two files. |
| ExpansionSamples.FileCountTwo | lvl_sample/src/androidTest/java/com/google/android/vending/licensing/APKExpansionPolicyTest.java:83 | Extras with URLs 1 and 2 but not 3 describe exactly two files. |
| ExpansionSamples.FilesOfTwo | lvl_sample/src/androidTest/java/com/google/android/vending/licensing/APKExpansionPolicyTest.java:84-91 | With two files, the lists are exactly files 1 and 2 in order. |
| ExpansionSamples.ExpansionFilesRead | lvl_sample/src/androidTest/java/com/google/android/vending/licensing/APKExpansionPolicyTest.java:83-91 | The two-file grant yields the two URLs, names and sizes in order. |
| ExpansionSamples.SizeNumerals | lvl_sample/src/androidTest/java/com/google/android/vending/licensing/APKExpansionPolicyTest.java:85-89 | The sizes read as 687801613 and 204233. |
| StrictPolicyTests.InitialResponse | lvl_sample/src/androidTest/java/com/google/android/vending/licensing/StrictPolicyTest.java:41-45 | A new policy refuses access. |
| StrictPolicyTests.LicensedResponse | lvl_sample/src/androidTest/java/com/google/android/vending/licensing/StrictPolicyTest.java:52-57 | After LICENSED with no data, access is allowed. |
| StrictPolicyTests.NotLicensedResponse | lvl_sample/src/androidTest/java/com/google/android/vending/licensing/StrictPolicyTest.java:64-76 | After NOT_LICENSED with the sample response, access is refused and the licensing URL is the decoded store URL. |
| StrictPolicyTests.RetryResponse | lvl_sample/src/androidTest/java/com/google/android/vending/licensing/StrictPolicyTest.java:83-88 | After RETRY, access is refused. |
| StrictPolicyTests.NotLicensedWithoutData | test/src/com/android/vending/licensing/StrictPolicyTest.java:53-58 | After NOT_LICENSED with no data, access is refused and there is no licensing URL. |
| ServerManagedPolicyTests.ExtraDataParsed | lvl_sample/src/androidTest/java/com/google/android/vending/licensing/ServerManagedPolicyTest.java:67-76 | A grant with `VT=11&GT=22&GR=33` gives the getters 11, 22 and 33. |
| ServerManagedPolicyTests.RetryCountsCleared | lvl_sample/src/androidTest/java/com/google/android/vending/licensing/ServerManagedPolicyTest.java:82-97 | After a grant all three timers are non-zero. A data-less denial then zeroes all three. |
| ServerManagedPolicyTests.LicensingUrlExtraParsed | lvl_sample/src/androidTest/java/com/google/android/vending/licensing/ServerManagedPolicyTest.java:103-117 | A grant carrying `LU` leaves the URL null. A denial carrying it sets the decoded store URL. |
| ServerManagedPolicyTests.NoFailureOnNullResponseData | lvl_sample/src/androidTest/java/com/google/android/vending/licensing/ServerManagedPolicyTest.java:123-126 | RETRY with no data is handled and access is refused. |
| ServerManagedPolicyTests.NoFailureOnAdditionalEncodedExtras | lvl_sample/src/androidTest/java/com/google/android/vending/licensing/ServerManagedPolicyTest.java:129-138 | An extra encoded `&` between the timers does not disturb them: 1, 2, 3. |
| APKExpansionPolicyTests.GrantState | lvl_sample/src/androidTest/java/com/google/android/vending/licensing/APKExpansionPolicyTest.java:72-91 | A fresh policy given any two-file grant holds timers 11, 22, 33, the two URLs (decoded or as sent), both names and both sizes. |
| APKExpansionPolicyTests.SampleGrantDecoded | lvl_sample/src/androidTest/java/com/google/android/vending/licensing/APKExpansionPolicyTest.java:78-91 | The sample grant, read with URL decoding, holds the timers and the two files with decoded URLs. |
| APKExpansionPolicyTests.SampleGrantUndecoded | test/src/com/android/vending/licensing/APKExpansionPolicyTest.java:62-75 | The sample grant, read without URL decoding, holds the two files with the URLs as sent. |
| APKExpansionPolicyTests.ExtraDataParsed | lvl_sample/src/androidTest/java/com/google/android/vending/licensing/APKExpansionPolicyTest.java:66-92 | Through the class: timers 11, 22, 33, two files, the main and patch names and sizes, and the decoded URLs. |
| APKExpansionPolicyTests.ExtraDataParsedUndecoded | test/src/com/android/vending/licensing/APKExpansionPolicyTest.java:55-76 | Through the class without URL decoding: the same, with the URLs still encoded. |
| APKExpansionPolicyTests.SmallGrantState | lvl_sample/src/androidTest/java/com/google/android/vending/licensing/APKExpansionPolicyTest.java:99-106 | A timers-only grant gives timers 1, 2, 3 and no files. |
| APKExpansionPolicyTests.RetryCountsCleared | lvl_sample/src/androidTest/java/com/google/android/vending/licensing/APKExpansionPolicyTest.java:98-113 | After a grant the timers are non-zero. A denial carrying the same response zeroes them. |
| APKExpansionPolicyTests.RetryCountsClearedWithoutData | test/src/com/android/vending/licensing/APKExpansionPolicyTest.java:81-96 | The same, with the denial carrying no data. |
| APKExpansionPolicyTests.LicensingUrlExtraParsed | lvl_sample/src/androidTest/java/com/google/android/vending/licensing/APKExpansionPolicyTest.java:119-131 | A grant carrying `LU` leaves the URL null. A denial sets the decoded store URL. |
| APKExpansionPolicyTests.NoFailureOnNullResponseData | lvl_sample/src/androidTest/java/com/google/android/vending/licensing/APKExpansionPolicyTest.java:137-140 | RETRY with no data is handled and access is refused, in both versions. |
| APKExpansionPolicyTests.NoFailureOnAdditionalEncodedExtras | lvl_sample/src/androidTest/java/com/google/android/vending/licensing/APKExpansionPolicyTest.java:143-152 | The encoded extra between the timers leaves them at 1, 2, 3, in both versions. |
| AESObfuscatorTests.Invertible | lvl_sample/src/androidTest/java/com/google/android/vending/licensing/AESObfuscatorTest.java:144-148 | Any text or null, obfuscated under the key `original + "Key"` (Java string concatenation, so null gives `"nullKey"`), reads back under that key. |
| AESObfuscatorTests.ObfuscateUnobfuscate | lvl_sample/src/androidTest/java/com/google/android/vending/licensing/AESObfuscatorTest.java:53-60 | null, the empty text and the mixed-character text all survive the round trip. |
| AESObfuscatorTests.UnobfuscateInvalid | lvl_sample/src/androidTest/java/com/google/android/vending/licensing/AESObfuscatorTest.java:62-69 | `"invalid"` is rejected with ValidationException. |
| AESObfuscatorTests.UnobfuscateDifferentSalt | lvl_sample/src/androidTest/java/com/google/android/vending/licensing/AESObfuscatorTest.java:71-80 | The obfuscator with salt `{1}` rejects the token. |
| AESObfuscatorTests.UnobfuscateAvoidBadPaddingAll | lvl_sample/src/androidTest/java/com/google/android/vending/licensing/AESObfuscatorTest.java:82-99 | For every length below 255, the salt-`{1}` obfuscator rejects the token of that many zeros with ValidationException. |
| AESObfuscatorTests.UnobfuscateAvoidBadPadding | lvl_sample/src/androidTest/java/com/google/android/vending/licensing/AESObfuscatorTest.java:86-98 | The loop over the 255 lengths sees all 255 rejected. |
| AESObfuscatorTests.UnobfuscateDifferentDevice | lvl_sample/src/androidTest/java/com/google/android/vending/licensing/AESObfuscatorTest.java:101-110 | The obfuscator for `device2` rejects the token. |
| AESObfuscatorTests.UnobfuscateDifferentPackage | lvl_sample/src/androidTest/java/com/google/android/vending/licensing/AESObfuscatorTest.java:112-121 | The obfuscator for `package2` rejects the token. |
| AESObfuscatorTests.UnobfuscateDifferentKey | lvl_sample/src/androidTest/java/com/google/android/vending/licensing/AESObfuscatorTest.java:123-132 | The `package2` obfuscator asking with key `notMyKey` is rejected. |
| AESObfuscatorTests.ObfuscateSame | lvl_sample/src/androidTest/java/com/google/android/vending/licensing/AESObfuscatorTest.java:134-142 | Obfuscating again, by the same or an equal obfuscator, gives the same token, and the equal one reads it back as `test`. |
| AESObfuscatorTests.Zeros | lvl_sample/src/androidTest/java/com/google/android/vending/licensing/AESObfuscatorTest.java:87-89 | A run of `'0'` of exactly the requested length. |
| PreferenceTests.SetUp | lvl_sample/src/androidTest/java/com/google/android/vending/licensing/ObfuscatedPreferencesTest.java:40-56 | After put and commit, the storage holds exactly the token of `Hello world` under `testString`, with nothing staged. |
| PreferenceTests.TestGetString | lvl_sample/src/androidTest/java/com/google/android/vending/licensing/ObfuscatedPreferencesTest.java:65-67 | `testString` reads `Hello world`, not the default. |
| PreferenceTests.TestGetDefaultString | lvl_sample/src/androidTest/java/com/google/android/vending/licensing/ObfuscatedPreferencesTest.java:69-71 | A missing key reads as the default `Android rocks`. |
| PreferenceTests.TestGetDefaultNullString | lvl_sample/src/androidTest/java/com/google/android/vending/licensing/ObfuscatedPreferencesTest.java:73-75 | A missing key reads as a null default. |
| PreferenceTests.ReadYourWritesAndReopen | lvl_sample/src/androidTest/java/com/google/android/vending/licensing/ObfuscatedPreferencesTest.java:50-55 | A value put under a key reads back before any commit. After the commit, a new PreferenceObfuscator over the same storage and an equal obfuscator reads it back too. |
| PreferenceTests.CorruptDataAsWritten | lvl_sample/src/androidTest/java/com/google/android/vending/licensing/ObfuscatedPreferencesTest.java:77-85 | As written (write `corruptData`, read `corruptdata`): the default comes back whatever was stored. |
| PreferenceTests.CorruptDataMissesValidToken | lvl_sample/src/androidTest/java/com/google/android/vending/licensing/ObfuscatedPreferencesTest.java:80-84 | With a valid token for `foo` stored under `corruptData`, the as-written read still gives the default, while reading the written key gives `foo`. |
| PreferenceTests.CorruptDataReturnsDefault | lvl_sample/src/androidTest/java/com/google/android/vending/licensing/ObfuscatedPreferencesTest.java:77-85 | As intended: plain `foo` under `corruptData`, read from `corruptData`, fails validation and gives the default. |

The earlier test tree repeats most scenarios. Its repeats are covered by the same members:

- `test/src/com/android/vending/licensing/StrictPolicyTest.java`: lines 32-36, 42-47
  and 64-69 are InitialResponse, LicensedResponse and RetryResponse.
- `test/src/com/google/android/vending/licensing/ServerManagedPolicyTest.java`: lines
  51-60, 65-80 and 82-91 are ExtraDataParsed, RetryCountsCleared and
  NoFailureOnAdditionalEncodedExtras.
- `test/src/com/android/vending/licensing/APKExpansionPolicyTest.java`: lines 98-107 are
  NoFailureOnAdditionalEncodedExtras.
- `test/src/com/android/vending/licensing/AESObfuscatorTest.java`: lines 45-130 are the
  same scenarios as the AESObfuscatorTests members, line for line.

## Left out

- **Cryptography.** The AES cipher, the PBKDF2 key derivation from salt, package and
  device, and the Base64 text form are not modelled. The obfuscator is an ideal keyed
  encoding. Only the binding properties are proved (round trip, determinism, rejection of
  any mismatch), not confidentiality. The token layout is the model's own.
- **Android environment.** The Android `Context`, the `Settings.Secure.ANDROID_ID` lookup
  and the package name are replaced by parameters. `SharedPreferences` file storage is a
  map in memory.
- **Clock.** `System.currentTimeMillis()` becomes the parameter `now`.
- **Persistence.** The policies save their state through a PreferenceObfuscator in the
  library. That persistence is not modelled: the policies keep their state in fields.
- **Retry counting.** There is no retry counter and no last-retry time in this model. A
  RETRY response never uses up one of the `GR` retries. The retry window is decided by
  `GT` and by whether `GR` is positive.
- **Response checking and network.** The signature check of the response, the nonce and
  package checks of the checker, and all networking are not part of this model.
- **Test harness.** JUnit's runner, `Log.d` and the preference test's `cleanup` helper
  are left out.
- **Java exceptions.** Only ValidationException, MalformedResponse and the
  IndexOutOfRange of the expansion getters are modelled. Other Java runtime exceptions
  are not.
- **Numeral parsing.** `Integer.parseInt`/`Long.parseLong` accept ASCII digits only in
  this model. Java also accepts other Unicode decimal digits.
- **Form decoding.** A `%` that is not followed by two hexadecimal digits is kept as it
  is, where Java's `URLDecoder` would throw. An escape stands for one character code, not
  for a UTF-8 byte sequence.
- Obfuscation.AESObfuscator.Obfuscate: obfuscating null gives a token that reads back as
  null. The library's own handling of a null plaintext is not modelled.
- Response.Parse: a line with fewer than six bar-separated pieces, or with a code, nonce,
  version code or timestamp that is not a number, is rejected with MalformedResponse. It
  is not filled in with default values.
- ServerManagedPolicyTests.NoFailureOnNullResponseData: requires `now >= 0`. The clock
  reads milliseconds since the epoch. A negative `now` would fall before the cleared
  validity timestamp 0.
- APKExpansionPolicyTests.NoFailureOnNullResponseData: requires `now >= 0`, for the same
  reason.

## Findings

| source | as written | input that shows it | evidently intended | confidence | as-written member | corrected member |
|---|---|---|---|---|---|---|
| lvl_sample/src/androidTest/java/com/google/android/vending/licensing/ObfuscatedPreferencesTest.java:80-84 | The corrupt value is written under `corruptData` but read from `corruptdata`, a key never written. The default comes back whatever was stored, so the scenario checks nothing about corrupt data. | A valid token for `foo` stored under `corruptData`: the as-written read still returns `Android rocks`, while reading `corruptData` returns `foo`. | Read the key that was written, `corruptData`. The plain `foo` there fails validation and the default comes back. | not executed | PreferenceTests.CorruptDataMissesValidToken | PreferenceTests.CorruptDataReturnsDefault |

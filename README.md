# Data-expiration policy of a managed table

This project models `DataExpirationConfig`, the data-expiration policy of an
Amoro (Arctic) table, and proves what it promises. A policy says when data
becomes eligible for deletion because of its age. It has seven fields:

- the on/off switch `enabled`;
- the name of the schema field that gives the age (`expirationField`);
- the granularity `ExpireLevel` (PARTITION or FILE);
- the retention time, a Java `long`;
- two format patterns (`dateTimePattern` and `numberDateFormat`);
- the reference point `Since` (LATEST_SNAPSHOT or CURRENT_TIMESTAMP).

The two enums are parsed from strings without regard to letter case. A policy
is *valid* for a table when four things hold: it is enabled, its retention is
strictly positive, its field name is not blank, and that field exists in the
table's schema with a type of TIMESTAMP, STRING or LONG. The validation never
throws. A disabled policy, or one whose retention is zero or less, is rejected silently;
only the two field-related rejections log a warning.

The files are:

- `wrappers.dfy`: `Option` (a nullable Java reference; `None` is null) and
  `Result` (a return value, or the message of a thrown exception).
- `java_text.dfy`: module `JavaText`. Models `String.toUpperCase(Locale.ENGLISH)`,
  `Character.isWhitespace` and commons-lang `StringUtils.isBlank`.
- `java_hash.dfy`: module `JavaHash`. Models Java `int` wrap-around, and
  `Boolean`, `Long`, `String` and `Arrays.hashCode`, which Guava's
  `Objects.hashCode` returns.
- `iceberg_types.dfy`: module `Iceberg`. Models `Type.TypeID` and the one
  thing the policy reads from a `Types.NestedField` (its type id).
- `data_expiration.dfy`: module `DataExpiration`, the policy itself:
  - the enums and their `fromString`;
  - the seven fields as a value (`Config`);
  - the validator;
  - `equals` and `hashCode`;
  - the class `DataExpirationConfig`, with its constructors and chained setters.
- `data_expiration_properties.dfy`: module `DataExpirationProperties`. Holds
  the lemmas about the policy, and three client methods that drive the class.

The source is mixed in style, and the model follows it:

- The object's fields are updated in place by setters that return `this`.
  They are a Dafny class with `modifies this`. Each setter's postcondition
  gives the whole new state, `Snapshot() == old(Snapshot()).(field := value)`,
  and says that it returns the object itself.
- The getters are plain reads of the class's fields. Dafny fields are public,
  so the getters are not written as separate members.
- `isValid`, `validateExpirationField`, `equals` (the field comparison) and
  `hashCode` are functions over `Config`, the value of the seven fields.
  For an object `c`, Java's `c.isValid(field, name)` is
  `IsValid(c.Snapshot(), field, name, order)` and `c.hashCode()` is
  `ConfigHashCode(c.Snapshot(), ids)`.
- `equals(Object)` compares object identity and class, so it is a function of
  the class, `Equals(o: object?)`.

Modelling choices:

- Null. A Java `String` is `JString = Option<string>`. The two enum fields are
  `Option<ExpireLevel>` and `Option<Since>`, because `new
  DataExpirationConfig()` leaves them null. A resolved schema field is
  `Option<NestedField>`.
- Upper case. `ToUpperCase` is Java's English-locale upper case, exact for
  these characters:
  - ASCII and Latin-1;
  - `ß` (to "SS");
  - dotless `ı` (to "I");
  - long `ſ` (to "S");
  - the Latin ligatures U+FB00 to U+FB06 (for example `ﬁ` to "FI").

  Java also upper-cases many other letters (Greek, Cyrillic, accented letters
  outside Latin-1 and so on), but never into a string made only of A-Z and
  `_`. So whether, and to what, an enum string parses is the same as in Java
  for every input. Only the upper-cased string itself can differ. One example
  of a faithful outcome: `"ﬁle"` parses as FILE (`LigatureParsesAsFile`).
- Whitespace. `IsWhitespace` is Java's `Character.isWhitespace`, listed
  character by character as it stands from Unicode 6.3 on (so U+180E is not
  whitespace).
- Strings are sequences of Unicode scalar values. `String.hashCode` is
  computed over their UTF-16 code units. Java strings holding unpaired
  surrogates cannot be represented.
- `retentionTime` is a Java `long` (`Int64`). Hash arithmetic is done on Java
  `int`s (`Int32`), with explicit wrap-around (`Wrap32`).
- `Enum.hashCode` is `Object`'s identity hash, which the program does not fix.
  The four constants' identity hashes are therefore a parameter
  (`IdentityHashes`) of `ConfigHashCode`. Within one JVM they are fixed, so
  equal configurations hash alike.
- Warnings. `validateExpirationField` logs a warning when it rejects. The
  model returns that warning next to the boolean, in an `Outcome`.
  - The list of supported types in the second message follows the iteration
    order of a `HashSet` of enum constants. That order depends on identity
    hashes, so it is a parameter `order`. The precondition `ListsFieldTypes`
    requires it to list FIELD_TYPES once each.
  - The table name only appears in the warnings.
- Exceptions. `fromString` throws `IllegalArgumentException`; here it returns
  `Err(message)` with the same message.
  - For levels, null and the string "null" give the same message
    (`NullMessages`).

## Model

| member | source | states |
|---|---|---|
| `DataExpiration.LevelFromString` | ams/api/src/main/java/com/netease/arctic/ams/api/config/DataExpirationConfig.java:58-65 | null is rejected with "Invalid level type: null"; otherwise the result is `Ok(l)` exactly when the English upper case of the input is the name of `l`, and a rejection's message is "Invalid level type: " followed by the unmodified input |
| `DataExpiration.SinceFromString` | ams/api/src/main/java/com/netease/arctic/ams/api/config/DataExpirationConfig.java:73-81 | null is rejected with "data-expire.since is invalid: null"; otherwise `Ok(s)` exactly when the upper case of the input is the name of `s`; a rejection's message is "Unable to expire data since: " followed by the input |
| `DataExpiration.ValidateExpirationField` | ams/api/src/main/java/com/netease/arctic/ams/api/config/DataExpirationConfig.java:207-230 | accepts exactly when the field name is not blank, the field was resolved and its type is in FIELD_TYPES; a warning is logged exactly when it rejects |
| `DataExpiration.IsValid` | ams/api/src/main/java/com/netease/arctic/ams/api/config/DataExpirationConfig.java:201-205 | valid exactly when enabled, retention > 0, the field name is not blank, the field is present and its type is TIMESTAMP, STRING or LONG; a warning is logged exactly when the first two hold and the policy is still invalid |
| `DataExpiration.ObjectsEqual` | ams/api/src/main/java/com/netease/arctic/ams/api/config/DataExpirationConfig.java:182 | Objects.equal on two String references holds exactly when both are null or both hold the same characters |
| `DataExpiration.ConfigEquals` | ams/api/src/main/java/com/netease/arctic/ams/api/config/DataExpirationConfig.java:180-186 | the field comparison of equals holds exactly when all seven fields are equal |
| `DataExpiration.FieldHashCodes` | ams/api/src/main/java/com/netease/arctic/ams/api/config/DataExpirationConfig.java:191-198 | the seven hashes passed to Objects.hashCode, in the order of the arguments; a null field contributes 0 |
| `DataExpiration.ConfigHashCode` | ams/api/src/main/java/com/netease/arctic/ams/api/config/DataExpirationConfig.java:189-199 | hashCode is the exact polynomial in 31 of the seven field hashes, started at 1 and reduced to a Java int; `HashCodeIsPolynomial` expands it, `EqualsImpliesSameHashCode` ties it to equals |
| `DataExpiration.DataExpirationConfig.Equals` | ams/api/src/main/java/com/netease/arctic/ams/api/config/DataExpirationConfig.java:171-187 | equals(o) holds exactly when o is a DataExpirationConfig whose seven fields equal this object's; the identity shortcut does not change the answer, and null or another class is unequal |
| `DataExpiration.DataExpirationConfig.Empty` | ams/api/src/main/java/com/netease/arctic/ams/api/config/DataExpirationConfig.java:89 | the no-argument constructor leaves every field at Java's default (false, null, 0) |
| `DataExpiration.DataExpirationConfig.constructor` | ams/api/src/main/java/com/netease/arctic/ams/api/config/DataExpirationConfig.java:91-106 | after the all-fields constructor every field holds its argument |
| `DataExpiration.DataExpirationConfig.SetEnabled` | ams/api/src/main/java/com/netease/arctic/ams/api/config/DataExpirationConfig.java:112-115 | stores the argument in `enabled`, leaves the other six fields unchanged and returns the object itself |
| `DataExpiration.DataExpirationConfig.SetExpirationField` | ams/api/src/main/java/com/netease/arctic/ams/api/config/DataExpirationConfig.java:121-124 | stores the argument in `expirationField`, nothing else changes, returns the object itself |
| `DataExpiration.DataExpirationConfig.SetExpirationLevel` | ams/api/src/main/java/com/netease/arctic/ams/api/config/DataExpirationConfig.java:130-133 | stores the argument in `expirationLevel`, nothing else changes, returns the object itself |
| `DataExpiration.DataExpirationConfig.SetRetentionTime` | ams/api/src/main/java/com/netease/arctic/ams/api/config/DataExpirationConfig.java:139-142 | stores the argument in `retentionTime`, nothing else changes, returns the object itself |
| `DataExpiration.DataExpirationConfig.SetDateTimePattern` | ams/api/src/main/java/com/netease/arctic/ams/api/config/DataExpirationConfig.java:148-151 | stores the argument in `dateTimePattern`, nothing else changes, returns the object itself |
| `DataExpiration.DataExpirationConfig.SetNumberDateFormat` | ams/api/src/main/java/com/netease/arctic/ams/api/config/DataExpirationConfig.java:157-160 | stores the argument in `numberDateFormat`, nothing else changes, returns the object itself |
| `DataExpiration.DataExpirationConfig.SetSince` | ams/api/src/main/java/com/netease/arctic/ams/api/config/DataExpirationConfig.java:166-169 | stores the argument in `since`, nothing else changes, returns the object itself |
| `JavaText.UpperCaseOf` | ams/api/src/main/java/com/netease/arctic/ams/api/config/DataExpirationConfig.java:61 | a character upper-cases to one to three characters; A-Z and `_` are kept |
| `JavaText.ToUpperCase` | ams/api/src/main/java/com/netease/arctic/ams/api/config/DataExpirationConfig.java:61 | the English upper case of a string is at least as long as the string and at most three times as long |
| `JavaText.ToUpperCaseOfAscii` | ams/api/src/main/java/com/netease/arctic/ams/api/config/DataExpirationConfig.java:61 | on ASCII text the English upper case is the position-by-position ASCII upper case |
| `JavaText.ToUpperCaseOfAsciiIs` | ams/api/src/main/java/com/netease/arctic/ams/api/config/DataExpirationConfig.java:76 | the upper case of an ASCII string is its position-by-position upper case |
| `JavaText.ToUpperCaseAppend` | ams/api/src/main/java/com/netease/arctic/ams/api/config/DataExpirationConfig.java:61 | upper-casing a concatenation concatenates the upper cases |
| `JavaText.AsciiFoldSameUpperCase` | ams/api/src/main/java/com/netease/arctic/ams/api/config/DataExpirationConfig.java:61 | two characters that differ only in ASCII letter case have the same upper case |
| `JavaText.AsciiCaseVariantSameUpperCase` | ams/api/src/main/java/com/netease/arctic/ams/api/config/DataExpirationConfig.java:61 | strings that differ only in ASCII letter case have the same upper case |
| `JavaText.IsWhitespace` | ams/api/src/main/java/com/netease/arctic/ams/api/config/DataExpirationConfig.java:209 | Character.isWhitespace holds for space, tab, line feed and carriage return and never for the no-break spaces U+00A0, U+2007 and U+202F |
| `JavaText.AllWhitespace` | ams/api/src/main/java/com/netease/arctic/ams/api/config/DataExpirationConfig.java:209 | the scan is true exactly when every character is Java whitespace |
| `JavaText.IsBlank` | ams/api/src/main/java/com/netease/arctic/ams/api/config/DataExpirationConfig.java:209 | StringUtils.isBlank holds exactly for null and for strings made only of whitespace, the empty string included |
| `JavaHash.Wrap32` | ams/api/src/main/java/com/netease/arctic/ams/api/config/DataExpirationConfig.java:190-199 | the Java int an exact value wraps to is congruent to it modulo 2^32 |
| `JavaHash.Wrap32Step` | ams/api/src/main/java/com/netease/arctic/ams/api/config/DataExpirationConfig.java:190-199 | one overflowing step `31 * h + x` equals the exact step wrapped |
| `JavaHash.Fold31IsWrappedPolynomial` | ams/api/src/main/java/com/netease/arctic/ams/api/config/DataExpirationConfig.java:191-198 | the overflowing hash loop equals the exact polynomial in 31 reduced to a Java int |
| `JavaHash.ArraysHashCode` | ams/api/src/main/java/com/netease/arctic/ams/api/config/DataExpirationConfig.java:191-198 | Arrays.hashCode, which Objects.hashCode returns, is 31^n plus the element hashes weighted by descending powers of 31, reduced to a Java int; proved from the overflowing loop by `Fold31IsWrappedPolynomial` |
| `JavaHash.StringHashCode` | ams/api/src/main/java/com/netease/arctic/ams/api/config/DataExpirationConfig.java:193 | String.hashCode is the polynomial in 31 of the UTF-16 code units, s[0]·31^(n-1) + … + s[n-1], reduced to a Java int |
| `JavaHash.BooleanHashCode` | ams/api/src/main/java/com/netease/arctic/ams/api/config/DataExpirationConfig.java:192 | Boolean.hashCode is 1231 for true and 1237 for false |
| `JavaHash.LongHashCode` | ams/api/src/main/java/com/netease/arctic/ams/api/config/DataExpirationConfig.java:195 | Long.hashCode of a retention time in the int range is the value itself when it is not negative and -v-1 when it is |
| `JavaHash.LongHashCodeOfComplement` | ams/api/src/main/java/com/netease/arctic/ams/api/config/DataExpirationConfig.java:195 | a long and its bitwise complement ~v = -1-v have the same Long.hashCode, for every long |
| `JavaHash.Utf16` | ams/api/src/main/java/com/netease/arctic/ams/api/config/DataExpirationConfig.java:193 | a character is one UTF-16 code unit below U+10000 and two above, each in 0 .. 0xFFFF |
| `JavaHash.Utf16String` | ams/api/src/main/java/com/netease/arctic/ams/api/config/DataExpirationConfig.java:193 | a string has between one and two code units per character |
| `DataExpirationProperties.LevelNameIsUpperCase` | ams/api/src/main/java/com/netease/arctic/ams/api/config/DataExpirationConfig.java:54-56 | the level constant names are their own upper case |
| `DataExpirationProperties.SinceNameIsUpperCase` | ams/api/src/main/java/com/netease/arctic/ams/api/config/DataExpirationConfig.java:69-71 | the Since constant names are their own upper case |
| `DataExpirationProperties.LevelFromAnyCaseOfName` | ams/api/src/main/java/com/netease/arctic/ams/api/config/DataExpirationConfig.java:58-65 | any ASCII letter-case spelling of a level's name parses to that level (round trip from the name) |
| `DataExpirationProperties.SinceFromAnyCaseOfName` | ams/api/src/main/java/com/netease/arctic/ams/api/config/DataExpirationConfig.java:73-81 | any ASCII letter-case spelling of a Since name parses to that value |
| `DataExpirationProperties.LevelFromStringIgnoresAsciiCase` | ams/api/src/main/java/com/netease/arctic/ams/api/config/DataExpirationConfig.java:58-65 | changing the case of ASCII letters does not change whether, or to what, a level parses |
| `DataExpirationProperties.SinceFromStringIgnoresAsciiCase` | ams/api/src/main/java/com/netease/arctic/ams/api/config/DataExpirationConfig.java:73-81 | the same for Since |
| `DataExpirationProperties.LevelFromStringOnlyNames` | ams/api/src/main/java/com/netease/arctic/ams/api/config/DataExpirationConfig.java:58-65 | a level parses exactly when its upper case is "PARTITION" or "FILE": no abbreviation or partial match |
| `DataExpirationProperties.SinceFromStringOnlyNames` | ams/api/src/main/java/com/netease/arctic/ams/api/config/DataExpirationConfig.java:73-81 | a Since value parses exactly when its upper case is "LATEST_SNAPSHOT" or "CURRENT_TIMESTAMP" |
| `DataExpirationProperties.RejectionMessageEndsWithInput` | ams/api/src/main/java/com/netease/arctic/ams/api/config/DataExpirationConfig.java:63 | the message of every rejected non-null input ends with the unmodified input |
| `DataExpirationProperties.PartitionInLowerCase` | ams/api/src/main/java/com/netease/arctic/ams/api/config/DataExpirationConfig.java:58-65 | "partition" parses to PARTITION |
| `DataExpirationProperties.PartitionCapitalised` | ams/api/src/main/java/com/netease/arctic/ams/api/config/DataExpirationConfig.java:58-65 | "Partition" parses to PARTITION |
| `DataExpirationProperties.PartitionInUpperCase` | ams/api/src/main/java/com/netease/arctic/ams/api/config/DataExpirationConfig.java:58-65 | "PARTITION" parses to PARTITION |
| `DataExpirationProperties.NearMissesAreRejected` | ams/api/src/main/java/com/netease/arctic/ams/api/config/DataExpirationConfig.java:58-65 | "part", "files" and " file" are rejected with the input in the message |
| `DataExpirationProperties.LigatureParsesAsFile` | ams/api/src/main/java/com/netease/arctic/ams/api/config/DataExpirationConfig.java:61 | "file" and "ﬁle" (with the fi ligature) both parse to FILE |
| `DataExpirationProperties.NullMessages` | ams/api/src/main/java/com/netease/arctic/ams/api/config/DataExpirationConfig.java:59-63 | the messages for null and for "null": equal for levels, different for Since |
| `DataExpirationProperties.LatestSnapshotInLowerCase` | ams/api/src/main/java/com/netease/arctic/ams/api/config/DataExpirationConfig.java:73-81 | "latest_snapshot" parses to LATEST_SNAPSHOT |
| `DataExpirationProperties.CurrentTimestampInMixedCase` | ams/api/src/main/java/com/netease/arctic/ams/api/config/DataExpirationConfig.java:73-81 | "Current_Timestamp" parses to CURRENT_TIMESTAMP |
| `DataExpirationProperties.UnknownSinceIsRejected` | ams/api/src/main/java/com/netease/arctic/ams/api/config/DataExpirationConfig.java:78-79 | "now" is rejected with "Unable to expire data since: now" |
| `DataExpirationProperties.DisabledIsNeverValid` | ams/api/src/main/java/com/netease/arctic/ams/api/config/DataExpirationConfig.java:201-202 | any two disabled policies give the same answer: invalid with no warning, whatever the other fields, the field and the table |
| `DataExpirationProperties.NonPositiveRetentionIsNeverValid` | ams/api/src/main/java/com/netease/arctic/ams/api/config/DataExpirationConfig.java:203 | a retention of zero or less gives invalid with no warning, whatever the other fields |
| `DataExpirationProperties.IllegalFieldIsRejected` | ams/api/src/main/java/com/netease/arctic/ams/api/config/DataExpirationConfig.java:209-215 | an enabled policy with positive retention and a blank name or an absent field is invalid and logs the "is illegal for table" warning |
| `DataExpirationProperties.UnsupportedTypeIsRejected` | ams/api/src/main/java/com/netease/arctic/ams/api/config/DataExpirationConfig.java:216-227 | a type outside TIMESTAMP, STRING and LONG makes the policy invalid, with the warning naming the table, field, type and supported types |
| `DataExpirationProperties.ValidityDependsOnlyOnItsInputs` | ams/api/src/main/java/com/netease/arctic/ams/api/config/DataExpirationConfig.java:201-205 | level, since, both patterns and the table name never change validity |
| `DataExpirationProperties.WhitespaceNameIsBlank` | ams/api/src/main/java/com/netease/arctic/ams/api/config/DataExpirationConfig.java:209 | whitespace-only names (including U+3000) are blank; a no-break space or a name with letters is not |
| `DataExpirationProperties.ExampleFieldIsNotBlank` | ams/api/src/main/java/com/netease/arctic/ams/api/config/DataExpirationConfig.java:209 | "event_ts" is not blank |
| `DataExpirationProperties.ValidationExamples` | ams/api/src/main/java/com/netease/arctic/ams/api/config/DataExpirationConfig.java:201-205 | a day of retention on a TIMESTAMP field is valid; the same policy disabled, or with retention 0 or -1, is invalid without a warning |
| `DataExpirationProperties.RejectionExamples` | ams/api/src/main/java/com/netease/arctic/ams/api/config/DataExpirationConfig.java:207-230 | the same policy on a BOOLEAN field, or on an absent field, is invalid with a warning |
| `DataExpirationProperties.SingleFieldChangeBreaksEquality` | ams/api/src/main/java/com/netease/arctic/ams/api/config/DataExpirationConfig.java:180-186 | replacing any one of the seven fields keeps equality exactly when the new value is the old one |
| `DataExpirationProperties.EqualsIsAnEquivalence` | ams/api/src/main/java/com/netease/arctic/ams/api/config/DataExpirationConfig.java:171-187 | equals is reflexive, symmetric and transitive |
| `DataExpirationProperties.EqualsImpliesSameHashCode` | ams/api/src/main/java/com/netease/arctic/ams/api/config/DataExpirationConfig.java:171-199 | equal objects have equal hash codes |
| `DataExpirationProperties.HashCodeIsPolynomial` | ams/api/src/main/java/com/netease/arctic/ams/api/config/DataExpirationConfig.java:190-199 | hashCode is 31^7 + 31^6·h(enabled) + 31^5·h(expirationField) + … + h(since), reduced to a Java int, with the seven field hashes in the argument order of lines 192-198 |
| `DataExpirationProperties.DefaultHashCode` | ams/api/src/main/java/com/netease/arctic/ams/api/config/DataExpirationConfig.java:89 | `new DataExpirationConfig()` hashes to 73235956 in every JVM: 1237 for `false` and 0 for every null or zero field |
| `DataExpirationProperties.ConfigureByChainedSetters` | ams/api/src/main/java/com/netease/arctic/ams/api/config/DataExpirationConfig.java:108-169 | chaining the seven setters on an empty object leaves every field holding exactly the value given to its setter |
| `DataExpirationProperties.IndependentlyBuiltConfigsAreEqual` | ams/api/src/main/java/com/netease/arctic/ams/api/config/DataExpirationConfig.java:91-199 | an object built by setters and one built by the all-fields constructor with the same values are distinct, equal and hash alike |
| `DataExpirationProperties.ChangedCopyIsUnequal` | ams/api/src/main/java/com/netease/arctic/ams/api/config/DataExpirationConfig.java:139-187 | a copy whose retention time is then set to a different value is unequal to the original |

## Left out

- Logging. The SLF4J calls are not modelled as I/O; the message a rejection
  would log is returned in `Outcome.warning` instead.
- Jackson deserialisation from the property bag (`@JsonIgnoreProperties`),
  because it is library-driven mapping. This includes the rule that unknown
  keys are ignored.
- `ConfigHashCode`: the identity hash codes of the enum constants are a
  parameter, so the model does not fix the value of any hash that involves a
  non-null level or Since.
- `JavaText.UpperCaseOf` and `JavaText.ToUpperCase`: non-ASCII letters other than those listed above are
  kept as they are. Java would upper-case them, but never into a valid
  constant name, and parse outcomes do not depend on the difference.
- `JavaText.IsWhitespace` follows the Unicode tables from version 6.3 on.
  Older JVMs also counted U+180E as whitespace.
- The exact order of types in the "please use the following types" warning.
  It follows `HashSet` iteration order and is a parameter here.
- Object identity of strings inside `Objects.equal`. Identical references are
  also equal in value, so the result is the same.
- Concurrency. The class has no synchronisation, and the model is sequential.
- Other classes as the argument of `equals` are covered by `object?`. Only
  `DataExpirationConfig` objects can compare equal.
- Strings holding unpaired surrogates. A Dafny `string` holds Unicode scalar
  values, so a Java String with a lone surrogate has no model, and its
  `String.hashCode` is not covered.
- The cause of the rethrown exception. `fromString` passes the failing
  `valueOf`'s exception to the new `IllegalArgumentException` as its cause
  (`DataExpirationConfig.java` lines 63 and 79). An `Err` holds only the message.
- Changes to `FIELD_TYPES`. It is a public, mutable `HashSet`, but nothing in
  the class changes it. The model fixes it as the constant `FieldTypes`, and
  `ListsFieldTypes` fixes its iteration order to list exactly those three types.

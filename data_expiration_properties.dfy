/** What the data-expiration policy promises: lenient but exact parsing of
    its enums, a validator that is a short-circuiting conjunction, value
    semantics for equality and hashing, and setters that change one field. */
module DataExpirationProperties {
  import opened Wrappers
  import opened JavaText
  import opened JavaHash
  import opened Iceberg
  import opened DataExpiration

  // ---------------------------------------------------------------------
  // Parsing
  // ---------------------------------------------------------------------

  /** The constant names are already upper case. */
  lemma LevelNameIsUpperCase(l: ExpireLevel)
    ensures ToUpperCase(LevelName(l)) == LevelName(l)
  {
    ToUpperCaseOfAsciiIs(LevelName(l), LevelName(l));
  }

  lemma SinceNameIsUpperCase(s: Since)
    ensures ToUpperCase(SinceName(s)) == SinceName(s)
  {
    ToUpperCaseOfAsciiIs(SinceName(s), SinceName(s));
  }

  /** Any spelling of a level name in any mix of ASCII letter case parses to
      that level. */
  lemma LevelFromAnyCaseOfName(l: ExpireLevel, s: string)
    requires AsciiCaseVariant(s, LevelName(l))
    ensures LevelFromString(Some(s)) == Ok(l)
  {
    AsciiCaseVariantSameUpperCase(s, LevelName(l));
    LevelNameIsUpperCase(l);
  }

  /** Any spelling of a Since name in any mix of ASCII letter case parses to
      that value. */
  lemma SinceFromAnyCaseOfName(v: Since, s: string)
    requires AsciiCaseVariant(s, SinceName(v))
    ensures SinceFromString(Some(s)) == Ok(v)
  {
    AsciiCaseVariantSameUpperCase(s, SinceName(v));
    SinceNameIsUpperCase(v);
  }

  /** Changing the case of ASCII letters never changes whether, or to what,
      a level parses. */
  lemma LevelFromStringIgnoresAsciiCase(s: string, t: string)
    requires AsciiCaseVariant(s, t)
    ensures LevelFromString(Some(s)).Ok? <==> LevelFromString(Some(t)).Ok?
    ensures LevelFromString(Some(s)).Ok? ==> LevelFromString(Some(s)) == LevelFromString(Some(t))
  {
    AsciiCaseVariantSameUpperCase(s, t);
  }

  /** The same for Since. */
  lemma SinceFromStringIgnoresAsciiCase(s: string, t: string)
    requires AsciiCaseVariant(s, t)
    ensures SinceFromString(Some(s)).Ok? <==> SinceFromString(Some(t)).Ok?
    ensures SinceFromString(Some(s)).Ok? ==> SinceFromString(Some(s)) == SinceFromString(Some(t))
  {
    AsciiCaseVariantSameUpperCase(s, t);
  }

  /** Parsing is exact: a string parses only when its upper case is one of
      the names, so no abbreviation, extension or padding is accepted. */
  lemma LevelFromStringOnlyNames(s: string)
    ensures LevelFromString(Some(s)).Ok? <==> ToUpperCase(s) == "PARTITION" || ToUpperCase(s) == "FILE"
  {
    if ToUpperCase(s) == "PARTITION" {
      assert LevelFromString(Some(s)) == Ok(PARTITION);
    } else if ToUpperCase(s) == "FILE" {
      assert LevelFromString(Some(s)) == Ok(FILE);
    }
  }

  /** The same for Since. */
  lemma SinceFromStringOnlyNames(s: string)
    ensures SinceFromString(Some(s)).Ok?
      <==> ToUpperCase(s) == "LATEST_SNAPSHOT" || ToUpperCase(s) == "CURRENT_TIMESTAMP"
  {
    if ToUpperCase(s) == "LATEST_SNAPSHOT" {
      assert SinceFromString(Some(s)) == Ok(LATEST_SNAPSHOT);
    } else if ToUpperCase(s) == "CURRENT_TIMESTAMP" {
      assert SinceFromString(Some(s)) == Ok(CURRENT_TIMESTAMP);
    }
  }

  /** Every rejected non-null input appears unchanged at the end of the message. */
  lemma RejectionMessageEndsWithInput(s: string)
    ensures LevelFromString(Some(s)).Err? ==>
      var m := LevelFromString(Some(s)).error; |s| <= |m| && m[|m| - |s|..] == s
    ensures SinceFromString(Some(s)).Err? ==>
      var m := SinceFromString(Some(s)).error; |s| <= |m| && m[|m| - |s|..] == s
  {
  }

  /** "partition" parses to PARTITION in lower case, capitalised and in upper case. */
  lemma PartitionInLowerCase()
    ensures LevelFromString(Some("partition")) == Ok(PARTITION)
  {
    ToUpperCaseOfAsciiIs("partition", "PARTITION");
  }

  lemma PartitionCapitalised()
    ensures LevelFromString(Some("Partition")) == Ok(PARTITION)
  {
    ToUpperCaseOfAsciiIs("Partition", "PARTITION");
  }

  lemma PartitionInUpperCase()
    ensures LevelFromString(Some("PARTITION")) == Ok(PARTITION)
  {
    LevelNameIsUpperCase(PARTITION);
  }

  /** A prefix, an extension or a leading space is rejected, with the input
      in the message. */
  lemma NearMissesAreRejected()
    ensures LevelFromString(Some("part")) == Err("Invalid level type: part")
    ensures LevelFromString(Some("files")) == Err("Invalid level type: files")
    ensures LevelFromString(Some(" file")) == Err("Invalid level type:  file")
  {
    ToUpperCaseOfAsciiIs("part", "PART");
    assert "Invalid level type: " + "part" == "Invalid level type: part";
    ToUpperCaseOfAsciiIs("files", "FILES");
    assert "Invalid level type: " + "files" == "Invalid level type: files";
    ToUpperCaseOfAsciiIs(" file", " FILE");
    assert "Invalid level type: " + " file" == "Invalid level type:  file";
  }

  /** The ligature U+FB01 ("fi") upper-cases to "FI", so "\U{FB01}le" is
      accepted as FILE. */
  lemma LigatureParsesAsFile()
    ensures LevelFromString(Some("file")) == Ok(FILE)
    ensures LevelFromString(Some("\U{FB01}le")) == Ok(FILE)
  {
    LevelFromAnyCaseOfName(FILE, "file");
    ToUpperCaseAppend("\U{FB01}", "le");
    ToUpperCaseOfAsciiIs("le", "LE");
    assert "\U{FB01}" + "le" == "\U{FB01}le";
  }

  /** For levels, null and the string "null" are rejected with the same
      message; for Since the two messages differ. */
  lemma NullMessages()
    ensures LevelFromString(None) == LevelFromString(Some("null")) == Err("Invalid level type: null")
    ensures SinceFromString(None) == Err("data-expire.since is invalid: null")
    ensures SinceFromString(Some("null")) == Err("Unable to expire data since: null")
  {
    ToUpperCaseOfAsciiIs("null", "NULL");
    assert "Invalid level type: " + "null" == "Invalid level type: null";
    assert "Unable to expire data since: " + "null" == "Unable to expire data since: null";
  }

  /** Since names parse in any letter case. */
  lemma LatestSnapshotInLowerCase()
    ensures SinceFromString(Some("latest_snapshot")) == Ok(LATEST_SNAPSHOT)
  {
    ToUpperCaseOfAsciiIs("latest_snapshot", "LATEST_SNAPSHOT");
  }

  lemma CurrentTimestampInMixedCase()
    ensures SinceFromString(Some("Current_Timestamp")) == Ok(CURRENT_TIMESTAMP)
  {
    ToUpperCaseOfAsciiIs("Current_Timestamp", "CURRENT_TIMESTAMP");
  }

  /** An unknown Since value is rejected with the input in the message. */
  lemma UnknownSinceIsRejected()
    ensures SinceFromString(Some("now")) == Err("Unable to expire data since: now")
  {
    ToUpperCaseOfAsciiIs("now", "NOW");
    assert "Unable to expire data since: " + "now" == "Unable to expire data since: now";
  }

  // ---------------------------------------------------------------------
  // Validation
  // ---------------------------------------------------------------------

  /** A disabled policy is invalid and logs nothing, whatever its other fields,
      the resolved field and the table. */
  lemma DisabledIsNeverValid(
    c: Config, d: Config, f: Option<NestedField>, g: Option<NestedField>,
    n: JString, m: JString, order: seq<TypeId>, order': seq<TypeId>)
    requires ListsFieldTypes(order) && ListsFieldTypes(order')
    requires !c.enabled && !d.enabled
    ensures IsValid(c, f, n, order) == IsValid(d, g, m, order') == Outcome(false, None)
  {
  }

  /** A retention time of zero or less makes the policy invalid, and nothing is
      logged, whatever the other fields. */
  lemma NonPositiveRetentionIsNeverValid(
    c: Config, d: Config, f: Option<NestedField>, g: Option<NestedField>,
    n: JString, m: JString, order: seq<TypeId>, order': seq<TypeId>)
    requires ListsFieldTypes(order) && ListsFieldTypes(order')
    requires c.retentionTime <= 0 && d.retentionTime <= 0
    ensures IsValid(c, f, n, order) == IsValid(d, g, m, order') == Outcome(false, None)
  {
  }

  /** An enabled policy with a positive retention and a blank field name, or a
      field the schema does not have, is invalid and logs the "illegal field"
      warning naming the field and the table. */
  lemma IllegalFieldIsRejected(c: Config, f: Option<NestedField>, n: JString, order: seq<TypeId>)
    requires ListsFieldTypes(order)
    requires c.enabled && c.retentionTime > 0
    requires IsBlank(c.expirationField) || f.None?
    ensures IsValid(c, f, n, order) == Outcome(false, Some(
      "Field(" + FormatArg(c.expirationField) + ") used to determine data expiration is illegal for table("
      + FormatArg(n) + ")"))
  {
  }

  /** A field of a type outside FIELD_TYPES makes the policy invalid, with the
      warning naming the table, the field, the type and the supported types. */
  lemma UnsupportedTypeIsRejected(c: Config, t: TypeId, n: JString, order: seq<TypeId>)
    requires ListsFieldTypes(order)
    requires c.enabled && c.retentionTime > 0 && !IsBlank(c.expirationField)
    requires t != TIMESTAMP && t != STRING && t != LONG
    ensures IsValid(c, Some(NestedField(t)), n, order) == Outcome(false, Some(
      "Table(" + FormatArg(n) + ") field(" + FormatArg(c.expirationField) + ") type(" + TypeIdName(t)
      + ") is not supported for data expiration, please use the following types: " + JoinTypeNames(order)))
  {
  }

  /** Only the switch, the retention time, the field name and the resolved
      field decide validity: level, since, the two patterns and the table name
      do not. */
  lemma ValidityDependsOnlyOnItsInputs(
    c: Config, d: Config, f: Option<NestedField>, n: JString, m: JString, order: seq<TypeId>, order': seq<TypeId>)
    requires ListsFieldTypes(order) && ListsFieldTypes(order')
    requires c.enabled == d.enabled && c.retentionTime == d.retentionTime
    requires c.expirationField == d.expirationField
    ensures IsValid(c, f, n, order).valid == IsValid(d, f, m, order').valid
  {
  }

  /** A whitespace-only field name is blank. */
  lemma WhitespaceNameIsBlank()
    ensures IsBlank(Some(" \t\n"))
    ensures IsBlank(Some("\U{3000}"))
    ensures !IsBlank(Some("\U{00A0}"))
    ensures !IsBlank(Some(" ts "))
  {
    assert !IsWhitespace(" ts "[1]);
  }

  /** The policy of the examples below: one day of retention on "event_ts". */
  function ExamplePolicy(): Config {
    Config(true, Some("event_ts"), Some(PARTITION), 86400000, None, None, Some(LATEST_SNAPSHOT))
  }

  lemma ExampleFieldIsNotBlank()
    ensures !IsBlank(ExamplePolicy().expirationField)
  {
    assert !IsWhitespace("event_ts"[0]);
  }

  /** A day of retention on a timestamp field is valid; disabled, or with a
      retention of 0 or -1, the same policy is not. */
  lemma ValidationExamples(order: seq<TypeId>)
    requires ListsFieldTypes(order)
    ensures IsValid(ExamplePolicy(), Some(NestedField(TIMESTAMP)), Some("db.events"), order) == Outcome(true, None)
    ensures IsValid(ExamplePolicy().(enabled := false), Some(NestedField(TIMESTAMP)), Some("db.events"), order)
      == Outcome(false, None)
    ensures IsValid(ExamplePolicy().(retentionTime := 0), Some(NestedField(TIMESTAMP)), Some("db.events"), order)
      == Outcome(false, None)
    ensures IsValid(ExamplePolicy().(retentionTime := -1), Some(NestedField(TIMESTAMP)), Some("db.events"), order)
      == Outcome(false, None)
  {
    ExampleFieldIsNotBlank();
  }

  /** The same policy on a boolean field, and on a field the table does not
      have, is rejected with a warning. */
  lemma RejectionExamples(order: seq<TypeId>)
    requires ListsFieldTypes(order)
    ensures var o := IsValid(ExamplePolicy(), Some(NestedField(BOOLEAN)), Some("db.events"), order);
      !o.valid && o.warning.Some?
    ensures var o := IsValid(ExamplePolicy(), None, Some("db.events"), order);
      !o.valid && o.warning.Some?
  {
    ExampleFieldIsNotBlank();
  }

  // ---------------------------------------------------------------------
  // Equality and hashing
  // ---------------------------------------------------------------------

  /** Replacing any one field by a value of its own makes the configuration
      unequal exactly when the value differs. */
  lemma SingleFieldChangeBreaksEquality(
    c: Config, enabled: bool, expirationField: JString, expirationLevel: Option<ExpireLevel>,
    retentionTime: Int64, dateTimePattern: JString, numberDateFormat: JString, since: Option<Since>)
    ensures ConfigEquals(c, c.(enabled := enabled)) <==> enabled == c.enabled
    ensures ConfigEquals(c, c.(expirationField := expirationField)) <==> expirationField == c.expirationField
    ensures ConfigEquals(c, c.(expirationLevel := expirationLevel)) <==> expirationLevel == c.expirationLevel
    ensures ConfigEquals(c, c.(retentionTime := retentionTime)) <==> retentionTime == c.retentionTime
    ensures ConfigEquals(c, c.(dateTimePattern := dateTimePattern)) <==> dateTimePattern == c.dateTimePattern
    ensures ConfigEquals(c, c.(numberDateFormat := numberDateFormat)) <==> numberDateFormat == c.numberDateFormat
    ensures ConfigEquals(c, c.(since := since)) <==> since == c.since
  {
  }

  /** equals is reflexive, symmetric and transitive. */
  lemma EqualsIsAnEquivalence(a: DataExpirationConfig, b: DataExpirationConfig, c: DataExpirationConfig)
    ensures a.Equals(a)
    ensures a.Equals(b) <==> b.Equals(a)
    ensures a.Equals(b) && b.Equals(c) ==> a.Equals(c)
  {
  }

  /** Equal configurations have equal hash codes (in one JVM, whose identity
      hash codes for the enum constants are `ids`). */
  lemma EqualsImpliesSameHashCode(a: DataExpirationConfig, o: object?, ids: IdentityHashes)
    requires a.Equals(o)
    ensures o is DataExpirationConfig
    ensures ConfigHashCode((o as DataExpirationConfig).Snapshot(), ids) == ConfigHashCode(a.Snapshot(), ids)
  {
  }

  /** The hash code is 31^7 plus the field hash codes weighted by powers of 31,
      reduced to a Java int. */
  lemma HashCodeIsPolynomial(c: Config, ids: IdentityHashes)
    ensures var hs: seq<int> := FieldHashCodes(c, ids);
      ConfigHashCode(c, ids) == Wrap32(27512614111 + 887503681 * hs[0] + 28629151 * hs[1]
        + 923521 * hs[2] + 29791 * hs[3] + 961 * hs[4] + 31 * hs[5] + hs[6])
  {
    var hs: seq<int> := FieldHashCodes(c, ids);
    assert Polynomial31(1, hs[..1]) == 31 + hs[0] by { assert hs[..1][..0] == []; }
    assert Polynomial31(1, hs[..2]) == 961 + 31 * hs[0] + hs[1] by { assert hs[..2][..1] == hs[..1]; }
    assert Polynomial31(1, hs[..3]) == 29791 + 961 * hs[0] + 31 * hs[1] + hs[2] by {
      assert hs[..3][..2] == hs[..2];
    }
    assert Polynomial31(1, hs[..4]) == 923521 + 29791 * hs[0] + 961 * hs[1] + 31 * hs[2] + hs[3] by {
      assert hs[..4][..3] == hs[..3];
    }
    assert Polynomial31(1, hs[..5])
      == 28629151 + 923521 * hs[0] + 29791 * hs[1] + 961 * hs[2] + 31 * hs[3] + hs[4] by {
      assert hs[..5][..4] == hs[..4];
    }
    assert Polynomial31(1, hs[..6])
      == 887503681 + 28629151 * hs[0] + 923521 * hs[1] + 29791 * hs[2] + 961 * hs[3] + 31 * hs[4] + hs[5] by {
      assert hs[..6][..5] == hs[..5];
    }
    assert hs[..7] == hs;
  }

  /** The hash code of `new DataExpirationConfig()`, the same in every JVM
      since both enum fields are null. */
  lemma DefaultHashCode(ids: IdentityHashes)
    ensures ConfigHashCode(DefaultConfig, ids) == 73235956
  {
    HashCodeIsPolynomial(DefaultConfig, ids);
    Wrap32Unique(73235956, 27512614111 + 887503681 * 1237);
  }

  // ---------------------------------------------------------------------
  // Construction and chained setters
  // ---------------------------------------------------------------------

  /** Configuring an empty object through one chain of setters leaves every
      field holding exactly the value given to its setter. */
  method ConfigureByChainedSetters(
    enabled: bool, expirationField: JString, expirationLevel: Option<ExpireLevel>, retentionTime: Int64,
    dateTimePattern: JString, numberDateFormat: JString, since: Option<Since>)
    returns (config: DataExpirationConfig)
    ensures config.Snapshot() == Config(enabled, expirationField, expirationLevel, retentionTime,
                                        dateTimePattern, numberDateFormat, since)
  {
    config := new DataExpirationConfig.Empty();
    var c := config.SetEnabled(enabled);
    c := c.SetExpirationField(expirationField);
    c := c.SetExpirationLevel(expirationLevel);
    c := c.SetRetentionTime(retentionTime);
    c := c.SetDateTimePattern(dateTimePattern);
    c := c.SetNumberDateFormat(numberDateFormat);
    c := c.SetSince(since);
  }

  /** Two objects built independently, one by setters and one by the
      all-fields constructor, are distinct, equal, and hash alike. */
  method IndependentlyBuiltConfigsAreEqual(
    enabled: bool, expirationField: JString, expirationLevel: Option<ExpireLevel>, retentionTime: Int64,
    dateTimePattern: JString, numberDateFormat: JString, since: Option<Since>, ids: IdentityHashes)
    returns (distinct: bool, equal: bool, sameHash: bool)
    ensures distinct && equal && sameHash
  {
    var a := ConfigureByChainedSetters(enabled, expirationField, expirationLevel, retentionTime,
                                       dateTimePattern, numberDateFormat, since);
    var b := new DataExpirationConfig(enabled, expirationField, expirationLevel, retentionTime,
                                      dateTimePattern, numberDateFormat, since);
    distinct := a != b;
    equal := a.Equals(b);
    sameHash := ConfigHashCode(a.Snapshot(), ids) == ConfigHashCode(b.Snapshot(), ids);
  }

  /** Setting one field of an otherwise equal copy to a different value makes
      the copy unequal to the original, which is left as it was. */
  method ChangedCopyIsUnequal(original: DataExpirationConfig, retentionTime: Int64)
    returns (copy: DataExpirationConfig, equal: bool)
    requires retentionTime != original.retentionTime
    ensures copy.retentionTime == retentionTime && !equal
  {
    var s := original.Snapshot();
    copy := new DataExpirationConfig(s.enabled, s.expirationField, s.expirationLevel, s.retentionTime,
                                     s.dateTimePattern, s.numberDateFormat, s.since);
    equal := original.Equals(copy);
    assert equal;
    var c := copy.SetRetentionTime(retentionTime);
    equal := original.Equals(copy);
  }
}

/** The data-expiration policy of a table: its two closed enums parsed
    leniently from strings, the seven-field configuration object with its
    chained setters, structural equality and hashing, and the validator that
    decides whether the policy is active for a resolved schema field. */
module DataExpiration {
  import opened Wrappers
  import opened JavaText
  import opened JavaHash
  import opened Iceberg

  // ---------------------------------------------------------------------
  // ExpireLevel and Since
  // ---------------------------------------------------------------------

  /** The granularity at which data expires. */
  datatype ExpireLevel = PARTITION | FILE

  /** The point in time that the age of data is measured from. */
  datatype Since = LATEST_SNAPSHOT | CURRENT_TIMESTAMP

  /** The name of an ExpireLevel constant. */
  function LevelName(l: ExpireLevel): string {
    match l
    case PARTITION => "PARTITION"
    case FILE => "FILE"
  }

  /** The name of a Since constant. */
  function SinceName(s: Since): string {
    match s
    case LATEST_SNAPSHOT => "LATEST_SNAPSHOT"
    case CURRENT_TIMESTAMP => "CURRENT_TIMESTAMP"
  }

  /** The table of constants by name that ExpireLevel.valueOf consults. */
  const LevelConstants: map<string, ExpireLevel> := map["PARTITION" := PARTITION, "FILE" := FILE]

  /** The table of constants by name that Since.valueOf consults. */
  const SinceConstants: map<string, Since> :=
    map["LATEST_SNAPSHOT" := LATEST_SNAPSHOT, "CURRENT_TIMESTAMP" := CURRENT_TIMESTAMP]

  /** ExpireLevel.fromString: null is rejected; otherwise the input is upper-cased
      in the English locale and must then be exactly the name of a constant. A
      rejection is an IllegalArgumentException whose message is `r.error`. */
  function LevelFromString(level: JString): (r: Result<ExpireLevel, string>)
    ensures level.None? ==> r == Err("Invalid level type: null")
    ensures level.Some? ==> forall l :: r == Ok(l) <==> ToUpperCase(level.value) == LevelName(l)
    ensures level.Some? && r.Err? ==> r.error == "Invalid level type: " + level.value
  {
    match level
    case None => Err("Invalid level type: null")
    case Some(s) =>
      var name := ToUpperCase(s);
      if name in LevelConstants then Ok(LevelConstants[name]) else Err("Invalid level type: " + s)
  }

  /** Since.fromString, with the same rules and its own messages. */
  function SinceFromString(since: JString): (r: Result<Since, string>)
    ensures since.None? ==> r == Err("data-expire.since is invalid: null")
    ensures since.Some? ==> forall s :: r == Ok(s) <==> ToUpperCase(since.value) == SinceName(s)
    ensures since.Some? && r.Err? ==> r.error == "Unable to expire data since: " + since.value
  {
    match since
    case None => Err("data-expire.since is invalid: null")
    case Some(s) =>
      var name := ToUpperCase(s);
      if name in SinceConstants then Ok(SinceConstants[name]) else Err("Unable to expire data since: " + s)
  }

  // ---------------------------------------------------------------------
  // The configuration as a value
  // ---------------------------------------------------------------------

  /** The seven fields of a DataExpirationConfig. The strings and the two enum
      fields are Java references and may be null. */
  datatype Config = Config(
    enabled: bool,
    expirationField: JString,
    expirationLevel: Option<ExpireLevel>,
    retentionTime: Int64,
    dateTimePattern: JString,
    numberDateFormat: JString,
    since: Option<Since>)

  /** The fields of `new DataExpirationConfig()`: Java's default values. */
  const DefaultConfig: Config := Config(false, None, None, 0, None, None, None)

  /** FIELD_TYPES: the types an expiration field may have. */
  const FieldTypes: set<TypeId> := {TIMESTAMP, STRING, LONG}

  // ---------------------------------------------------------------------
  // Validation
  // ---------------------------------------------------------------------

  /** What a call of the validator returns, with the warning it logs, if any. */
  datatype Outcome = Outcome(valid: bool, warning: Option<string>)

  /** `order` lists FIELD_TYPES once each, in the order in which the HashSet
      happens to iterate them. */
  predicate ListsFieldTypes(order: seq<TypeId>) {
    |order| == 3 && forall t :: t in order <==> t in FieldTypes
  }

  /** StringUtils.join of type identifiers with ", ". */
  function JoinTypeNames(ts: seq<TypeId>): string {
    if ts == [] then ""
    else if |ts| == 1 then TypeIdName(ts[0])
    else TypeIdName(ts[0]) + ", " + JoinTypeNames(ts[1..])
  }

  /** validateExpirationField: the field name must not be blank, the field must
      have been resolved, and its type must be one of FIELD_TYPES. A rejection
      logs a warning naming the table and the field; a rejection for the type
      also names the type and the supported types. The table name `name` only
      appears in the warnings. */
  function ValidateExpirationField(
    field: Option<NestedField>, name: JString, expirationField: JString, order: seq<TypeId>): (o: Outcome)
    requires ListsFieldTypes(order)
    ensures o.valid <==> !IsBlank(expirationField) && field.Some? && field.value.typeId in FieldTypes
    ensures o.warning.Some? <==> !o.valid
  {
    if IsBlank(expirationField) || field.None? then
      Outcome(false, Some("Field(" + FormatArg(expirationField)
        + ") used to determine data expiration is illegal for table(" + FormatArg(name) + ")"))
    else
      var typeId := field.value.typeId;
      if typeId !in FieldTypes then
        Outcome(false, Some("Table(" + FormatArg(name) + ") field(" + FormatArg(expirationField)
          + ") type(" + TypeIdName(typeId)
          + ") is not supported for data expiration, please use the following types: "
          + JoinTypeNames(order)))
      else
        Outcome(true, None)
  }

  /** isValid: enabled, a strictly positive retention time, and an eligible
      expiration field, checked in that order; the field is only examined,
      and a warning only logged, when the first two hold. */
  function IsValid(c: Config, field: Option<NestedField>, name: JString, order: seq<TypeId>): (o: Outcome)
    requires ListsFieldTypes(order)
    ensures o.valid <==>
      c.enabled && c.retentionTime > 0 && !IsBlank(c.expirationField)
      && field.Some? && field.value.typeId in FieldTypes
    ensures o.warning.Some? <==> c.enabled && c.retentionTime > 0 && !o.valid
  {
    if c.enabled && c.retentionTime > 0 then ValidateExpirationField(field, name, c.expirationField, order)
    else Outcome(false, None)
  }

  // ---------------------------------------------------------------------
  // Equality and hashing
  // ---------------------------------------------------------------------

  /** Guava's Objects.equal on two String references: both null, or both
      non-null with the same characters. */
  function ObjectsEqual(a: JString, b: JString): (eq: bool)
    ensures eq <==> a == b
  {
    match (a, b)
    case (None, None) => true
    case (Some(x), Some(y)) => x == y
    case _ => false
  }

  /** The field comparison of equals: primitives and enums by value,
      strings with Objects.equal. */
  function ConfigEquals(a: Config, b: Config): (eq: bool)
    ensures eq <==> a == b
  {
    a.enabled == b.enabled
    && a.retentionTime == b.retentionTime
    && ObjectsEqual(a.expirationField, b.expirationField)
    && a.expirationLevel == b.expirationLevel
    && ObjectsEqual(a.dateTimePattern, b.dateTimePattern)
    && ObjectsEqual(a.numberDateFormat, b.numberDateFormat)
    && a.since == b.since
  }

  /** The identity hash codes that the running JVM gives the four enum
      constants: Enum.hashCode is Object's, so these are not fixed by the
      program. */
  datatype IdentityHashes = IdentityHashes(partition: Int32, file: Int32, latestSnapshot: Int32, currentTimestamp: Int32)

  function LevelHashCode(l: Option<ExpireLevel>, ids: IdentityHashes): Int32 {
    match l
    case None => 0
    case Some(PARTITION) => ids.partition
    case Some(FILE) => ids.file
  }

  function SinceHashCode(s: Option<Since>, ids: IdentityHashes): Int32 {
    match s
    case None => 0
    case Some(LATEST_SNAPSHOT) => ids.latestSnapshot
    case Some(CURRENT_TIMESTAMP) => ids.currentTimestamp
  }

  /** The hash codes of the seven fields, in the order hashCode passes them. */
  function FieldHashCodes(c: Config, ids: IdentityHashes): (hs: seq<Int32>)
    ensures |hs| == 7
    ensures c.expirationField == None ==> hs[1] == 0
    ensures c.expirationLevel == None ==> hs[2] == 0
    ensures c.dateTimePattern == None ==> hs[4] == 0
    ensures c.numberDateFormat == None ==> hs[5] == 0
    ensures c.since == None ==> hs[6] == 0
  {
    [ BooleanHashCode(c.enabled), NullableStringHashCode(c.expirationField),
      LevelHashCode(c.expirationLevel, ids), LongHashCode(c.retentionTime),
      NullableStringHashCode(c.dateTimePattern), NullableStringHashCode(c.numberDateFormat),
      SinceHashCode(c.since, ids) ]
  }

  /** hashCode: Objects.hashCode over the seven fields, the exact polynomial
      in 31 of their hash codes, started at 1 and reduced to a Java int. */
  function ConfigHashCode(c: Config, ids: IdentityHashes): (h: Int32)
    ensures h == Wrap32(Polynomial31(1, FieldHashCodes(c, ids)))
  {
    ArraysHashCode(FieldHashCodes(c, ids))
  }

  // ---------------------------------------------------------------------
  // The mutable configuration object
  // ---------------------------------------------------------------------

  /** DataExpirationConfig: seven private fields, set by the constructors and
      by setters that return the object itself, so that calls can be chained.
      No setter validates. The getters are the reads of the fields. */
  class DataExpirationConfig {
    var enabled: bool
    var expirationField: JString
    var expirationLevel: Option<ExpireLevel>
    var retentionTime: Int64
    var dateTimePattern: JString
    var numberDateFormat: JString
    var since: Option<Since>

    /** The current values of the seven fields. */
    function Snapshot(): Config
      reads this
    {
      Config(enabled, expirationField, expirationLevel, retentionTime, dateTimePattern, numberDateFormat, since)
    }

    /** `new DataExpirationConfig()`: every field holds Java's default. */
    constructor Empty()
      ensures Snapshot() == DefaultConfig
    {
      enabled := false;
      expirationField := None;
      expirationLevel := None;
      retentionTime := 0;
      dateTimePattern := None;
      numberDateFormat := None;
      since := None;
    }

    /** The all-fields constructor. */
    constructor (
      enabled: bool, expirationField: JString, expirationLevel: Option<ExpireLevel>, retentionTime: Int64,
      dateTimePattern: JString, numberDateFormat: JString, since: Option<Since>)
      ensures Snapshot() == Config(enabled, expirationField, expirationLevel, retentionTime,
                                   dateTimePattern, numberDateFormat, since)
    {
      this.enabled := enabled;
      this.expirationField := expirationField;
      this.expirationLevel := expirationLevel;
      this.retentionTime := retentionTime;
      this.dateTimePattern := dateTimePattern;
      this.numberDateFormat := numberDateFormat;
      this.since := since;
    }

    method SetEnabled(enabled: bool) returns (self: DataExpirationConfig)
      modifies this
      ensures self == this
      ensures Snapshot() == old(Snapshot()).(enabled := enabled)
    {
      this.enabled := enabled;
      self := this;
    }

    method SetExpirationField(expirationField: JString) returns (self: DataExpirationConfig)
      modifies this
      ensures self == this
      ensures Snapshot() == old(Snapshot()).(expirationField := expirationField)
    {
      this.expirationField := expirationField;
      self := this;
    }

    method SetExpirationLevel(expirationLevel: Option<ExpireLevel>) returns (self: DataExpirationConfig)
      modifies this
      ensures self == this
      ensures Snapshot() == old(Snapshot()).(expirationLevel := expirationLevel)
    {
      this.expirationLevel := expirationLevel;
      self := this;
    }

    method SetRetentionTime(retentionTime: Int64) returns (self: DataExpirationConfig)
      modifies this
      ensures self == this
      ensures Snapshot() == old(Snapshot()).(retentionTime := retentionTime)
    {
      this.retentionTime := retentionTime;
      self := this;
    }

    method SetDateTimePattern(dateTimePattern: JString) returns (self: DataExpirationConfig)
      modifies this
      ensures self == this
      ensures Snapshot() == old(Snapshot()).(dateTimePattern := dateTimePattern)
    {
      this.dateTimePattern := dateTimePattern;
      self := this;
    }

    method SetNumberDateFormat(numberDateFormat: JString) returns (self: DataExpirationConfig)
      modifies this
      ensures self == this
      ensures Snapshot() == old(Snapshot()).(numberDateFormat := numberDateFormat)
    {
      this.numberDateFormat := numberDateFormat;
      self := this;
    }

    method SetSince(since: Option<Since>) returns (self: DataExpirationConfig)
      modifies this
      ensures self == this
      ensures Snapshot() == old(Snapshot()).(since := since)
    {
      this.since := since;
      self := this;
    }

    /** equals(Object): the same object, or another DataExpirationConfig whose
        seven fields compare equal. Any other object, and null, is unequal. */
    function Equals(o: object?): (eq: bool)
      reads this, o
      ensures eq <==> o is DataExpirationConfig && (o as DataExpirationConfig).Snapshot() == Snapshot()
    {
      if this == o then true
      else if !(o is DataExpirationConfig) then false
      else
        var config := o as DataExpirationConfig;
        ConfigEquals(Snapshot(), config.Snapshot())
    }
  }
}

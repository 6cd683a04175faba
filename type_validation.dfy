/**
 * `validate_type`: a fixed table from expected-type name to a runtime-type
 * test. The table's keys are the closed vocabulary `SqlType`; a name that is
 * not a key of the table rejects every value (fail-closed, no exception).
 */
module TypeValidation {
  import opened Options
  import opened PyValues

  /** The keys of the validator table, one per expected-type name. */
  datatype SqlType =
    | CharacterVarying
    | Text
    | Integer
    | SmallInt
    | BigInt
    | Numeric
    | Real
    | DoublePrecision
    | DateType
    | TimestampWithoutTimeZone

  /** The expected-type name under which each validator is registered. */
  function TypeName(t: SqlType): string {
    match t
    case CharacterVarying => "character varying"
    case Text => "text"
    case Integer => "integer"
    case SmallInt => "smallint"
    case BigInt => "bigint"
    case Numeric => "numeric"
    case Real => "real"
    case DoublePrecision => "double precision"
    case DateType => "date"
    case TimestampWithoutTimeZone => "timestamp without time zone"
  }

  /** The validator table's keys: each expected-type name with the type it registers. */
  const TypeValidators: map<string, SqlType> := map[
    "character varying" := CharacterVarying,
    "text" := Text,
    "integer" := Integer,
    "smallint" := SmallInt,
    "bigint" := BigInt,
    "numeric" := Numeric,
    "real" := Real,
    "double precision" := DoublePrecision,
    "date" := DateType,
    "timestamp without time zone" := TimestampWithoutTimeZone
  ]

  /** `type_validators.get(name)`: the type registered under `name`, if any. */
  function LookupType(name: string): Option<SqlType> {
    if name in TypeValidators then Some(TypeValidators[name]) else None
  }

  const SmallIntMin: int := -32768
  const SmallIntMax: int := 32767
  const BigIntMin: int := -9223372036854775808
  const BigIntMax: int := 9223372036854775807

  /** The validator registered for `t`, applied to `v`. */
  predicate Accepts(t: SqlType, v: Value) {
    match t
    case CharacterVarying => IsStr(v)
    case Text => IsStr(v)
    case Integer => IsInt(v)
    case SmallInt => IsInt(v) && SmallIntMin <= IntValue(v) <= SmallIntMax
    case BigInt => IsInt(v) && BigIntMin <= IntValue(v) <= BigIntMax
    case Numeric => IsInt(v) || IsFloat(v) || IsDecimal(v)
    case Real => IsFloat(v)
    case DoublePrecision => IsFloat(v)
    case DateType => IsDate(v)
    case TimestampWithoutTimeZone => IsDateTime(v)
  }

  /** Whether `value` has the runtime type `expectedType` names; false for an unknown name. */
  predicate ValidateType(value: Value, expectedType: string) {
    match LookupType(expectedType)
    case Some(t) => Accepts(t, value)
    case None => false
  }

  /** Looking up a registered name finds its own validator. */
  lemma LookupTypeRoundTrip(t: SqlType)
    ensures LookupType(TypeName(t)) == Some(t)
  {
  }

  /** A lookup succeeds only on a registered name, and then on that name's validator. */
  lemma LookupTypeSound(name: string)
    ensures LookupType(name).Some? <==> exists t :: TypeName(t) == name
    ensures LookupType(name).Some? ==> TypeName(LookupType(name).value) == name
  {
  }

  /** Validating against a registered name is applying that name's validator. */
  lemma ValidateKnownName(value: Value, t: SqlType)
    ensures ValidateType(value, TypeName(t)) == Accepts(t, value)
  {
  }

  /** A name that is not a key of the table rejects every value. */
  lemma UnknownNameRejects(value: Value, expectedType: string)
    requires forall t :: TypeName(t) != expectedType
    ensures !ValidateType(value, expectedType)
  {
    LookupTypeSound(expectedType);
  }

  /** 'character varying' and 'text' accept exactly the strings. */
  lemma StringTypes(value: Value)
    ensures ValidateType(value, "character varying") <==> value.Str?
    ensures ValidateType(value, "text") <==> value.Str?
  {
  }

  /**
   * 'integer' accepts exactly the Python ints (bools included); 'smallint' and
   * 'bigint' add an inclusive range check on the integer's value.
   */
  lemma IntegerTypes(value: Value)
    ensures ValidateType(value, "integer") <==> value.Int? || value.Bool?
    ensures ValidateType(value, "smallint") <==>
      (value.Int? && -32768 <= value.i <= 32767) || value.Bool?
    ensures ValidateType(value, "bigint") <==>
      (value.Int? && -9223372036854775808 <= value.i <= 9223372036854775807) || value.Bool?
  {
  }

  /** Both range checks are inclusive: the bounds pass, one beyond either bound fails. */
  lemma IntegerRangeBounds()
    ensures ValidateType(Int(-32768), "smallint") && ValidateType(Int(32767), "smallint")
    ensures !ValidateType(Int(-32769), "smallint") && !ValidateType(Int(32768), "smallint")
    ensures ValidateType(Int(-9223372036854775808), "bigint")
    ensures ValidateType(Int(9223372036854775807), "bigint")
    ensures !ValidateType(Int(-9223372036854775809), "bigint")
    ensures !ValidateType(Int(9223372036854775808), "bigint")
  {
  }

  /** smallint-valid implies bigint-valid implies integer-valid implies numeric-valid. */
  lemma IntegerWidthsNest(value: Value)
    ensures ValidateType(value, "smallint") ==> ValidateType(value, "bigint")
    ensures ValidateType(value, "bigint") ==> ValidateType(value, "integer")
    ensures ValidateType(value, "integer") ==> ValidateType(value, "numeric")
  {
  }

  /** 'numeric' accepts ints, floats and Decimals, and nothing else:
      strings, dates, datetimes and None fail. */
  lemma NumericType(value: Value)
    ensures ValidateType(value, "numeric") <==>
      value.Int? || value.Bool? || value.Float? || value.Decimal?
  {
  }

  /** 'real' and 'double precision' accept floats only: no int, bool or Decimal. */
  lemma FloatTypes(value: Value)
    ensures ValidateType(value, "real") <==> value.Float?
    ensures ValidateType(value, "double precision") <==> value.Float?
  {
  }

  /** 'date' accepts dates and datetimes; 'timestamp without time zone' only datetimes. */
  lemma DateTypes(value: Value)
    ensures ValidateType(value, "date") <==> value.Date? || value.DateTime?
    ensures ValidateType(value, "timestamp without time zone") <==> value.DateTime?
  {
  }

  /**
   * Subclassing as `isinstance` sees it: a bool passes the integer family and
   * a datetime passes 'date', while a plain date fails the timestamp check.
   */
  lemma SubclassInstances(b: bool)
    ensures ValidateType(Bool(b), "integer") && ValidateType(Bool(b), "smallint")
    ensures ValidateType(Bool(b), "bigint") && ValidateType(Bool(b), "numeric")
    ensures ValidateType(DateTime, "date")
    ensures !ValidateType(Date, "timestamp without time zone")
  {
  }

  /** None passes no expected type, known or not. */
  lemma NoneRejected(expectedType: string)
    ensures !ValidateType(PyNone, expectedType)
  {
  }
}

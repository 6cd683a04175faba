/**
 * The runtime values a PostgreSQL driver hands back for one cell of a fetched
 * row, as Python sees them, and the `isinstance` tests the type check uses.
 * Floats, Decimals, dates and datetimes only ever have their type checked, never
 * computed with, so they are opaque tags here.
 */
module PyValues {

  datatype Value =
    | Str(s: string)      // str
    | Int(i: int)         // int (unbounded, as in Python)
    | Bool(b: bool)       // bool, a subclass of int
    | Float               // float
    | Decimal             // decimal.Decimal
    | Date                // datetime.date
    | DateTime            // datetime.datetime, a subclass of date
    | PyNone              // None (SQL NULL)
    | Other               // any other Python type (time, bytes, list, ...)

  /** isinstance(v, str) */
  predicate IsStr(v: Value) {
    v.Str?
  }

  /** isinstance(v, int): True and False are ints too, because bool subclasses int. */
  predicate IsInt(v: Value) {
    v.Int? || v.Bool?
  }

  /** The integer a Python int denotes; a bool compares as 0 or 1. */
  function IntValue(v: Value): int
    requires IsInt(v)
  {
    match v
    case Int(i) => i
    case Bool(b) => if b then 1 else 0
  }

  /** isinstance(v, float) */
  predicate IsFloat(v: Value) {
    v.Float?
  }

  /** isinstance(v, Decimal) */
  predicate IsDecimal(v: Value) {
    v.Decimal?
  }

  /** isinstance(v, date): a datetime is a date too, because datetime subclasses date. */
  predicate IsDate(v: Value) {
    v.Date? || v.DateTime?
  }

  /** isinstance(v, datetime) */
  predicate IsDateTime(v: Value) {
    v.DateTime?
  }
}

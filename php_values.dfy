/** PHP scalars as the plugin sees them, and PHP's `empty()` test on them. */
module PhpValues {

  /** A value that may be absent: an array key `isset()` finds or not. */
  datatype Option<+T> = None | Some(value: T)

  /** The part of an optional string, or "" when it is absent. */
  function OrEmpty(o: Option<string>): string
  {
    match o
    case None => ""
    case Some(s) => s
  }

  /**
   * The scalars that reach the plugin: option values loaded from the
   * database, fields of the saved settings form, and the arguments
   * WordPress hands to the filters (`pre_option_*` filters receive `false`).
   */
  datatype Value = Null | Bool(b: bool) | Int(i: int) | Str(s: string)

  /** PHP's `empty()`: null, false, 0, "" and "0" are empty; every other scalar is not. */
  predicate IsEmpty(v: Value)
  {
    match v
    case Null => true
    case Bool(b) => !b
    case Int(i) => i == 0
    case Str(s) => s == "" || s == "0"
  }
}

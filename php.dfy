/**
 * The few PHP value semantics the modelled code depends on: nullable
 * references and the `(bool)` cast.
 */
module Php {

  /** A PHP value that may be `null`. */
  datatype Option<T> = None | Some(value: T)

  /** The scalar PHP values a setter can be handed. */
  datatype Value = Null | Bool(b: bool) | Int(i: int) | Str(s: string)

  /**
   * PHP's `(bool)` cast: null, false, 0, "" and "0" are false, every other
   * scalar is true.
   */
  function ToBool(v: Value): (r: bool)
    ensures r <==> v !in {Null, Bool(false), Int(0), Str(""), Str("0")}
  {
    match v
    case Null => false
    case Bool(b) => b
    case Int(i) => i != 0
    case Str(s) => !(s == "" || s == "0")
  }
}

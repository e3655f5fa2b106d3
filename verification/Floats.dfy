/** Python floats, as far as the models tell them apart. */
module Floats {
  import opened Results

  datatype Float = NaN | Infinite(negative: bool) | Finite(value: real)

  /** Python's `int()` of a float: towards zero, and raising unless the float is finite. */
  function ToInt(f: Float): Option<int> {
    match f
    case Finite(r) => Some(if r >= 0.0 then r.Floor else -((-r).Floor))
    case _ => None
  }
}

/** Option stands for a Go pointer that may be nil, Result for a value-or-error pair, Number for a float64. */
module Wrappers {
  datatype Option<+T> = None | Some(value: T) {
    function GetOr(default: T): T {
      match this
      case Some(v) => v
      case None => default
    }
  }

  datatype Result<+T, +E> = Ok(value: T) | Err(error: E)

  /** A float64, rounding apart. Comparisons with NaN are false. */
  datatype Number = Finite(value: real) | PositiveInfinity | NegativeInfinity | NaN {
    predicate Below(x: real) { NegativeInfinity? || (Finite? && value < x) }
    predicate Above(x: real) { PositiveInfinity? || (Finite? && value > x) }
  }
}

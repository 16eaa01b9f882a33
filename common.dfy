/** Small value types shared by the geometry and the measurement models. */
module Common {

  datatype Option<+T> = None | Some(value: T)

  /** The outcome of an operation that the source ends by throwing. */
  datatype Result<+T, +E> = Ok(value: T) | Err(error: E)

  /** A point in image coordinates (Java's Point2, doubles taken as reals). */
  datatype Point = Point(x: real, y: real)

  /** A Java double that is either NaN or a (finite) real number. */
  datatype Value = NaN | Val(v: real)

  /** Java double multiplication: NaN is absorbing. */
  function Mul(a: Value, b: Value): (r: Value)
    ensures r.Val? <==> a.Val? && b.Val?
    ensures r.Val? ==> r.v == a.v * b.v
  {
    if a.Val? && b.Val? then Val(a.v * b.v) else NaN
  }
}

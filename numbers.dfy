/** Values shared by the three harmonic-analysis routines: optional arguments,
    results that carry the routines' assertion failures, complex coefficients
    with exact parts, and Python's truthiness of an optional number. */
module Numbers {

  /** An optional argument; `None` is Python's `None`. */
  datatype Option<+T> = None | Some(value: T)

  /** The outcome of a routine that may fail an assertion or an index check. */
  datatype Result<+T, +E> = Success(value: T) | Failure(error: E)

  /** A complex number with exact real parts (floating point is not modelled). */
  datatype Complex = Complex(re: real, im: real) {
    function Add(other: Complex): (r: Complex)
      ensures r.re == re + other.re && r.im == im + other.im
    {
      Complex(re + other.re, im + other.im)
    }
  }

  /** The value a masked assignment `coefs[mask] = 0` writes. */
  const Zero: Complex := Complex(0.0, 0.0)

  /** Python truthiness of an optional number: `None` and `0` are both false. */
  predicate Truthy(x: Option<real>)
    ensures Truthy(x) <==> x !in {None, Some(0.0)}
  {
    x.Some? && x.value != 0.0
  }

  /** `np.abs` of a real number. */
  function Abs(x: real): (r: real)
    ensures r >= 0.0 && (r == x || r == -x)
  {
    if x < 0.0 then -x else x
  }
}

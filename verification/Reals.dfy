/** Magnitudes of real numbers. */
module Reals {
  function Abs(v: real): real {
    if v < 0.0 then -v else v
  }

  /** The product of two reals: the solver then meets it as one term. */
  function Mul(a: real, b: real): real {
    a * b
  }
}

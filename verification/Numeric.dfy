/** Finite-value checks and clamps shared by the post-processing stages. */
module Numeric {
  import opened Reals

  /** Values beyond this magnitude are treated as not finite. */
  const FINITE_LIMIT: real := 1e100

  predicate IsFinite(v: real) { Abs(v) <= FINITE_LIMIT }

  function Clamp(v: real, lo: real, hi: real): real { if v < lo then lo else if v > hi then hi else v }

  function Clamp01(v: real): real { Clamp(v, 0.0, 1.0) }

  /** What survives of a magnitude: non-finite and negative values become zero. */
  function Sanitised(v: real): (r: real)
    ensures 0.0 <= r <= FINITE_LIMIT
  {
    if !IsFinite(v) || v < 0.0 then 0.0 else v
  }
}

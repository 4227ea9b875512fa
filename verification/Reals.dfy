/** Rounding and comparing real numbers. */
module Reals {

  function Floor(r: real): int {
    r.Floor
  }

  function Ceil(r: real): int {
    -((-r).Floor)
  }

  function Min(a: real, b: real): real {
    if a <= b then a else b
  }

  function Max(a: real, b: real): real {
    if a >= b then a else b
  }
}

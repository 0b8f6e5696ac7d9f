/** Math.min, on whole numbers and on times with fractions. */
module Arithmetic {
  function Min(a: int, b: int): int {
    if a <= b then a else b
  }

  function MinReal(a: real, b: real): real {
    if a <= b then a else b
  }
}

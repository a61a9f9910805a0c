/** The two minimums the components take: of two lengths and of two numbers. */
module Numbers {

  /** The bound of `slice(0, n)` on a list of length `len`: `Min(n, len)`. */
  function Min(a: int, b: int): (r: int)
    ensures r <= a && r <= b
    ensures r == a || r == b
  {
    if a <= b then a else b
  }

  /** `Math.min` on two finite numbers. */
  function MinReal(a: real, b: real): (r: real)
    ensures r <= a && r <= b
    ensures r == a || r == b
  {
    if a <= b then a else b
  }
}

/** The generic minimum of math/math.go, on integers. */
module MathMin {

  /** The smaller argument; on a tie, the first. */
  function Min(a: int, b: int): (m: int)
    ensures m <= a && m <= b
    ensures m == a || m == b
    ensures a <= b ==> m == a
  {
    if a > b then b else a
  }
}

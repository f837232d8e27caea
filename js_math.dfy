/** JavaScript's Math.max and Math.min on the numbers the game uses for positions.
    Positions are exact reals here, not IEEE doubles. */
module JsMath {

  function Max(a: real, b: real): (m: real)
    ensures m >= a && m >= b
    ensures m == a || m == b
  {
    if a >= b then a else b
  }

  function Min(a: real, b: real): (m: real)
    ensures m <= a && m <= b
    ensures m == a || m == b
  {
    if a <= b then a else b
  }
}

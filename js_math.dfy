/** The parts of JavaScript's `Math` the charts use, on exact reals. */
module JsMath {
  /** `Math.abs`. */
  function Abs(x: real): (r: real)
    ensures r >= 0.0 && (r == x || r == -x)
  {
    if x < 0.0 then -x else x
  }
}

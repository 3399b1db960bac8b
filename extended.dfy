/** Distances as the JavaScript numbers hold them: finite values and `Infinity`. */
module Extended {
  /** A finite distance or `Infinity`. */
  datatype Dist = Finite(v: real) | Infinite

  /** The comparison `a > b`. */
  predicate Greater(a: Dist, b: Dist)
  {
    match a
    case Infinite => b.Finite?
    case Finite(x) => b.Finite? && x > b.v
  }

  /** `Math.min(a, b)`. */
  function Smaller(a: Dist, b: Dist): (r: Dist)
    ensures !Greater(r, a) && !Greater(r, b) && (r == a || r == b)
  {
    if Greater(a, b) then b else a
  }
}

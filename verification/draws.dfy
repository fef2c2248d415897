/** How the source's random expressions are modelled: each
    `Math.floor(Math.random() * n)` becomes a caller-supplied integer that
    must lie where that expression can land. */
module Draws {

  /** The values `Math.floor(Math.random() * n)` can take for an integer n:
      0..n-1, or n..0 when n is not positive. */
  predicate InDrawRange(d: int, n: int) {
    if n > 0 then 0 <= d < n else n <= d <= 0
  }

  /** Where `Math.floor(Math.random() * (hi - lo + 1)) + lo` lands: lo..hi,
      or hi+1..lo when the range is inverted. */
  predicate DrawnBetween(v: int, lo: int, hi: int) {
    if lo <= hi then lo <= v <= hi else hi < v <= lo
  }

  lemma DrawLandsBetween(d: int, lo: int, hi: int)
    requires InDrawRange(d, hi - lo + 1)
    ensures DrawnBetween(lo + d, lo, hi)
  {
  }
}

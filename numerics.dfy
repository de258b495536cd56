/** Scalar helpers shared by the models: Python's abs and max, and numpy.clip, over reals. */
module Numerics {

  /** abs(x) */
  function Abs(x: real): (r: real)
    ensures r >= 0.0
    ensures r == x || r == -x
  {
    if x < 0.0 then -x else x
  }

  /** Python's max(a, b): the larger of the two, a on a tie. */
  function Max(a: real, b: real): (r: real)
    ensures r >= a && r >= b
    ensures r == a || r == b
  {
    if b > a then b else a
  }

  /** numpy.clip(x, lo, hi), that is min(max(x, lo), hi). */
  function Clip(x: real, lo: real, hi: real): (r: real)
    ensures r <= hi
    ensures lo <= hi ==> lo <= r
    ensures lo <= x <= hi ==> r == x
    ensures x < lo <= hi ==> r == lo
    ensures x > hi ==> r == hi
  {
    var atLeastLo := if x < lo then lo else x;
    if atLeastLo > hi then hi else atLeastLo
  }

  /** A fraction g in [0, 1] of a non-negative d lies in [0, d]. */
  lemma ScaledBounds(g: real, d: real)
    requires 0.0 <= g <= 1.0 && d >= 0.0
    ensures 0.0 <= g * d <= d
  {
    assert d - g * d == (1.0 - g) * d;
  }
}

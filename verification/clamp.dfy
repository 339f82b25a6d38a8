/**
 * `Comparable.clamped(to:)`, instantiated on integers: `min(max(x, lo), hi)`.
 * Swift's closed range `lo...hi` cannot be formed with `lo > hi`, so the
 * range's bounds are ordered.
 */
module Clamping {

  function Clamped(x: int, lo: int, hi: int): (r: int)
    requires lo <= hi
    ensures lo <= r <= hi
    ensures lo <= x <= hi ==> r == x
    ensures x < lo ==> r == lo
    ensures x > hi ==> r == hi
  {
    var m := if x > lo then x else lo;
    if m < hi then m else hi
  }

  /** Clamping twice is clamping once. */
  lemma ClampedIdempotent(x: int, lo: int, hi: int)
    requires lo <= hi
    ensures Clamped(Clamped(x, lo, hi), lo, hi) == Clamped(x, lo, hi)
  {
  }

  /** Clamping keeps the order of values. */
  lemma ClampedMonotone(x: int, y: int, lo: int, hi: int)
    requires lo <= hi && x <= y
    ensures Clamped(x, lo, hi) <= Clamped(y, lo, hi)
  {
  }
}

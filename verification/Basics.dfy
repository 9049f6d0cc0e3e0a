/** Helpers shared by every component. The source's floats are modelled as exact reals. */
module Basics {

  datatype Option<+T> = None | Some(value: T)

  function Min(a: real, b: real): real {
    if a <= b then a else b
  }

  function Max(a: real, b: real): real {
    if a >= b then a else b
  }

  function Abs(x: real): real {
    if x < 0.0 then -x else x
  }

  function Sum(xs: seq<real>): real {
    if |xs| == 0 then 0.0 else Sum(xs[..|xs| - 1]) + xs[|xs| - 1]
  }

  /** The last `n` elements: what a bounded history keeps. */
  function LastUpTo<T>(xs: seq<T>, n: nat): seq<T> {
    if |xs| <= n then xs else xs[|xs| - n..]
  }

  lemma LastUpToAppends<T>(xs: seq<T>, x: T, n: nat)
    ensures LastUpTo(LastUpTo(xs, n) + [x], n) == LastUpTo(xs + [x], n)
  {
  }

  lemma MulNonNegative(a: real, b: real)
    requires 0.0 <= a && 0.0 <= b
    ensures 0.0 <= a * b
  {
  }

  lemma FactorNonNegative(a: real, b: real)
    requires 0.0 < b && 0.0 <= a * b
    ensures 0.0 <= a
  {
  }

  lemma MulPositive(a: real, b: real)
    requires 0.0 < a && 0.0 < b
    ensures 0.0 < a * b
  {
  }

  lemma ProductIsZeroIff(a: real, b: real)
    ensures a * b == 0.0 <==> a == 0.0 || b == 0.0
  {
    if a > 0.0 && b > 0.0 { MulPositive(a, b); }
    if a > 0.0 && b < 0.0 { MulPositive(a, -b); assert a * -b == -(a * b); }
    if a < 0.0 && b > 0.0 { MulPositive(-a, b); assert -a * b == -(a * b); }
    if a < 0.0 && b < 0.0 { MulPositive(-a, -b); assert -a * -b == a * b; }
  }

  function Times(k: int, size: real): real {
    k as real * size
  }

  lemma OneMore(k: int, size: real)
    ensures Times(0, size) == 0.0
    ensures Times(k + 1, size) == Times(k, size) + size
  {
  }

  lemma QuotientAntitone(part: real, small: real, large: real)
    requires 0.0 <= part && 0.0 < small <= large
    ensures part / large <= part / small
  {
    var x, y := part / small, part / large;
    assert x * small == part && y * large == part;
    MulNonNegative(y, large - small);
    assert (x - y) * small == y * (large - small);
    FactorNonNegative(x - y, small);
  }
}

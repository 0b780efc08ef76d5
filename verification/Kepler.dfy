/**
 The fixed-point iteration of `EccentricAnomaly`. The sine is any function bounded by 1
 that changes no faster than its argument; real arithmetic stands for `double`.
 */
module Kepler {
  import opened NavParity
  import opened NavFrame
  import opened NavBin
  import opened Ephemeris

  /** `fabs(x) <= b`. */
  predicate Within(x: real, b: real) { -b <= x <= b }

  function Abs(x: real): real { if x < 0.0 then -x else x }

  ghost predicate SineLike(sin: real -> real) {
    && (forall x :: Within(sin(x), 1.0))
    && (forall x, y :: Within(sin(x) - sin(y), Abs(x - y)))
  }

  const TOLERANCE: real := 0.0000000001

  function Half(n: nat): (h: real)
    ensures h > 0.0
  {
    if n == 0 then 1.0 else Half(n - 1) / 2.0
  }

  lemma HalfTo34()
    ensures Half(34) < TOLERANCE
  {
    assert Half(10) == 1.0 / 1024.0;
    assert Half(20) == 1.0 / 1048576.0;
    assert Half(30) == 1.0 / 1073741824.0;
  }

  /** The eccentricity that subframe 2 can carry is below one half. */
  lemma EccentricityBelowHalf(d: SubframeBits)
    ensures 0.0 <= Scaled33(Wide(d, 166)) < 0.5
  {
    GetBound(d, 166, 8); GetBound(d, 180, 24); Pow2Is();
  }

  // Products are named, so that only these lemmas multiply two variables.
  function Times(x: real, y: real): real { x * y }

  lemma TimesSub(e: real, x: real, y: real)
    ensures Times(e, x - y) == Times(e, x) - Times(e, y)
  {
  }

  lemma TimesAdd(e: real, x: real, y: real)
    ensures Times(e, x + y) == Times(e, x) + Times(e, y)
  {
  }

  lemma TimesNonNegative(x: real, y: real)
    requires 0.0 <= x && 0.0 <= y
    ensures 0.0 <= Times(x, y)
  {
  }

  lemma HalfMinus(e: real, y: real)
    ensures Times(0.5 - e, y) == y / 2.0 - Times(e, y)
  {
  }

  /** Multiplying by `e` at least halves a bound. */
  lemma Contracts(e: real, s: real, bound: real)
    requires 0.0 <= e < 0.5 && Within(s, bound)
    ensures Within(Times(e, s), Times(e, bound)) && Times(e, bound) <= bound / 2.0
  {
    hide Times;
    TimesNonNegative(e, bound - s);
    TimesSub(e, bound, s);
    TimesNonNegative(e, bound + s);
    TimesAdd(e, bound, s);
    TimesNonNegative(0.5 - e, bound);
    HalfMinus(e, bound);
  }

  /** Two rounds, from `a` to `b` and from `b` to `c`; `sa` and `sb` are the sines. */
  lemma StepHalves(M: real, e: real, sa: real, b: real, sb: real, c: real, bound: real)
    requires 0.0 <= e < 0.5 && b == M + Times(e, sa) && c == M + Times(e, sb) && Within(sb - sa, bound)
    ensures Within(c - b, Times(e, bound)) && Within(c - b, bound / 2.0)
  {
    hide Times;
    TimesSub(e, sb, sa);
    Contracts(e, sb - sa, bound);
  }

  lemma Lipschitz(sin: real -> real, x: real, y: real, bound: real)
    requires SineLike(sin) && Within(x - y, bound)
    ensures Within(sin(x), 1.0) && Within(sin(x) - sin(y), bound)
  {
    assert Within(sin(x) - sin(y), Abs(x - y));
  }

  /** Kepler's equation holds up to `e` times the tolerance. */
  ghost predicate Solves(M: real, e: real, sin: real -> real, E: real) {
    Within(M + Times(e, sin(E)) - E, Times(e, TOLERANCE))
  }

  lemma Round(M: real, e: real, sin: real -> real, i: nat, last: real, sa: real, b: real, c: real)
    requires 0.0 <= e < 0.5 && SineLike(sin) && b == M + Times(e, sa) && c == M + Times(e, sin(b))
    requires if i == 0 then sa == 0.0 else sa == sin(last) && Within(b - last, Half(i))
    ensures Within(c - b, Half(i + 1))
  {
    hide Times, SineLike;
    if i == 0 {
      Lipschitz(sin, b, b, 0.0);
      StepHalves(M, e, sa, b, sin(b), c, 1.0);
    } else {
      var h := Half(i);
      Lipschitz(sin, b, last, h);
      StepHalves(M, e, sa, b, sin(b), c, h);
      assert Half(i + 1) == h / 2.0;
    }
  }

  lemma Stopped(M: real, e: real, sin: real -> real, a: real, b: real)
    requires 0.0 <= e < 0.5 && SineLike(sin) && b == M + Times(e, sin(a)) && Within(b - a, TOLERANCE)
    ensures Solves(M, e, sin, b) && Within(b - M, e)
  {
    TimesOne(e);
    hide Times, SineLike;
    Lipschitz(sin, b, a, TOLERANCE);
    StepHalves(M, e, sin(a), b, sin(b), M + Times(e, sin(b)), TOLERANCE);
    Lipschitz(sin, a, a, 0.0);
    Contracts(e, sin(a), 1.0);
  }

  lemma TimesOne(e: real)
    ensures Times(e, 1.0) == e && Times(e, 0.0) == 0.0
  {
  }

  /** Stops within 34 rounds, far from the limit of 10000, with a solution of Kepler's
      equation no further than `e` from the mean anomaly. */
  method EccentricAnomaly(M_k: real, e: real, sin: real -> real) returns (E_k: real, i: nat)
    requires 0.0 <= e < 0.5 && SineLike(sin)
    ensures i < 34 && Solves(M_k, e, sin, E_k) && Within(E_k - M_k, e)
  {
    TimesOne(e);
    hide Times, SineLike, Solves, Half;
    E_k := M_k;
    i := 0;
    ghost var s, last := 0.0, M_k;       // E_k == M_k + e * s, s the sine of `last`
    while i < 10000
      invariant 0 <= i <= 33 && E_k == M_k + Times(e, s)
      invariant if i == 0 then s == 0.0 else s == sin(last) && Within(E_k - last, Half(i))
    {
      var temp := E_k;
      E_k := M_k + Times(e, sin(E_k));
      Round(M_k, e, sin, i, last, s, temp, E_k);
      if Abs(E_k - temp) < TOLERANCE {
        Stopped(M_k, e, sin, temp, E_k);
        break;
      }
      HalfTo34();
      last, s := temp, sin(temp);
      i := i + 1;
    }
  }
}

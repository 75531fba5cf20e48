/** One-dimensional piecewise-linear interpolation as numpy's np.interp(x, xp, fp) computes
    it: below the first knot the first value, at or beyond the last knot the last value, and
    otherwise the straight line between the two knots that bracket the point. numpy asks for
    non-decreasing knots and as many values as knots, and refuses an empty set of knots. */
module Interpolation {
  import opened RealSeqs

  /** The knots and values np.interp accepts. */
  predicate Knots(xp: seq<real>, fp: seq<real>)
  {
    |xp| >= 1 && |xp| == |fp| && NonDecreasing(xp)
  }

  /** The last knot at or below v. */
  function LastAtMost(xp: seq<real>, v: real): (j: nat)
    requires |xp| >= 1 && xp[0] <= v
    ensures j < |xp| && xp[j] <= v
    ensures forall i :: j < i < |xp| ==> xp[i] > v
    decreases |xp|
  {
    if xp[|xp| - 1] <= v then |xp| - 1
    else
      var j := LastAtMost(xp[..|xp| - 1], v);
      assert forall i :: 0 <= i < |xp| - 1 ==> xp[..|xp| - 1][i] == xp[i];
      j
  }

  /** r lies between a and b, whichever of the two is larger. */
  predicate Between(r: real, a: real, b: real)
  {
    a <= r <= b || b <= r <= a
  }

  /** np.interp at one point v: numpy's default left and right values (the first and the
      last value) outside the knots, and inside them a value between the values at the two
      knots that bracket v. */
  function InterpAt(v: real, xp: seq<real>, fp: seq<real>): (r: real)
    requires Knots(xp, fp)
    ensures v < xp[0] ==> r == fp[0]
    ensures v >= xp[|xp| - 1] ==> r == fp[|xp| - 1]
    ensures xp[0] <= v < xp[|xp| - 1] ==>
      LastAtMost(xp, v) + 1 < |xp| && Between(r, fp[LastAtMost(xp, v)], fp[LastAtMost(xp, v) + 1])
  {
    var last := |xp| - 1;
    if v < xp[0] then fp[0]
    else if v >= xp[last] then fp[last]
    else
      var j := LastAtMost(xp, v);
      Bracket(xp, v);
      LerpBetween(fp[j], fp[j + 1], xp[j], xp[j + 1], v);
      Lerp(fp[j], fp[j + 1], xp[j], xp[j + 1], v)
  }

  /** The straight line through (x0, a) and (x1, b), evaluated at v. */
  function Lerp(a: real, b: real, x0: real, x1: real, v: real): real
    requires x0 < x1
  {
    a + (v - x0) * (b - a) / (x1 - x0)
  }

  /** np.interp(x, xp, fp): every point of x interpolated on its own. */
  function Interp(x: seq<real>, xp: seq<real>, fp: seq<real>): (r: seq<real>)
    requires Knots(xp, fp)
    ensures |r| == |x|
    ensures forall i :: 0 <= i < |x| ==> r[i] == InterpAt(x[i], xp, fp)
  {
    seq(|x|, i requires 0 <= i < |x| => InterpAt(x[i], xp, fp))
  }

  /** v limited to [lo, hi]. */
  function Clamp(v: real, lo: real, hi: real): real
  {
    if v < lo then lo else if v > hi then hi else v
  }

  /** Inside the knots, the bracketing pair is strictly increasing and v lies between them. */
  lemma Bracket(xp: seq<real>, v: real)
    requires |xp| >= 1 && NonDecreasing(xp)
    requires xp[0] <= v < xp[|xp| - 1]
    ensures LastAtMost(xp, v) + 1 < |xp|
    ensures xp[LastAtMost(xp, v)] <= v < xp[LastAtMost(xp, v) + 1]
  {
  }

  /** On the segment the line is a + t (b - a) for the fraction t = (v - x0) / (x1 - x0)
      of the way from x0 to v, which lies in [0, 1]. */
  lemma LerpFraction(a: real, b: real, x0: real, x1: real, v: real)
    requires x0 <= v <= x1 && x0 < x1
    ensures 0.0 <= (v - x0) / (x1 - x0) <= 1.0
    ensures Lerp(a, b, x0, x1, v) == a + (v - x0) / (x1 - x0) * (b - a)
  {
    DivUnit(v - x0, x1 - x0);
    assert (v - x0) * (b - a) / (x1 - x0) == (v - x0) / (x1 - x0) * (b - a);
  }

  lemma DivUnit(a: real, d: real)
    requires 0.0 <= a <= d && d > 0.0
    ensures 0.0 <= a / d <= 1.0
  {
  }

  /** The point a fraction t in [0, 1] of the way from a to b lies between a and b. */
  lemma BetweenEnds(a: real, b: real, t: real, l: real)
    requires 0.0 <= t <= 1.0 && l == a + t * (b - a)
    ensures a <= b ==> a <= l <= b
    ensures b <= a ==> b <= l <= a
  {
    assert l - a == t * (b - a);
    assert b - l == (1.0 - t) * (b - a);
    if a <= b {
      MulNonneg(t, b - a);
      MulNonneg(1.0 - t, b - a);
    } else {
      MulNonneg(t, a - b);
      MulNonneg(1.0 - t, a - b);
    }
  }

  lemma MulNonneg(x: real, y: real)
    requires x >= 0.0 && y >= 0.0
    ensures x * y >= 0.0
  {
  }

  /** On the segment the line stays between its two end values. */
  lemma LerpBetween(a: real, b: real, x0: real, x1: real, v: real)
    requires x0 <= v <= x1 && x0 < x1
    ensures Between(Lerp(a, b, x0, x1, v), a, b)
  {
    LerpFraction(a, b, x0, x1, v);
    BetweenEnds(a, b, (v - x0) / (x1 - x0), Lerp(a, b, x0, x1, v));
  }

  /** On the segment the line stays within any bounds both end values keep. */
  lemma LerpBounded(a: real, b: real, x0: real, x1: real, v: real, lo: real, hi: real)
    requires x0 <= v <= x1 && x0 < x1
    requires lo <= a <= hi && lo <= b <= hi
    ensures lo <= Lerp(a, b, x0, x1, v) <= hi
  {
    LerpBetween(a, b, x0, x1, v);
  }

  /** The line through (x0, x0) and (x1, x1) is the identity. */
  lemma LerpSelf(x0: real, x1: real, v: real)
    requires x0 < x1
    ensures Lerp(x0, x1, x0, x1, v) == v
  {
    var d := x1 - x0;
    assert (v - x0) * d / d == v - x0;
  }

  /** Interpolating the knots against themselves limits each point to the knots' range: a
      point inside the range is returned as it is. */
  lemma InterpAtIdentity(v: real, xp: seq<real>)
    requires Knots(xp, xp)
    ensures InterpAt(v, xp, xp) == Clamp(v, xp[0], xp[|xp| - 1])
  {
    var last := |xp| - 1;
    if xp[0] <= v < xp[last] {
      Bracket(xp, v);
      var j := LastAtMost(xp, v);
      LerpSelf(xp[j], xp[j + 1], v);
    }
  }

  lemma InterpIdentity(x: seq<real>, xp: seq<real>)
    requires Knots(xp, xp)
    ensures forall i :: 0 <= i < |x| ==> Interp(x, xp, xp)[i] == Clamp(x[i], xp[0], xp[|xp| - 1])
  {
    forall i | 0 <= i < |x|
      ensures Interp(x, xp, xp)[i] == Clamp(x[i], xp[0], xp[|xp| - 1])
    {
      InterpAtIdentity(x[i], xp);
    }
  }

  /** With strictly increasing knots, interpolating at a knot returns the value given there. */
  lemma InterpAtKnot(xp: seq<real>, fp: seq<real>, k: nat)
    requires Knots(xp, fp)
    requires forall i, j :: 0 <= i < j < |xp| ==> xp[i] < xp[j]
    requires k < |xp|
    ensures InterpAt(xp[k], xp, fp) == fp[k]
  {
    var last := |xp| - 1;
    if k < last {
      var j := LastAtMost(xp, xp[k]);
      assert j == k;
      assert xp[k] < xp[last];
      assert InterpAt(xp[k], xp, fp) == Lerp(fp[k], fp[k + 1], xp[k], xp[k + 1], xp[k]);
    }
  }

  /** The interpolated value is a weighted mean of the two bracketing values, so it stays
      within any bounds that all the values keep. */
  lemma InterpAtBounded(v: real, xp: seq<real>, fp: seq<real>, lo: real, hi: real)
    requires Knots(xp, fp)
    requires forall i :: 0 <= i < |fp| ==> lo <= fp[i] <= hi
    ensures lo <= InterpAt(v, xp, fp) <= hi
  {
    var last := |xp| - 1;
    if xp[0] <= v < xp[last] {
      Bracket(xp, v);
      var j := LastAtMost(xp, v);
      LerpBounded(fp[j], fp[j + 1], xp[j], xp[j + 1], v, lo, hi);
    }
  }

  lemma InterpBounded(x: seq<real>, xp: seq<real>, fp: seq<real>, lo: real, hi: real)
    requires Knots(xp, fp)
    requires forall i :: 0 <= i < |fp| ==> lo <= fp[i] <= hi
    ensures forall i :: 0 <= i < |x| ==> lo <= Interp(x, xp, fp)[i] <= hi
  {
    forall i | 0 <= i < |x|
      ensures lo <= Interp(x, xp, fp)[i] <= hi
    {
      InterpAtBounded(x[i], xp, fp, lo, hi);
    }
  }

  /** Interpolating a constant gives that constant everywhere. */
  lemma InterpConstant(x: seq<real>, xp: seq<real>, fp: seq<real>, c: real)
    requires Knots(xp, fp)
    requires forall i :: 0 <= i < |fp| ==> fp[i] == c
    ensures forall i :: 0 <= i < |x| ==> Interp(x, xp, fp)[i] == c
  {
    InterpBounded(x, xp, fp, c, c);
  }
}

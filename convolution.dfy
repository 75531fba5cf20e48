/** Discrete linear convolution as numpy's np.convolve computes it, in its three modes.
    The full convolution of a (length N) and v (length M) has N + M - 1 samples,
    c[k] = sum over i of a[i] * v[k - i]; 'same' keeps max(N, M) of them starting at
    (min(N, M) - 1) / 2, and 'valid' keeps those where the shorter one lies wholly inside
    the longer, max(N, M) - min(N, M) + 1 of them. */
module Convolution {
  import opened RealSeqs

  /** The partial sum over i in [0, hi) of a[i] * v[k - i], taking only the terms whose
      kernel index k - i lies inside v. */
  function ConvSum(a: seq<real>, v: seq<real>, k: int, hi: nat): real
    requires hi <= |a|
    decreases hi
  {
    if hi == 0 then 0.0
    else ConvSum(a, v, k, hi - 1) + (if 0 <= k - (hi - 1) < |v| then a[hi - 1] * v[k - (hi - 1)] else 0.0)
  }

  /** np.convolve(a, v, mode='full'). numpy refuses empty operands. */
  function FullConv(a: seq<real>, v: seq<real>): (r: seq<real>)
    requires |a| >= 1 && |v| >= 1
    ensures |r| == |a| + |v| - 1
  {
    seq(|a| + |v| - 1, k requires 0 <= k < |a| + |v| - 1 => ConvSum(a, v, k, |a|))
  }

  /** np.convolve(a, v, mode='same'). */
  function ConvolveSame(a: seq<real>, v: seq<real>): (r: seq<real>)
    requires |a| >= 1 && |v| >= 1
    ensures |r| == Max(|a|, |v|)
  {
    var lo := (Min(|a|, |v|) - 1) / 2;
    FullConv(a, v)[lo..lo + Max(|a|, |v|)]
  }

  /** np.convolve(a, v, mode='valid'). */
  function ConvolveValid(a: seq<real>, v: seq<real>): (r: seq<real>)
    requires |a| >= 1 && |v| >= 1
    ensures |r| == Max(|a|, |v|) - Min(|a|, |v|) + 1
  {
    FullConv(a, v)[Min(|a|, |v|) - 1..Max(|a|, |v|)]
  }

  /** w / w.sum(): the weights rescaled to sum to one. */
  function Normalize(w: seq<real>): seq<real>
    requires Sum(w) != 0.0
  {
    Scale(w, Sum(w))
  }

  /** np.ones(m). */
  function Ones(m: nat): seq<real>
  {
    seq(m, _ => 1.0)
  }

  /** The sum over j in [0, upto) of d[j], counting only lo <= j < hi. */
  function MaskedSum(d: seq<real>, lo: int, hi: int, upto: nat): real
    requires upto <= |d|
    decreases upto
  {
    if upto == 0 then 0.0
    else MaskedSum(d, lo, hi, upto - 1) + (if lo <= upto - 1 < hi then d[upto - 1] else 0.0)
  }

  /** Sum of d[j] over j in [lo, hi) intersected with [0, |d|): a window that runs
      past either end of d counts the missing samples as zero. */
  function WindowSum(d: seq<real>, lo: int, hi: int): real
  {
    MaskedSum(d, lo, hi, |d|)
  }

  lemma {:induction false} MaskedSumInside(d: seq<real>, lo: int, hi: int, upto: nat)
    requires 0 <= lo <= hi && upto <= |d|
    ensures lo <= upto ==> MaskedSum(d, lo, hi, upto) == Sum(d[lo..Min(hi, upto)])
    ensures upto < lo ==> MaskedSum(d, lo, hi, upto) == 0.0
    decreases upto
  {
    if upto > 0 {
      MaskedSumInside(d, lo, hi, upto - 1);
      if lo <= upto - 1 < hi {
        assert d[lo..upto] == d[lo..upto - 1] + [d[upto - 1]];
        SumAppend(d[lo..upto - 1], [d[upto - 1]]);
      }
    }
  }

  /** A window that lies inside the data is the plain sum of its samples. */
  lemma WindowSumInside(d: seq<real>, lo: int, hi: int)
    requires 0 <= lo <= hi <= |d|
    ensures WindowSum(d, lo, hi) == Sum(d[lo..hi])
  {
    MaskedSumInside(d, lo, hi, |d|);
  }

  /** With a constant kernel c of length m, each full-convolution term is c times the
      sum of the data window [k - m + 1, k] that the kernel covers. */
  lemma {:induction false} ConvSumConstKernel(a: seq<real>, v: seq<real>, c: real, k: int, hi: nat)
    requires hi <= |a|
    requires forall t :: 0 <= t < |v| ==> v[t] == c
    ensures ConvSum(a, v, k, hi) == c * MaskedSum(a, k - |v| + 1, k + 1, hi)
    decreases hi
  {
    if hi > 0 {
      ConvSumConstKernel(a, v, c, k, hi - 1);
    }
  }

  /** With a constant kernel c, full-convolution output k is c times the data window that
      the kernel covers. */
  lemma ConstKernelWindow(a: seq<real>, v: seq<real>, c: real, k: int, lo: int, hi: int)
    requires forall t :: 0 <= t < |v| ==> v[t] == c
    requires lo == k - |v| + 1 && hi == k + 1
    ensures ConvSum(a, v, k, |a|) == c * WindowSum(a, lo, hi)
  {
    ConvSumConstKernel(a, v, c, k, |a|);
  }

  /** With a constant kernel c in the first operand, the full-convolution term k is c times
      the sum of the hi samples of v that end at k. */
  lemma {:induction false} ConvSumConstFirst(a: seq<real>, v: seq<real>, c: real, k: int, hi: nat)
    requires hi <= |a|
    requires forall t :: 0 <= t < |a| ==> a[t] == c
    requires 0 <= k - hi + 1 && k < |v|
    ensures ConvSum(a, v, k, hi) == c * Sum(v[k - hi + 1..k + 1])
    decreases hi
  {
    if hi > 0 {
      ConvSumConstFirst(a, v, c, k, hi - 1);
      assert v[k - hi + 1..k + 1][1..] == v[k - hi + 2..k + 1];
    }
  }

  /** One output of 'valid' mode is the full-convolution term min(N, M) - 1 places on. */
  lemma ValidAt(a: seq<real>, v: seq<real>, t: int)
    requires |a| >= 1 && |v| >= 1
    requires 0 <= t <= Max(|a|, |v|) - Min(|a|, |v|)
    ensures ConvolveValid(a, v)[t] == ConvSum(a, v, t + Min(|a|, |v|) - 1, |a|)
  {
  }

  /** The same for a first operand no longer than the second. */
  lemma ValidShortAt(a: seq<real>, v: seq<real>, t: int)
    requires 1 <= |a| <= |v|
    requires 0 <= t <= |v| - |a|
    ensures |ConvolveValid(a, v)| == |v| - |a| + 1
    ensures ConvolveValid(a, v)[t] == ConvSum(a, v, t + |a| - 1, |a|)
  {
    ValidAt(a, v, t);
  }

  /** 'valid' mode with a constant kernel c of length m no longer than v: output t is c
      times the sum of the m samples of v from t on. */
  lemma ValidConstKernelAt(a: seq<real>, v: seq<real>, c: real, m: int, t: int)
    requires |a| == m && 1 <= m <= |v|
    requires forall i :: 0 <= i < m ==> a[i] == c
    requires 0 <= t <= |v| - m
    ensures |ConvolveValid(a, v)| == |v| - m + 1
    ensures ConvolveValid(a, v)[t] == c * Sum(v[t..t + m])
  {
    var k := t + m - 1;
    ValidShortAt(a, v, t);
    ConvSumConstFirst(a, v, c, k, m);
    assert v[k - m + 1..k + 1] == v[t..t + m];
  }

  /** The normalized flat window of length m in 'valid' mode: output t is 1 / m times the
      sum of the m samples of v from t on. */
  lemma FlatValidAt(m: nat, v: seq<real>, t: int)
    requires 1 <= m <= |v| && 0 <= t <= |v| - m
    ensures Sum(Ones(m)) == m as real
    ensures |ConvolveValid(Normalize(Ones(m)), v)| == |v| - m + 1
    ensures ConvolveValid(Normalize(Ones(m)), v)[t] == 1.0 / m as real * Sum(v[t..t + m])
  {
    NormalizedOnes(m);
    ValidConstKernelAt(Normalize(Ones(m)), v, 1.0 / m as real, m, t);
  }

  /** The unit kernel [1] picks out one sample. */
  lemma {:induction false} ConvSumUnit(a: seq<real>, k: int, hi: nat)
    requires hi <= |a|
    ensures ConvSum(a, [1.0], k, hi) == if 0 <= k < hi then a[k] else 0.0
    decreases hi
  {
    if hi > 0 {
      ConvSumUnit(a, k, hi - 1);
    }
  }

  /** Convolving with the unit kernel in 'same' mode returns the data unchanged. */
  lemma SameUnitIdentity(a: seq<real>)
    requires |a| >= 1
    ensures ConvolveSame(a, [1.0]) == a
  {
    forall k | 0 <= k < |a|
      ensures ConvolveSame(a, [1.0])[k] == a[k]
    {
      ConvSumUnit(a, k, |a|);
    }
  }

  /** Convolving the unit kernel with v in 'valid' mode returns v unchanged. */
  lemma ValidUnitIdentity(v: seq<real>)
    requires |v| >= 1
    ensures ConvolveValid([1.0], v) == v
  {
    forall k | 0 <= k < |v|
      ensures ConvolveValid([1.0], v)[k] == v[k]
    {
      assert ConvSum([1.0], v, k, 1) == ConvSum([1.0], v, k, 0) + 1.0 * v[k];
    }
  }

  /** One output of 'same' mode, for a kernel no longer than the data. */
  lemma SameAt(a: seq<real>, v: seq<real>, i: int)
    requires 1 <= |v| <= |a| && 0 <= i < |a|
    ensures |ConvolveSame(a, v)| == |a|
    ensures ConvolveSame(a, v)[i] == ConvSum(a, v, i + (|v| - 1) / 2, |a|)
  {
    assert Min(|a|, |v|) == |v| && Max(|a|, |v|) == |a|;
  }

  /** A window lying inside constant data sums to its width times that constant. */
  lemma WindowSumConstant(d: seq<real>, lo: int, hi: int, c: real)
    requires 0 <= lo <= hi <= |d|
    requires forall j :: lo <= j < hi ==> d[j] == c
    ensures WindowSum(d, lo, hi) == (hi - lo) as real * c
  {
    WindowSumInside(d, lo, hi);
    SumConstant(d[lo..hi], c);
  }

  /** 'same' mode with a constant kernel c no longer than the data: output i is c times the
      data window [lo, hi) that the kernel covers when centred (as numpy centres it) on i. */
  lemma SameConstKernelAt(a: seq<real>, v: seq<real>, c: real, i: int, lo: int, hi: int)
    requires 1 <= |v| <= |a| && 0 <= i < |a|
    requires forall t :: 0 <= t < |v| ==> v[t] == c
    requires lo == i + (|v| - 1) / 2 - |v| + 1 && hi == i + (|v| - 1) / 2 + 1
    ensures |ConvolveSame(a, v)| == |a|
    ensures ConvolveSame(a, v)[i] == c * WindowSum(a, lo, hi)
  {
    var k := i + (|v| - 1) / 2;
    SameAt(a, v, i);
    ConstKernelWindow(a, v, c, k, lo, hi);
  }

  /** Normalized weights sum to one. */
  lemma NormalizeSumsToOne(w: seq<real>)
    requires Sum(w) != 0.0
    ensures |Normalize(w)| == |w|
    ensures Sum(Normalize(w)) == 1.0
  {
    SumScale(w, Sum(w));
    assert Sum(w) / Sum(w) == 1.0;
  }

  /** A one-point window normalizes to the unit kernel [1]. */
  lemma NormalizeSingle(w: seq<real>)
    requires |w| == 1 && w[0] != 0.0
    ensures Sum(w) == w[0]
    ensures Normalize(w) == [1.0]
  {
    assert w[1..] == [];
    assert Sum(w) == w[0] + Sum(w[1..]);
    var n := Normalize(w);
    assert w[0] / w[0] == 1.0;
    assert |n| == 1 && n[0] == 1.0;
    assert n == [1.0];
  }

  /** np.ones(m) / np.ones(m).sum() is the constant kernel 1 / m. */
  lemma {:induction false} NormalizedOnes(m: nat)
    requires m >= 1
    ensures Sum(Ones(m)) == m as real
    ensures forall t :: 0 <= t < m ==> Normalize(Ones(m))[t] == 1.0 / m as real
  {
    SumConstant(Ones(m), 1.0);
  }
}

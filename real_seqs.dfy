/** Sequences of real samples and the numpy reductions the pipeline uses on them:
    sum, absolute value, flip, Python slicing, element-wise division, max, argmax and argmin. */
module RealSeqs {

  datatype Option<T> = None | Some(value: T)

  function Min(a: int, b: int): int { if a <= b then a else b }

  function Max(a: int, b: int): int { if a <= b then b else a }

  function Abs(x: real): real { if x < 0.0 then -x else x }

  /** Sum of all samples, the first sample plus the sum of the rest. */
  function Sum(s: seq<real>): real
    decreases |s|
  {
    if s == [] then 0.0 else s[0] + Sum(s[1..])
  }

  /** np.abs applied to an array. */
  function AbsAll(s: seq<real>): seq<real>
  {
    seq(|s|, i requires 0 <= i < |s| => Abs(s[i]))
  }

  /** np.abs(s - c): distance of every sample to c. */
  function DistTo(s: seq<real>, c: real): seq<real>
  {
    seq(|s|, i requires 0 <= i < |s| => Abs(s[i] - c))
  }

  /** np.flip, or s[::-1]. */
  function Reverse(s: seq<real>): seq<real>
  {
    seq(|s|, i requires 0 <= i < |s| => s[|s| - 1 - i])
  }

  function Negate(s: seq<real>): seq<real>
  {
    seq(|s|, i requires 0 <= i < |s| => -s[i])
  }

  /** Every sample divided by c. */
  function Scale(s: seq<real>, c: real): seq<real>
    requires c != 0.0
  {
    seq(|s|, i requires 0 <= i < |s| => s[i] / c)
  }

  /** Python's s[lo:hi] for 0 <= lo <= hi: both bounds are clamped to the length. */
  function Slice(s: seq<real>, lo: nat, hi: nat): (r: seq<real>)
    requires lo <= hi
    ensures |r| == Min(hi, |s|) - Min(lo, |s|)
    ensures forall i :: 0 <= i < |r| ==> r[i] == s[lo + i]
    ensures hi <= |s| ==> r == s[lo..hi]
  {
    s[Min(lo, |s|)..Min(hi, |s|)]
  }

  /** Two adjacent slices inside s together make the slice across both. */
  lemma SliceConcat(s: seq<real>, lo: nat, mid: nat, hi: nat)
    requires lo <= mid <= hi <= |s|
    ensures Slice(s, lo, mid) + Slice(s, mid, hi) == s[lo..hi]
  {
    assert s[lo..mid] + s[mid..hi] == s[lo..hi];
  }

  /** numpy's element-wise a / b on two arrays of one length, with no zero divisor. */
  predicate Divisible(a: seq<real>, b: seq<real>)
  {
    |a| == |b| && forall i :: 0 <= i < |b| ==> b[i] != 0.0
  }

  function Divide(a: seq<real>, b: seq<real>): seq<real>
    requires Divisible(a, b)
  {
    seq(|a|, i requires 0 <= i < |a| => a[i] / b[i])
  }

  predicate NoDup<T(==)>(s: seq<T>)
  {
    forall i, j :: 0 <= i < j < |s| ==> s[i] != s[j]
  }

  predicate NonDecreasing(s: seq<real>)
  {
    forall i, j :: 0 <= i <= j < |s| ==> s[i] <= s[j]
  }

  /** np.max: the largest sample. */
  function MaxOf(s: seq<real>): (r: real)
    requires |s| >= 1
    ensures forall i :: 0 <= i < |s| ==> s[i] <= r
    ensures exists i :: 0 <= i < |s| && s[i] == r
    decreases |s|
  {
    if |s| == 1 then s[0]
    else
      var m := MaxOf(s[..|s| - 1]);
      assert forall i :: 0 <= i < |s| - 1 ==> s[..|s| - 1][i] == s[i];
      if s[|s| - 1] > m then s[|s| - 1] else m
  }

  /** np.argmax: the first index holding the largest sample. */
  function ArgMax(s: seq<real>): (r: nat)
    requires |s| >= 1
    ensures r < |s|
    ensures forall i :: 0 <= i < |s| ==> s[i] <= s[r]
    ensures forall i :: 0 <= i < r ==> s[i] < s[r]
    decreases |s|
  {
    if |s| == 1 then 0
    else
      var k := ArgMax(s[..|s| - 1]);
      assert forall i :: 0 <= i < |s| - 1 ==> s[..|s| - 1][i] == s[i];
      if s[|s| - 1] > s[k] then |s| - 1 else k
  }

  /** np.argmin: the first index holding the smallest sample. */
  function ArgMin(s: seq<real>): (r: nat)
    requires |s| >= 1
    ensures r < |s|
    ensures forall i :: 0 <= i < |s| ==> s[r] <= s[i]
    ensures forall i :: 0 <= i < r ==> s[r] < s[i]
    decreases |s|
  {
    if |s| == 1 then 0
    else
      var k := ArgMin(s[..|s| - 1]);
      assert forall i :: 0 <= i < |s| - 1 ==> s[..|s| - 1][i] == s[i];
      if s[|s| - 1] < s[k] then |s| - 1 else k
  }

  /** np.max and np.argmax agree: the maximum is found at the first arg-max index. */
  lemma MaxAtArgMax(s: seq<real>)
    requires |s| >= 1
    ensures MaxOf(s) == s[ArgMax(s)]
  {
    var k := ArgMax(s);
    var i :| 0 <= i < |s| && s[i] == MaxOf(s);
    assert s[i] <= s[k] && s[k] <= MaxOf(s);
  }

  /** The first-extremum conditions pin the index down: any index that meets them is ArgMax. */
  lemma ArgMaxUnique(s: seq<real>, k: nat)
    requires k < |s|
    requires forall i :: 0 <= i < |s| ==> s[i] <= s[k]
    requires forall i :: 0 <= i < k ==> s[i] < s[k]
    ensures ArgMax(s) == k
  {
    var r := ArgMax(s);
    assert s[r] <= s[k] && s[k] <= s[r];
  }

  lemma ArgMinUnique(s: seq<real>, k: nat)
    requires k < |s|
    requires forall i :: 0 <= i < |s| ==> s[k] <= s[i]
    requires forall i :: 0 <= i < k ==> s[k] < s[i]
    ensures ArgMin(s) == k
  {
    var r := ArgMin(s);
    assert s[r] <= s[k] && s[k] <= s[r];
  }

  /** Taking absolute values twice is taking them once. */
  lemma AbsAllIdempotent(s: seq<real>)
    ensures AbsAll(AbsAll(s)) == AbsAll(s)
  {
  }

  /** Dividing every sample by c divides the sum by c. */
  lemma {:induction false} SumScale(s: seq<real>, c: real)
    requires c != 0.0
    ensures Sum(Scale(s, c)) == Sum(s) / c
    decreases |s|
  {
    if s != [] {
      assert Scale(s, c)[1..] == Scale(s[1..], c);
      SumScale(s[1..], c);
    }
  }

  /** A sum of positive samples is positive when there is at least one. */
  lemma {:induction false} SumPositive(s: seq<real>)
    requires |s| >= 1
    requires forall i :: 0 <= i < |s| ==> s[i] > 0.0
    ensures Sum(s) > 0.0
    decreases |s|
  {
    if |s| > 1 {
      SumPositive(s[1..]);
    }
  }

  /** Sum of a concatenation. */
  lemma {:induction false} SumAppend(a: seq<real>, b: seq<real>)
    ensures Sum(a + b) == Sum(a) + Sum(b)
    decreases |a|
  {
    if a == [] {
      assert a + b == b;
    } else {
      assert (a + b)[1..] == a[1..] + b;
      SumAppend(a[1..], b);
    }
  }

  /** Sum of n copies of c. */
  lemma {:induction false} SumConstant(s: seq<real>, c: real)
    requires forall i :: 0 <= i < |s| ==> s[i] == c
    ensures Sum(s) == |s| as real * c
    decreases |s|
  {
    if s != [] {
      SumConstant(s[1..], c);
    }
  }
}

/** The smoothing and averaging kernels of modules/signal_processing.py: block reduction
    (reduceMat), Gaussian and uniform window averages (gaussAve, linAve), reflected-edge
    window smoothing (smooth) and the even/odd split about a zero (symmetrize). */
module SignalProcessing {
  import opened RealSeqs
  import opened Convolution

  // ---------------------------------------------------------------------------------
  // reduceMat
  // ---------------------------------------------------------------------------------

  /** A numpy array of rank one or two; a matrix keeps its row width so that a matrix
      with no rows still has a shape. */
  datatype NdArray = Vector(items: seq<real>) | Matrix(width: nat, rows: seq<seq<real>>)

  predicate WellShaped(a: NdArray)
  {
    a.Matrix? ==> forall i :: 0 <= i < |a.rows| ==> |a.rows[i]| == a.width
  }

  /** np.reshape(A, (-1, 1)) for a vector: one row per sample. A matrix is left alone. */
  function AsMatrix(a: NdArray): (m: NdArray)
    ensures m.Matrix?
  {
    match a
    case Vector(v) => Matrix(1, seq(|v|, i requires 0 <= i < |v| => [v[i]]))
    case Matrix(_, _) => a
  }

  /** shpA[axis]: the length of a matrix along axis 0 (rows) or 1 (columns). */
  function Extent(m: NdArray, axis: int): nat
    requires m.Matrix?
  {
    if axis == 0 then |m.rows| else m.width
  }

  /** np.reshape(out, (-1)): the rows of a matrix laid end to end. */
  function Flatten(rows: seq<seq<real>>): seq<real>
    decreases |rows|
  {
    if rows == [] then [] else rows[0] + Flatten(rows[1..])
  }

  /** np.arange(start, stop, step) for a positive step. */
  function Arange(start: int, stop: int, step: int): seq<int>
    requires step >= 1
    decreases stop - start
  {
    if start >= stop then [] else [start] + Arange(start + step, stop, step)
  }

  lemma {:induction false} ArangeShape(start: int, stop: int, step: int)
    requires step >= 1 && start < stop
    ensures |Arange(start, stop, step)| >= 1
    ensures forall i :: 0 <= i < |Arange(start, stop, step)| ==> Arange(start, stop, step)[i] == start + i * step
    ensures var c := |Arange(start, stop, step)|; start + (c - 1) * step < stop <= start + c * step
    decreases stop - start
  {
    var r := Arange(start, stop, step);
    if start + step < stop {
      ArangeShape(start + step, stop, step);
      var r' := Arange(start + step, stop, step);
      assert r == [start] + r';
      forall i | 0 <= i < |r| ensures r[i] == start + i * step {
        if i > 0 {
          assert r[i] == r'[i - 1];
          ArangeStep(start, step, i, i - 1);
        }
      }
      ArangeStep(start, step, |r|, |r'|);
      ArangeStep(start, step, |r| - 1, |r'| - 1);
    } else {
      assert Arange(start + step, stop, step) == [];
    }
  }

  /** One more step from start + step is one more multiple of step from start. */
  lemma ArangeStep(start: int, step: int, i: int, j: int)
    requires j == i - 1
    ensures start + step + j * step == start + i * step
  {
  }

  lemma MulMono(a: int, b: int, c: nat)
    requires a <= b
    ensures a * c <= b * c
  {
    assert (b - a) * c >= 0;
  }

  /** q is floor(l / n) exactly when q n <= l < (q + 1) n. */
  lemma DivUnique(l: nat, n: nat, q: int)
    requires n >= 1
    requires q * n <= l < (q + 1) * n
    ensures q == l / n
  {
    var d := l / n;
    assert l == d * n + l % n;
    if q < d {
      MulMono(q + 1, d, n);
    } else if q > d {
      MulMono(d + 1, q, n);
    }
  }

  /** Block k of q = floor(l / n) blocks of n lies inside [0, l). */
  lemma BlockFits(k: int, q: int, n: nat, l: nat)
    requires n >= 1 && 0 <= k < q && q == l / n
    ensures 0 <= k * n && k * n + n <= l
  {
    MulMono(0, k, n);
    MulMono(k + 1, q, n);
    assert l == q * n + l % n;
  }

  /** Row block k of q = floor(rows / n) blocks lies inside the matrix, each of its rows
      as wide as the matrix. */
  lemma RowBlockFits(m: NdArray, k: int, q: int, n: nat)
    requires m.Matrix? && WellShaped(m) && n >= 1 && 0 <= k < q && q == |m.rows| / n
    ensures 0 <= k * n && k * n + n <= |m.rows|
    ensures forall i :: k * n <= i < k * n + n ==> |m.rows[i]| == m.width
  {
    BlockFits(k, q, n, |m.rows|);
  }

  /** np.mean(A[start + np.arange(0, n), :], 0)[j]: the mean of column j over n rows. */
  function ColumnMean(rows: seq<seq<real>>, j: nat, start: nat, n: nat): real
    requires n >= 1 && start + n <= |rows|
    requires forall i :: start <= i < start + n ==> j < |rows[i]|
  {
    Sum(seq(n, t requires 0 <= t < n => rows[start + t][j])) / n as real
  }

  /** The block means that reduceMat promises: along axis 0, row k of the result is the
      column-wise mean of rows k n .. k n + n - 1; along axis 1, column k is the row-wise
      mean of columns k n .. k n + n - 1. A trailing partial block is not averaged. */
  function BlockMeans(m: NdArray, n: nat, axis: int): seq<seq<real>>
    requires m.Matrix? && WellShaped(m) && n >= 1 && (axis == 0 || axis == 1)
  {
    if axis == 0 then
      seq(|m.rows| / n, k requires 0 <= k < |m.rows| / n => RowBlockMean(m, k, n))
    else
      seq(|m.rows|, i requires 0 <= i < |m.rows| => RowMeans(m.rows[i], n))
  }

  /** Row k of the axis-0 result: the column means of the k-th block of n rows. */
  function RowBlockMean(m: NdArray, k: int, n: nat): seq<real>
    requires m.Matrix? && WellShaped(m) && n >= 1 && 0 <= k < |m.rows| / n
  {
    RowBlockFits(m, k, |m.rows| / n, n);
    seq(m.width, j requires 0 <= j < m.width => ColumnMean(m.rows, j, k * n, n))
  }

  /** One row of the axis-1 result: the means of the floor(|row| / n) blocks of n samples. */
  function RowMeans(row: seq<real>, n: nat): (r: seq<real>)
    requires n >= 1
    ensures |r| == |row| / n
  {
    var q := |row| / n;
    seq(q, k requires 0 <= k < q =>
      BlockFits(k, q, n, |row|);
      Sum(row[k * n..k * n + n]) / n as real)
  }

  /** q = floor(l / n) blocks of n fit in l, and one more does not. */
  lemma BlockCount(q: int, l: nat, n: nat)
    requires n >= 1 && q == l / n
    ensures q * n <= l < (q + 1) * n
  {
    assert l == q * n + l % n;
  }

  /** The block starts np.arange(0, len, n), without the last one when that block would
      run past the end: exactly floor(len / n) starts k n, each block inside [0, len). */
  method BlockStarts(len: nat, n: nat) returns (r: seq<int>)
    requires n >= 1 && len >= 1
    ensures |r| == len / n
    ensures forall k :: 0 <= k < |r| ==> r[k] == k * n && r[k] + n <= len
  {
    r := Arange(0, len, n);
    ArangeShape(0, len, n);
    if r[|r| - 1] + n > len {
      r := r[0..|r| - 1];
    }
    DivUnique(len, n, |r|);
    forall k | 0 <= k < |r|
      ensures r[k] + n <= len
    {
      BlockFits(k, |r|, n, len);
    }
  }

  /** The loop of reduceMat along axis 0: row k of a zeroed buffer receives the column means
      of the block starting at r[k]. */
  method AverageRows(rows: seq<seq<real>>, width: nat, r: seq<int>, n: nat) returns (result: seq<seq<real>>)
    requires n >= 1
    requires forall i :: 0 <= i < |rows| ==> |rows[i]| == width
    requires forall k :: 0 <= k < |r| ==> 0 <= r[k] && r[k] + n <= |rows|
    ensures |result| == |r|
    ensures forall k :: 0 <= k < |r| ==> |result[k]| == width
    ensures forall k, j :: 0 <= k < |r| && 0 <= j < width ==> result[k][j] == ColumnMean(rows, j, r[k], n)
  {
    var buf := new real[|r|, width]((_, _) => 0.0);
    var k := 0;
    for idx := 0 to |r|
      invariant k == idx
      invariant forall k', j :: 0 <= k' < k && 0 <= j < width ==> buf[k', j] == ColumnMean(rows, j, r[k'], n)
    {
      var i := r[k];
      forall j | 0 <= j < width {
        buf[k, j] := ColumnMean(rows, j, i, n);
      }
      k := k + 1;
    }
    result := seq(|r|, k requires 0 <= k < |r| reads buf => seq(width, j requires 0 <= j < width reads buf => buf[k, j]));
  }

  /** The loop of reduceMat along axis 1: column k of a zeroed buffer receives the row means
      of the block starting at r[k]. */
  method AverageColumns(rows: seq<seq<real>>, width: nat, r: seq<int>, n: nat) returns (result: seq<seq<real>>)
    requires n >= 1
    requires forall i :: 0 <= i < |rows| ==> |rows[i]| == width
    requires forall k :: 0 <= k < |r| ==> 0 <= r[k] && r[k] + n <= width
    ensures |result| == |rows|
    ensures forall i :: 0 <= i < |rows| ==> |result[i]| == |r|
    ensures forall i, k :: 0 <= i < |rows| && 0 <= k < |r| ==> result[i][k] == Sum(rows[i][r[k]..r[k] + n]) / n as real
  {
    var buf := new real[|rows|, |r|]((_, _) => 0.0);
    var k := 0;
    for idx := 0 to |r|
      invariant k == idx
      invariant forall i, k' :: 0 <= i < |rows| && 0 <= k' < k ==> buf[i, k'] == Sum(rows[i][r[k']..r[k'] + n]) / n as real
    {
      var i := r[k];
      forall row | 0 <= row < |rows| {
        buf[row, k] := Sum(rows[row][i..i + n]) / n as real;
      }
      k := k + 1;
    }
    result := seq(|rows|, i requires 0 <= i < |rows| reads buf => seq(|r|, k requires 0 <= k < |r| reads buf => buf[i, k]));
  }

  /** reduceMat(A, Nave, axis): block averages along one axis, dropping a trailing partial
      block; a vector is treated as one column and the result flattened back to a vector. */
  method ReduceMat(a: NdArray, nave: int, axis: int) returns (out: NdArray)
    requires WellShaped(a)
    requires nave >= 1
    requires axis == 0 || axis == 1
    requires Extent(AsMatrix(a), axis) >= 1
    ensures out.Vector? == a.Vector?
    ensures out.Vector? ==> out.items == Flatten(BlockMeans(AsMatrix(a), nave, axis))
    ensures out.Matrix? ==> out.rows == BlockMeans(AsMatrix(a), nave, axis)
    ensures out.Matrix? ==> out.width == if axis == 0 then a.width else a.width / nave
  {
    var m := AsMatrix(a);
    var rows, width := m.rows, m.width;
    var r := BlockStarts(Extent(m, axis), nave);
    var result: seq<seq<real>>;
    if axis == 0 {
      result := AverageRows(rows, width, r, nave);
      RowAveragesAreBlockMeans(m, nave, r, result);
    } else {
      result := AverageColumns(rows, width, r, nave);
      ColumnAveragesAreBlockMeans(m, nave, r, result);
    }
    if a.Vector? {
      out := Vector(Flatten(result));
    } else {
      out := Matrix(if axis == 0 then width else |r|, result);
    }
  }

  /** What the axis-0 loop leaves, with the block starts k n, is the axis-0 block means. */
  lemma RowAveragesAreBlockMeans(m: NdArray, n: nat, r: seq<int>, result: seq<seq<real>>)
    requires m.Matrix? && WellShaped(m) && n >= 1
    requires |r| == |m.rows| / n && forall k :: 0 <= k < |r| ==> r[k] == k * n && r[k] + n <= |m.rows|
    requires |result| == |r| && forall k :: 0 <= k < |r| ==> |result[k]| == m.width
    requires forall k, j :: 0 <= k < |r| && 0 <= j < m.width ==> result[k][j] == ColumnMean(m.rows, j, r[k], n)
    ensures result == BlockMeans(m, n, 0)
  {
    var spec := BlockMeans(m, n, 0);
    forall k | 0 <= k < |r| ensures result[k] == spec[k] {
      assert spec[k] == RowBlockMean(m, k, n);
    }
  }

  /** What the axis-1 loop leaves, with the block starts k n, is the axis-1 block means. */
  lemma ColumnAveragesAreBlockMeans(m: NdArray, n: nat, r: seq<int>, result: seq<seq<real>>)
    requires m.Matrix? && WellShaped(m) && n >= 1
    requires |r| == m.width / n && forall k :: 0 <= k < |r| ==> r[k] == k * n && r[k] + n <= m.width
    requires |result| == |m.rows| && forall i :: 0 <= i < |m.rows| ==> |result[i]| == |r|
    requires forall i, k :: 0 <= i < |m.rows| && 0 <= k < |r| ==>
      result[i][k] == Sum(m.rows[i][r[k]..r[k] + n]) / n as real
    ensures result == BlockMeans(m, n, 1)
  {
    var spec := BlockMeans(m, n, 1);
    forall i | 0 <= i < |m.rows| ensures result[i] == spec[i] {
      var means := RowMeans(m.rows[i], n);
      assert spec[i] == means;
      forall k | 0 <= k < |r| ensures result[i][k] == means[k] {
        assert r[k] == k * n;
      }
    }
  }

  /** Row counts: a matrix with L rows reduces to floor(L / n) rows along axis 0; along
      axis 1 the row count is kept and floor(width / n) columns remain. */
  lemma BlockMeansShape(m: NdArray, n: nat, axis: int)
    requires m.Matrix? && WellShaped(m) && n >= 1 && (axis == 0 || axis == 1)
    ensures axis == 0 ==> |BlockMeans(m, n, axis)| * n <= |m.rows| < (|BlockMeans(m, n, axis)| + 1) * n
    ensures axis == 1 ==> |BlockMeans(m, n, axis)| == |m.rows|
    ensures axis == 1 ==> forall i :: 0 <= i < |m.rows| ==>
      |BlockMeans(m, n, axis)[i]| * n <= m.width < (|BlockMeans(m, n, axis)[i]| + 1) * n
  {
    var b := BlockMeans(m, n, axis);
    if axis == 0 {
      BlockCount(|b|, |m.rows|, n);
    } else {
      forall i | 0 <= i < |m.rows|
        ensures |b[i]| * n <= m.width < (|b[i]| + 1) * n
      {
        assert |b[i]| == m.width / n by {
          assert b[i] == RowMeans(m.rows[i], n);
        }
        BlockCount(|b[i]|, m.width, n);
      }
    }
  }

  lemma {:induction false} FlattenSingletons(rows: seq<seq<real>>)
    requires forall i :: 0 <= i < |rows| ==> |rows[i]| == 1
    ensures Flatten(rows) == seq(|rows|, i requires 0 <= i < |rows| => rows[i][0])
    decreases |rows|
  {
    if rows != [] {
      FlattenSingletons(rows[1..]);
    }
  }

  lemma {:induction false} FlattenEmptyRows(rows: seq<seq<real>>)
    requires forall i :: 0 <= i < |rows| ==> rows[i] == []
    ensures Flatten(rows) == []
    decreases |rows|
  {
    if rows != [] {
      FlattenEmptyRows(rows[1..]);
    }
  }

  /** For a vector along axis 0: entry k of the result is the mean of samples
      k n .. k n + n - 1, and there are floor(L / n) entries. */
  lemma VectorBlockMeans(v: seq<real>, n: nat)
    requires n >= 1 && |v| >= 1
    ensures var r := Flatten(BlockMeans(AsMatrix(Vector(v)), n, 0));
      && |r| == |v| / n
      && forall k :: 0 <= k < |r| ==> k * n + n <= |v| && r[k] == Sum(v[k * n..k * n + n]) / n as real
  {
    var m := AsMatrix(Vector(v));
    var b := BlockMeans(m, n, 0);
    assert |b| == |v| / n;
    forall k | 0 <= k < |b|
      ensures |b[k]| == 1 && k * n + n <= |v| && b[k][0] == Sum(v[k * n..k * n + n]) / n as real
    {
      VectorBlockAt(v, n, k, m);
    }
    FlattenSingletons(b);
  }

  /** One block of a vector along axis 0: a single column mean over n samples. */
  lemma VectorBlockAt(v: seq<real>, n: nat, k: int, m: NdArray)
    requires n >= 1 && |v| >= 1 && m == AsMatrix(Vector(v)) && 0 <= k < |v| / n
    ensures k * n + n <= |v|
    ensures |RowBlockMean(m, k, n)| == 1
    ensures RowBlockMean(m, k, n)[0] == Sum(v[k * n..k * n + n]) / n as real
  {
    BlockFits(k, |v| / n, n, |v|);
    var start := k * n;
    assert seq(n, t requires 0 <= t < n => m.rows[start + t][0]) == v[start..start + n];
  }

  /** For a vector along axis 1 (one column): a block of one keeps the vector, a larger
      block leaves nothing. */
  lemma VectorColumnBlocks(v: seq<real>, n: nat)
    requires n >= 1 && |v| >= 1
    ensures n == 1 ==> Flatten(BlockMeans(AsMatrix(Vector(v)), n, 1)) == v
    ensures n > 1 ==> Flatten(BlockMeans(AsMatrix(Vector(v)), n, 1)) == []
  {
    var m := AsMatrix(Vector(v));
    var b := BlockMeans(m, n, 1);
    if n == 1 {
      forall i | 0 <= i < |b| ensures |b[i]| == 1 && b[i][0] == v[i] {
        assert m.rows[i][0..1] == [v[i]];
        assert Sum([v[i]]) == v[i];
      }
      FlattenSingletons(b);
    } else {
      FlattenEmptyRows(b);
    }
  }

  // ---------------------------------------------------------------------------------
  // gaussAve and linAve
  // ---------------------------------------------------------------------------------

  /** sigma squared: the given sigma squared, or n / 2 when sigma is absent or zero
      (Python's `if not sigma`), which is the square of the default sqrt(n / 2). */
  function SigmaSq(n: real, sigma: Option<real>): real
  {
    if sigma.None? || sigma.value == 0.0 then n / 2.0 else sigma.value * sigma.value
  }

  /** np.exp(-(x**2 / (2 * sigma**2))) for x = -h .. h, where gauss(x^2, sigma^2) stands
      for the exponential, left abstract apart from being positive. */
  function GaussWeights(h: nat, sigmaSq: real, gauss: (real, real) -> real): seq<real>
  {
    seq(2 * h + 1, k requires 0 <= k < 2 * h + 1 => gauss(((k - h) * (k - h)) as real, sigmaSq))
  }

  lemma GaussWeightsSymmetric(h: nat, sigmaSq: real, gauss: (real, real) -> real, k: int)
    requires 0 <= k <= 2 * h
    ensures GaussWeights(h, sigmaSq, gauss)[k] == GaussWeights(h, sigmaSq, gauss)[2 * h - k]
  {
    assert (2 * h - k - h) * (2 * h - k - h) == (k - h) * (k - h);
  }

  /** The Gaussian kernel has 2h + 1 positive weights, is symmetric about its centre and,
      once normalized, sums to one. */
  lemma GaussKernel(h: nat, sigmaSq: real, gauss: (real, real) -> real)
    requires forall x, s :: gauss(x, s) > 0.0
    ensures Sum(GaussWeights(h, sigmaSq, gauss)) > 0.0
    ensures |Normalize(GaussWeights(h, sigmaSq, gauss))| == 2 * h + 1
    ensures forall k :: 0 <= k <= 2 * h ==> Normalize(GaussWeights(h, sigmaSq, gauss))[k] > 0.0
    ensures forall k :: 0 <= k <= 2 * h ==>
      Normalize(GaussWeights(h, sigmaSq, gauss))[k] == Normalize(GaussWeights(h, sigmaSq, gauss))[2 * h - k]
    ensures Sum(Normalize(GaussWeights(h, sigmaSq, gauss))) == 1.0
  {
    var g := GaussWeights(h, sigmaSq, gauss);
    SumPositive(g);
    NormalizeSumsToOne(g);
    var total := Sum(g);
    forall k | 0 <= k <= 2 * h
      ensures Normalize(g)[k] > 0.0 && Normalize(g)[k] == Normalize(g)[2 * h - k]
    {
      GaussWeightsSymmetric(h, sigmaSq, gauss, k);
      assert Normalize(g)[k] == g[k] / total;
      assert Normalize(g)[2 * h - k] == g[2 * h - k] / total;
    }
  }

  /** gaussAve(data, n, sigma): n == 0 returns the data; otherwise the data convolved
      ('same' mode) with the normalized Gaussian window over x = -int(n) .. int(n). */
  function GaussAve(data: seq<real>, n: real, sigma: Option<real>, gauss: (real, real) -> real): (r: seq<real>)
    requires n >= 0.0
    requires n != 0.0 ==> |data| >= 1
    requires forall x, s :: gauss(x, s) > 0.0
    ensures n == 0.0 ==> r == data
    ensures |r| == if n == 0.0 then |data| else Max(|data|, 2 * n.Floor + 1)
  {
    if n == 0.0 then data
    else
      var g := GaussWeights(n.Floor as nat, SigmaSq(n, sigma), gauss);
      SumPositive(g);
      ConvolveSame(data, Normalize(g))
  }

  /** With n > 0 the result has the length of the data (when the data is at least as long
      as the window), and a fractional n below one truncates to a one-point window, which
      returns the data unchanged. */
  lemma GaussAveShape(data: seq<real>, n: real, sigma: Option<real>, gauss: (real, real) -> real)
    requires n > 0.0 && |data| >= 1
    requires forall x, s :: gauss(x, s) > 0.0
    ensures |data| >= 2 * n.Floor + 1 ==> |GaussAve(data, n, sigma, gauss)| == |data|
    ensures n < 1.0 ==> GaussAve(data, n, sigma, gauss) == data
  {
    if n < 1.0 {
      var g := GaussWeights(0, SigmaSq(n, sigma), gauss);
      assert n.Floor == 0;
      assert g[0] == gauss(0.0, SigmaSq(n, sigma));
      NormalizeSingle(g);
      SameUnitIdentity(data);
    } else {
      GaussKernel(n.Floor as nat, SigmaSq(n, sigma), gauss);
    }
  }

  /** np.ones(2n + 1) / (2n + 1). */
  function UniformKernel(n: nat): seq<real>
  {
    Scale(Ones(2 * n + 1), (2 * n + 1) as real)
  }

  /** linAve(data, n): the 'same'-mode convolution with the uniform kernel of 2n + 1 taps. */
  function LinAve(data: seq<real>, n: nat): (r: seq<real>)
    requires |data| >= 1
    ensures |r| == Max(|data|, 2 * n + 1)
  {
    ConvolveSame(data, UniformKernel(n))
  }

  /** np.ones(2n + 1) / (2n + 1) holds the constant 1 / (2n + 1). */
  lemma UniformKernelConstant(n: nat)
    ensures |UniformKernel(n)| == 2 * n + 1
    ensures forall t :: 0 <= t < 2 * n + 1 ==> UniformKernel(n)[t] == 1.0 / (2 * n + 1) as real
  {
  }

  lemma InverseTimes(w: real, m: real)
    requires m > 0.0
    ensures 1.0 / m * w == w / m
  {
  }

  /** One output of linAve on data at least 2n + 1 long. */
  lemma LinAveAt(data: seq<real>, n: nat, i: int)
    requires |data| >= 2 * n + 1 && 0 <= i < |data|
    ensures |LinAve(data, n)| == |data|
    ensures LinAve(data, n)[i] == WindowSum(data, i - n, i + n + 1) / (2 * n + 1) as real
  {
    UniformKernelConstant(n);
    SameConstKernelAt(data, UniformKernel(n), 1.0 / (2 * n + 1) as real, i, i - n, i + n + 1);
    InverseTimes(WindowSum(data, i - n, i + n + 1), (2 * n + 1) as real);
  }

  /** When the data is at least 2n + 1 long, linAve keeps its length and each output is the
      mean over 2n + 1 of the window [i - n, i + n], samples beyond either end counting as 0. */
  lemma LinAveWindowMean(data: seq<real>, n: nat)
    requires |data| >= 2 * n + 1
    ensures |LinAve(data, n)| == |data|
    ensures forall i :: 0 <= i < |data| ==>
      LinAve(data, n)[i] == WindowSum(data, i - n, i + n + 1) / (2 * n + 1) as real
  {
    forall i | 0 <= i < |data|
      ensures LinAve(data, n)[i] == WindowSum(data, i - n, i + n + 1) / (2 * n + 1) as real
    {
      LinAveAt(data, n, i);
    }
    LinAveAt(data, n, 0);
  }

  /** Away from the edges, linAve of a constant signal is that constant. */
  lemma LinAveKeepsConstant(data: seq<real>, n: nat, c: real, i: int)
    requires |data| >= 2 * n + 1
    requires forall j :: 0 <= j < |data| ==> data[j] == c
    requires n <= i < |data| - n
    ensures LinAve(data, n)[i] == c
  {
    WindowSumConstant(data, i - n, i + n + 1, c);
    LinAveAt(data, n, i);
    MeanOfCopies(LinAve(data, n)[i], WindowSum(data, i - n, i + n + 1), (i + n + 1) - (i - n), 2 * n + 1, c);
  }

  /** w copies of c averaged over m == w give c. */
  lemma MeanOfCopies(x: real, total: real, w: int, m: int, c: real)
    requires w == m && m > 0
    requires x == total / m as real && total == w as real * c
    ensures x == c
  {
  }

  // ---------------------------------------------------------------------------------
  // smooth
  // ---------------------------------------------------------------------------------

  /** The smoothing window: 'flat' is np.ones; the named taper windows (hanning, hamming,
      bartlett, blackman) are numpy's own formulas and are given here by their samples. */
  datatype Window = Flat | Taper(weights: seq<real>)

  function WindowWeights(window: Window, len: nat): seq<real>
  {
    match window
    case Flat => Ones(len)
    case Taper(w) => w
  }

  /** A window of len >= 1 samples whose sum can be divided by. */
  predicate WindowOk(window: Window, len: int)
  {
    len >= 1 && |WindowWeights(window, len)| == len && Sum(WindowWeights(window, len)) != 0.0
  }

  /** np.r_[x[len-1:0:-1], x, x[-2:-len-1:-1]]: x with its edges reflected; Python clamps
      both slices when len exceeds the length of x. */
  function Pad(x: seq<real>, len: int): (r: seq<real>)
    requires |x| >= 1 && len >= 1
    ensures |r| == |x| + 2 * (Min(len, |x|) - 1)
    ensures r[Min(len, |x|) - 1..Min(len, |x|) - 1 + |x|] == x
  {
    Reverse(x[1..Min(len, |x|)]) + x + Reverse(x[Max(|x| - len, 0)..|x| - 1])
  }

  /** smooth(x, window_len, window): the normalized window convolved in 'valid' mode with
      the reflected-edge padding of x. A window no longer than x gives |x| + len - 1 samples
      (not |x|); a longer one pads by |x| - 1 on each side and 'valid' mode keeps the
      difference of the two lengths plus one. */
  function Smooth(x: seq<real>, len: int, window: Window): (r: seq<real>)
    requires |x| >= 1 && WindowOk(window, len)
    ensures len <= |x| ==> |r| == |x| + len - 1
    ensures len > |x| ==> |r| == Max(len, 3 * |x| - 2) - Min(len, 3 * |x| - 2) + 1
  {
    ConvolveValid(Normalize(WindowWeights(window, len)), Pad(x, len))
  }

  /** For 1 <= len <= |x| the padding is x[len-1], ..., x[1] on the left and
      x[|x|-2], ..., x[|x|-len] on the right, len - 1 samples each. */
  lemma PadShape(x: seq<real>, len: int)
    requires 1 <= len <= |x|
    ensures |Pad(x, len)| == |x| + 2 * (len - 1)
    ensures forall i :: 0 <= i < len - 1 ==> Pad(x, len)[i] == x[len - 1 - i]
    ensures forall i :: 0 <= i < |x| ==> Pad(x, len)[len - 1 + i] == x[i]
    ensures forall k :: len - 1 + |x| <= k < |x| + 2 * (len - 1) ==> Pad(x, len)[k] == x[2 * |x| + len - 3 - k]
  {
    var left := x[1..len];
    var right := x[|x| - len..|x| - 1];
    var p := Pad(x, len);
    assert p == Reverse(left) + x + Reverse(right) by {
      assert Min(len, |x|) == len && Max(|x| - len, 0) == |x| - len;
    }
    forall k | 0 <= k < |p|
      ensures k < len - 1 ==> p[k] == x[len - 1 - k]
      ensures len - 1 <= k < len - 1 + |x| ==> p[k] == x[k - (len - 1)]
      ensures len - 1 + |x| <= k ==> p[k] == x[2 * |x| + len - 3 - k]
    {
      Concat3At(Reverse(left), x, Reverse(right), k);
    }
    forall i | 0 <= i < |x|
      ensures p[len - 1 + i] == x[i]
    {
    }
  }

  /** Sample k of a + b + c, read from whichever part holds it. */
  lemma Concat3At(a: seq<real>, b: seq<real>, c: seq<real>, k: int)
    requires 0 <= k < |a| + |b| + |c|
    ensures (a + b + c)[k] == if k < |a| then a[k] else if k < |a| + |b| then b[k - |a|] else c[k - |a| - |b|]
  {
  }

  /** The flat window of one sample returns x unchanged. */
  lemma SmoothFlatUnit(x: seq<real>)
    requires |x| >= 1
    ensures WindowOk(Flat, 1)
    ensures Smooth(x, 1, Flat) == x
  {
    NormalizedOnes(1);
    assert Normalize(Ones(1)) == [1.0];
    assert Pad(x, 1) == x;
    ValidUnitIdentity(x);
  }

  /** The normalized flat window in 'valid' mode over any s at least len long: output t
      is the mean of s[t .. t + len - 1]. */
  lemma FlatValidMean(s: seq<real>, len: int, t: int)
    requires 1 <= len <= |s|
    requires 0 <= t <= |s| - len
    ensures Sum(Ones(len)) != 0.0
    ensures |ConvolveValid(Normalize(Ones(len)), s)| == |s| - len + 1
    ensures ConvolveValid(Normalize(Ones(len)), s)[t] == Sum(s[t..t + len]) / len as real
  {
    FlatValidAt(len, s, t);
    InverseTimes(Sum(s[t..t + len]), len as real);
  }

  /** The flat window is a moving mean: output t is the mean of the padded samples
      t .. t + len - 1. */
  lemma SmoothFlatMovingMean(x: seq<real>, len: int, t: int)
    requires 1 <= len <= |x|
    requires 0 <= t < |x| + len - 1
    ensures WindowOk(Flat, len)
    ensures |Smooth(x, len, Flat)| == |x| + len - 1
    ensures t + len <= |Pad(x, len)| && Smooth(x, len, Flat)[t] == Sum(Pad(x, len)[t..t + len]) / len as real
  {
    PadShape(x, len);
    FlatValidMean(Pad(x, len), len, t);
  }

  // ---------------------------------------------------------------------------------
  // symmetrize
  // ---------------------------------------------------------------------------------

  /** (np.abs(x - zero)).argmin(): the first sample of x nearest to zero. */
  function NearestIndex(x: seq<real>, zero: real): nat
    requires |x| >= 1
  {
    ArgMin(DistTo(x, zero))
  }

  /** The even part of y about index m over the 2m + 1 samples centred on it. */
  function EvenPart(y: seq<real>, m: nat): (r: seq<real>)
    requires 2 * m < |y|
    ensures |r| == 2 * m + 1
  {
    seq(2 * m + 1, k requires 0 <= k <= 2 * m => (y[k] + y[2 * m - k]) / 2.0)
  }

  /** The odd part of y about index m over the 2m + 1 samples centred on it. */
  function OddPart(y: seq<real>, m: nat): (r: seq<real>)
    requires 2 * m < |y|
    ensures |r| == 2 * m + 1
  {
    seq(2 * m + 1, k requires 0 <= k <= 2 * m => (y[k] - y[2 * m - k]) / 2.0)
  }

  /** symmetrize(x, y, zero). The output arrays are written at the unshifted indices
      idx +- (i + 1), which fit only when idx, the first sample nearest to zero, lies in the
      left half of x; otherwise the source raises IndexError. Then m == idx, xsym is
      x[0 .. 2m], and sym and asym are the even and odd parts of y about idx. */
  method Symmetrize(x: seq<real>, y: seq<real>, zero: real) returns (xsym: seq<real>, sym: seq<real>, asym: seq<real>)
    requires |x| >= 1
    requires NearestIndex(x, zero) <= |x| - NearestIndex(x, zero) - 1
    requires 2 * NearestIndex(x, zero) < |y|
    ensures xsym == x[..2 * NearestIndex(x, zero) + 1]
    ensures sym == EvenPart(y, NearestIndex(x, zero))
    ensures asym == OddPart(y, NearestIndex(x, zero))
  {
    var idx := ArgMin(DistTo(x, zero));
    var m := Min(idx, |x| - (idx + 1));
    assert m == idx;
    xsym, sym, asym := MirrorAbout(x, y, idx);
  }

  /** The loop of symmetrize about idx: x and y are read at idx +- (i + 1) for i < idx,
      x is copied into a buffer of 2 idx + 1 samples, and the half sums and half differences
      of y go into two buffers of idx samples that are then laid out flipped and unflipped
      about the centre. */
  method MirrorAbout(x: seq<real>, y: seq<real>, idx: nat) returns (xsym: seq<real>, sym: seq<real>, asym: seq<real>)
    requires idx <= |x| - idx - 1 && 2 * idx < |y|
    ensures xsym == x[..2 * idx + 1]
    ensures sym == EvenPart(y, idx)
    ensures asym == OddPart(y, idx)
  {
    var xs := new real[2 * idx + 1](_ => 0.0);
    var symtemp := new real[idx](_ => 0.0);
    var asymtemp := new real[idx](_ => 0.0);
    xs[idx] := x[idx];
    for i := 0 to idx
      invariant forall j :: idx - i <= j <= idx + i ==> xs[j] == x[j]
      invariant forall j :: 0 <= j < i ==> symtemp[j] == (y[idx + j + 1] + y[idx - j - 1]) / 2.0
      invariant forall j :: 0 <= j < i ==> asymtemp[j] == (y[idx + j + 1] - y[idx - j - 1]) / 2.0
    {
      xs[idx + i + 1] := x[idx + i + 1];
      xs[idx - i - 1] := x[idx - i - 1];
      symtemp[i] := (y[idx + i + 1] + y[idx - i - 1]) / 2.0;
      asymtemp[i] := (y[idx + i + 1] - y[idx - i - 1]) / 2.0;
    }
    assert forall j :: 0 <= j < 2 * idx + 1 ==> xs[j] == x[j];
    xsym := xs[..];
    assert xsym == x[..2 * idx + 1];
    sym := Reverse(symtemp[..]) + [y[idx]] + symtemp[..];
    asym := Negate(Reverse(asymtemp[..])) + [0.0] + asymtemp[..];
    AssembledEven(y, idx, symtemp[..]);
    AssembledOdd(y, idx, asymtemp[..]);
  }

  /** min(idx, len(x) - (idx + 1)): how many samples symmetrize mirrors on each side of
      the sample nearest to zero. */
  function HalfWidth(x: seq<real>, zero: real): (m: nat)
    requires |x| >= 1
    ensures m <= NearestIndex(x, zero) && NearestIndex(x, zero) + m < |x|
  {
    Min(NearestIndex(x, zero), |x| - (NearestIndex(x, zero) + 1))
  }

  /** On x = [1, 0.5, 0] about zero 0 the nearest sample is the last one, so symmetrize
      allocates xsym with a single slot and then writes it at index 2: the code as written
      raises IndexError whenever the nearest sample lies in the right half of x. */
  lemma SymmetrizeRightHalfOutOfRange()
    ensures NearestIndex([1.0, 0.5, 0.0], 0.0) == 2
    ensures 2 * HalfWidth([1.0, 0.5, 0.0], 0.0) + 1 == 1
    ensures !(NearestIndex([1.0, 0.5, 0.0], 0.0) <= 3 - NearestIndex([1.0, 0.5, 0.0], 0.0) - 1)
  {
    var d := DistTo([1.0, 0.5, 0.0], 0.0);
    assert d[0] == 1.0 && d[1] == 0.5 && d[2] == 0.0;
    ArgMinUnique(d, 2);
  }

  /** symmetrize as evidently intended: the output arrays indexed from their own centre m,
      that is, the mirroring loop run over the 2m + 1 samples of x and y centred on the
      sample nearest to zero, wherever in x that sample lies. */
  method SymmetrizeCentred(x: seq<real>, y: seq<real>, zero: real) returns (xsym: seq<real>, sym: seq<real>, asym: seq<real>)
    requires |x| >= 1
    requires NearestIndex(x, zero) + HalfWidth(x, zero) < |y|
    ensures xsym == x[NearestIndex(x, zero) - HalfWidth(x, zero)..NearestIndex(x, zero) + HalfWidth(x, zero) + 1]
    ensures sym == EvenPart(y[NearestIndex(x, zero) - HalfWidth(x, zero)..NearestIndex(x, zero) + HalfWidth(x, zero) + 1], HalfWidth(x, zero))
    ensures asym == OddPart(y[NearestIndex(x, zero) - HalfWidth(x, zero)..NearestIndex(x, zero) + HalfWidth(x, zero) + 1], HalfWidth(x, zero))
  {
    var idx := NearestIndex(x, zero);
    var m := HalfWidth(x, zero);
    var lo, hi := idx - m, idx + m + 1;
    xsym, sym, asym := MirrorWindow(x, y, idx, m);
    assert xsym == x[lo..hi];
  }

  /** The mirroring loop over the 2m + 1 samples of x and y centred on idx. */
  method MirrorWindow(x: seq<real>, y: seq<real>, idx: nat, m: nat) returns (xsym: seq<real>, sym: seq<real>, asym: seq<real>)
    requires m <= idx && idx + m < |x| && idx + m < |y|
    ensures xsym == x[idx - m..idx + m + 1]
    ensures sym == EvenPart(y[idx - m..idx + m + 1], m)
    ensures asym == OddPart(y[idx - m..idx + m + 1], m)
  {
    var xs := x[idx - m..idx + m + 1];
    var ys := y[idx - m..idx + m + 1];
    xsym, sym, asym := MirrorAbout(xs, ys, m);
    assert xs[..2 * m + 1] == xs;
  }

  /** What the corrected symmetrize returns about the sample idx nearest to zero: over the
      window w of the 2m + 1 samples of y centred on idx, the even part keeps y[idx] at its
      centre and the odd part is zero there, they are the half sum and half difference of the
      samples mirrored about idx, and together they give back y. */
  lemma CentredParts(y: seq<real>, idx: nat, m: nat, w: seq<real>)
    requires m <= idx && idx + m < |y| && w == y[idx - m..idx + m + 1]
    ensures EvenPart(w, m)[m] == y[idx]
    ensures OddPart(w, m)[m] == 0.0
    ensures forall k :: 0 <= k <= 2 * m ==>
      && EvenPart(w, m)[k] == (y[idx - m + k] + y[idx + m - k]) / 2.0
      && OddPart(w, m)[k] == (y[idx - m + k] - y[idx + m - k]) / 2.0
      && EvenPart(w, m)[k] + OddPart(w, m)[k] == y[idx - m + k]
  {
    forall k | 0 <= k <= 2 * m
      ensures EvenPart(w, m)[k] == (y[idx - m + k] + y[idx + m - k]) / 2.0
      ensures OddPart(w, m)[k] == (y[idx - m + k] - y[idx + m - k]) / 2.0
    {
      CentredAt(y, idx, m, k);
    }
    CentredAt(y, idx, m, m);
  }

  /** Sample k of the even and odd parts over the window centred on idx. */
  lemma CentredAt(y: seq<real>, idx: nat, m: nat, k: int)
    requires m <= idx && idx + m < |y| && 0 <= k <= 2 * m
    ensures EvenPart(y[idx - m..idx + m + 1], m)[k] == (y[idx - m + k] + y[idx + m - k]) / 2.0
    ensures OddPart(y[idx - m..idx + m + 1], m)[k] == (y[idx - m + k] - y[idx + m - k]) / 2.0
  {
    var w := y[idx - m..idx + m + 1];
    assert w[k] == y[idx - m + k] && w[2 * m - k] == y[idx + m - k];
  }

  /** Where the code as written does not raise (the nearest sample in the left half of x),
      it and the corrected version agree. */
  lemma CentredAgreesOnLeftHalf(x: seq<real>, y: seq<real>, zero: real)
    requires |x| >= 1
    requires NearestIndex(x, zero) <= |x| - NearestIndex(x, zero) - 1
    requires 2 * NearestIndex(x, zero) < |y|
    ensures HalfWidth(x, zero) == NearestIndex(x, zero)
    ensures var idx := NearestIndex(x, zero);
      && x[idx - idx..idx + idx + 1] == x[..2 * idx + 1]
      && EvenPart(y[idx - idx..idx + idx + 1], idx) == EvenPart(y, idx)
      && OddPart(y[idx - idx..idx + idx + 1], idx) == OddPart(y, idx)
  {
    var idx := NearestIndex(x, zero);
    var w := y[0..2 * idx + 1];
    assert y[idx - idx..idx + idx + 1] == w;
    assert EvenPart(w, idx) == EvenPart(y, idx);
    assert OddPart(w, idx) == OddPart(y, idx);
  }

  /** The flipped half, the centre sample and the half, as symmetrize lays them out, form
      the even part. */
  lemma AssembledEven(y: seq<real>, m: nat, st: seq<real>)
    requires 2 * m < |y| && |st| == m
    requires forall j :: 0 <= j < m ==> st[j] == (y[m + j + 1] + y[m - j - 1]) / 2.0
    ensures Reverse(st) + [y[m]] + st == EvenPart(y, m)
  {
    var sym := Reverse(st) + [y[m]] + st;
    var e := EvenPart(y, m);
    forall k | 0 <= k <= 2 * m ensures sym[k] == e[k] {
      if k < m {
        assert sym[k] == st[m - 1 - k];
        assert y[m + (m - 1 - k) + 1] == y[2 * m - k];
      } else if k > m {
        assert sym[k] == st[k - m - 1];
        assert y[m + (k - m - 1) + 1] == y[k];
      }
    }
  }

  /** The negated flipped half, a zero and the half form the odd part. */
  lemma AssembledOdd(y: seq<real>, m: nat, at: seq<real>)
    requires 2 * m < |y| && |at| == m
    requires forall j :: 0 <= j < m ==> at[j] == (y[m + j + 1] - y[m - j - 1]) / 2.0
    ensures Negate(Reverse(at)) + [0.0] + at == OddPart(y, m)
  {
    var asym := Negate(Reverse(at)) + [0.0] + at;
    var o := OddPart(y, m);
    forall k | 0 <= k <= 2 * m ensures asym[k] == o[k] {
      if k < m {
        assert asym[k] == -at[m - 1 - k];
        assert y[m + (m - 1 - k) + 1] == y[2 * m - k];
      } else if k > m {
        assert asym[k] == at[k - m - 1];
        assert y[m + (k - m - 1) + 1] == y[k];
      }
    }
  }

  /** The even part is a palindrome and keeps y at the centre; the odd part flips sign about
      the centre and is zero there; together they give back y. */
  lemma EvenOddSplit(y: seq<real>, m: nat)
    requires 2 * m < |y|
    ensures EvenPart(y, m)[m] == y[m] && OddPart(y, m)[m] == 0.0
    ensures forall k :: 0 <= k <= 2 * m ==> EvenPart(y, m)[k] == EvenPart(y, m)[2 * m - k]
    ensures forall k :: 0 <= k <= 2 * m ==> OddPart(y, m)[k] == -OddPart(y, m)[2 * m - k]
    ensures forall k :: 0 <= k <= 2 * m ==> EvenPart(y, m)[k] + OddPart(y, m)[k] == y[k]
  {
  }
}

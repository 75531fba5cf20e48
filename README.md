# Pulsed-field shot processing, modelled in Dafny

This project models the processing core of a toolkit for pulsed-magnet measurements. A
*shot* is a set of named channels sampled over one field pulse: the field B and the voltages
and current read with it. The model covers four groups of operations:

- **The per-shot pipeline** (`modules/pulse_processing.py`), modelled imperatively in
  `pulse_processing.dfy`. A shot is a `class Shot` whose `channels` map (key to samples) and
  recorded `peak` are updated in place.
  - `downsample` and `smooth` rewrite the listed channels one after another.
  - `rise_fall` records the peak of |B|. It finds the samples nearest a threshold before and
    after the peak, cuts every parameter into a `_rising` and a `_falling` part, and forms
    the resistances Rxx = Vxx / I and Rxy = Vxy / I.
  - `interp_shots` takes the shot with the lowest peak as the reference. It makes two passes
    over the shots: the first resamples every parameter of the other shots onto the
    reference's |B|, and the second resamples the field itself and recomputes the
    resistances.
- **The averaging kernels** (`modules/signal_processing.py`) in `signal_processing.dfy`.
  - `reduceMat` (block means) and `symmetrize` (even and odd parts about a zero) are methods
    with loops over arrays, as in the source.
  - `gaussAve`, `linAve` and `smooth` are functions over numpy's convolution, modelled in
    `convolution.dfy`.
- **The duplicate kernels** of `modules/data_processing.py`, in `data_processing.dfy`. The
  convolutions, the default sigma, the uniform kernel and the edge padding are written out
  again. The Gaussian weights and the window choice are the shared definitions of
  `signal_processing.dfy`. Each kernel is proved equal to its `signal_processing`
  counterpart; for `gaussAve` this shows that the two treat n and sigma alike.
- **numpy's `np.interp`**, in `interpolation.dfy`. The shared sequence helpers (sum, absolute
  value, flip, Python slicing, element-wise division, max, argmax and argmin) are in
  `real_seqs.dfy`.

Each method is specified by a function of its inputs or of the old state; the properties are
proved about those functions. An operation that Python aborts with an exception is a `None`
in the specifying function, or a precondition where the exception comes from numpy on an
input the caller controls. Such exceptions include a missing key, an empty array, an argmin
over an empty slice and an index past the end.

The model follows the code as written:

- The 'same'-mode convolutions of `gaussAve` and `linAve` return max(N, M) samples. That is
  the data's length only when the data is at least as long as the window.
- `smooth` returns len(x) + window_len - 1 samples, not len(x).
- `gaussAve` makes no check of a negative n, and the model requires n >= 0. For n <= -1,
  `np.arange(-n, n + 1)` is empty and numpy refuses the empty window. For -1 < n < 0,
  `int(n)` is 0 and the one-point window returns the data, complex-typed because the
  default sigma is the square root of a negative number. The requires therefore also
  excludes these inputs, on which the source does not fail.
- `symmetrize` works only when the sample nearest to zero lies in the left half of x (see
  Findings).

## Model

| member | source | states |
|---|---|---|
| PulseProcessing.Shot.Downsample | modules/pulse_processing.py:58-70 | the listed channels are rewritten in order, each by `linAve` kept at every n-th sample, exactly as the specifying loop `EachKey` does; the peak is untouched |
| PulseProcessing.Shot.Smooth | modules/pulse_processing.py:73-86 | the listed channels are rewritten in order by the windowed smoothing, as `EachKey` specifies; the peak is untouched |
| PulseProcessing.EachKeyClosedForm | modules/pulse_processing.py:68-70 | with each key listed once, the rewrite loop succeeds exactly when every listed key is present and its rewrite succeeds; it then rewrites exactly the listed channels, each once, and keeps the key set and every other channel |
| PulseProcessing.EachKeyPrefix | modules/pulse_processing.py:84-86 | a loop over the keys that runs to the end has succeeded on every prefix of the keys |
| PulseProcessing.DownsampleChannel | modules/pulse_processing.py:69 | one downsampled channel has floor(max(L, 2n + 1) / n) samples, max(L, 2n + 1) being the length of the 'same'-mode average |
| PulseProcessing.EveryNth | modules/pulse_processing.py:69 | `s[n-1::n]` keeps floor(len(s) / n) samples |
| PulseProcessing.DownsampleChannelMeans | modules/pulse_processing.py:69 | for a channel of at least 2n + 1 samples, downsampling keeps floor(L / n) values, value k being the zero-padded mean of the 2n + 1 samples centred on sample k n + n - 1 |
| PulseProcessing.Shot.RiseFall | modules/pulse_processing.py:89-119 | records the peak of the field as read, and leaves exactly the channels `RiseFallChannels` specifies: the cut at the two threshold samples and the peak, then the four resistances |
| PulseProcessing.RiseFallChannels | modules/pulse_processing.py:89-119 | rise_fall succeeds only on a shot whose B peaks after its first sample (the cut and the resistances are stated by the lemmas below) |
| PulseProcessing.PeakOf | modules/pulse_processing.py:102-104 | B_max is the largest |B[i]|, reached at index_max, and every earlier sample is strictly smaller (the first argmax) |
| PulseProcessing.RisingStart | modules/pulse_processing.py:106 | the rising start lies before the peak and is the first sample there nearest to thresh, by signed B |
| PulseProcessing.FallingLength | modules/pulse_processing.py:107 | index_max plus the falling length stays inside B, and that sample is the first from the peak on nearest to thresh |
| PulseProcessing.CutPoints | modules/pulse_processing.py:102-107 | rising start < index_max <= falling end < len(B) |
| PulseProcessing.RiseFallNeedsPeak | modules/pulse_processing.py:102-107 | rise_fall succeeds only when B is present, not empty and peaks after its first sample (argmin of an empty slice raises otherwise); it is then the cut followed by the resistance step |
| PulseProcessing.RiseFallExample | modules/pulse_processing.py:102-107 | for B = [0, .01, .03, .06, .1, .06, .02, 0] and thresh .05, the peak is (0.1, 4), the rising start is 3, the falling length is 1 and the cut points are (3, 4, 5) |
| PulseProcessing.ExamplePeak | modules/pulse_processing.py:102-103 | the peak of the worked example is 0.1 at index 4 |
| PulseProcessing.ExampleRisingStart | modules/pulse_processing.py:106 | the rising start of the worked example is 3 |
| PulseProcessing.ExampleFallingLength | modules/pulse_processing.py:107 | the falling length of the worked example is 1 |
| PulseProcessing.Shot.CutParams | modules/pulse_processing.py:109-111 | the cut loop leaves exactly the channels the specifying `CutAll` gives; the peak is untouched |
| PulseProcessing.CutAllPrefix | modules/pulse_processing.py:109-111 | a cut that succeeds on all parameters has succeeded on every prefix of them |
| PulseProcessing.CutAllSome | modules/pulse_processing.py:109-111 | the cut succeeds exactly when every parameter is present (both directions); it keeps every key and leaves every parameter as read untouched |
| PulseProcessing.CutAllKeys | modules/pulse_processing.py:109-111 | the keys after the cut are exactly the old keys plus the rising and falling key of each parameter |
| PulseProcessing.CutAllParts | modules/pulse_processing.py:109-111 | each parameter's rising part is its slice [lo:mid] and its falling part its slice [mid:hi], with Python's clamping, also when a parameter is listed twice |
| PulseProcessing.CutThenDivideParts | modules/pulse_processing.py:109-117 | after the cut and the resistance step, a parameter other than the resistances keeps its slices [lo:mid] and [mid:hi], and when it is long enough the two parts together are [lo:hi] |
| PulseProcessing.RiseFallParts | modules/pulse_processing.py:106-111 | after rise_fall, a parameter's rising part runs from the threshold sample up to the peak (excluded) and its falling part from the peak to the falling end, the two being contiguous |
| PulseProcessing.RiseFallField | modules/pulse_processing.py:102-111 | the rising part of B is at least one sample long and ends just before the peak; the falling part has the falling length and starts at the peak, where |B| is B_max |
| PulseProcessing.Shot.AddResistances | modules/pulse_processing.py:113-117 | the four divisions leave exactly the channels `WithResistances` specifies; the peak is untouched |
| PulseProcessing.WithResistances | modules/pulse_processing.py:113-117 | the resistance step succeeds exactly when both parts of Vxx, Vxy and I are present, each voltage as long as its current and no current sample zero, and it then holds the four resistance keys |
| PulseProcessing.ResistanceKeys | modules/pulse_processing.py:113-117 | the keys after the resistance step are exactly the old keys plus the four resistances |
| PulseProcessing.ResistanceParts | modules/pulse_processing.py:113-117 | the resistance step needs both parts of Vxx, Vxy and I, of equal lengths and with no zero current; it adds exactly the four resistance keys, each the sample-by-sample quotient, and keeps every other channel |
| PulseProcessing.ResistanceKeeps | modules/pulse_processing.py:113-117 | every key other than the four resistances is present after the step exactly when it was before, with the same samples |
| PulseProcessing.ResistancesAfterDivision | modules/pulse_processing.py:113-117 | after the step, Rxx = Vxx / I and Rxy = Vxy / I sample by sample on both parts |
| PulseProcessing.RiseFallResistances | modules/pulse_processing.py:113-117 | after rise_fall, Rxx = Vxx / I and Rxy = Vxy / I on both parts |
| PulseProcessing.InterpShots | modules/pulse_processing.py:122-176 | with distinct shot objects, every shot is left with exactly the channels `Aligned` specifies for it, taking the first shot with the lowest recorded peak as the reference; no peak changes |
| PulseProcessing.PeakStore | modules/pulse_processing.py:134-136 | B_max_store is the recorded peak of every shot, in order |
| PulseProcessing.PeakFields | modules/pulse_processing.py:134-136 | there is one recorded peak per shot |
| PulseProcessing.ResampleLoop | modules/pulse_processing.py:140-153 | after the first loop, every shot but the reference has its parameters resampled (`Resampled`), the reference is untouched, and no peak changes |
| PulseProcessing.Shot.ResampleParams | modules/pulse_processing.py:140-153 | one shot's pass of the first loop leaves exactly the channels `ResampleAll` specifies |
| PulseProcessing.ResampleAllPrefix | modules/pulse_processing.py:140-153 | a resampling that succeeds on all parameters has succeeded on every prefix of them |
| PulseProcessing.ResampleAllKeeps | modules/pulse_processing.py:140-153 | the first loop keeps the key set and the field, and changes only the rising and falling parts of the listed parameters |
| PulseProcessing.ResampleAllParts | modules/pulse_processing.py:144-153 | with parameters listed once, each parameter other than B is np.interp of its rising part from the shot's own |B| onto the reference |B|, and of its flipped falling part from the flipped own |B| |
| PulseProcessing.FieldLoop | modules/pulse_processing.py:156-174 | after the second loop, every shot holds exactly its `Aligned` channels, although the reference's field is rewritten during the loop; no peak changes |
| PulseProcessing.Shot.AbsOwnField | modules/pulse_processing.py:157-159 | the reference's rising and falling field become their magnitudes, as `AbsField` specifies |
| PulseProcessing.Shot.ResampleOwnField | modules/pulse_processing.py:162-168 | a non-reference shot's field is resampled against itself onto the reference field, as `ResampleField` specifies |
| PulseProcessing.SameReference | modules/pulse_processing.py:157-168 | the reference field read in the second loop has the same magnitude whether or not the reference has already been visited |
| PulseProcessing.Aligned | modules/pulse_processing.py:122-176 | a shot aligns only when the reference has both field parts, and then its rising and falling field have the reference's number of samples |
| PulseProcessing.AlignedStep | modules/pulse_processing.py:156-174 | one pass of the second loop, with the reference's field as it stands whether visited or not, yields exactly the aligned channels |
| PulseProcessing.AlignedField | modules/pulse_processing.py:156-168 | the reference's rising and falling field become their magnitudes; every other shot's rising field becomes the reference |B| clamped to the range of its own |B|, and its falling field the reference |B| clamped to the range of its own flipped |B| |
| PulseProcessing.AlignedParams | modules/pulse_processing.py:140-153 | with parameters listed once, every parameter of a non-reference shot other than B and the resistances ends up interpolated against the shot's original field, not the resampled one |
| PulseProcessing.AlignedResistances | modules/pulse_processing.py:170-174 | every non-reference shot ends with Rxx = Vxx / I and Rxy = Vxy / I on its resampled parts |
| PulseProcessing.AlignedReference | modules/pulse_processing.py:141-142 | the reference keeps its key set and every channel except its rising and falling field |
| PulseProcessing.Shot.constructor | modules/pulse_processing.py:58 | a shot starts with the given channels and no recorded peak |
| RealSeqs.MaxOf | modules/pulse_processing.py:102 | np.max is an upper bound of every sample and is one of them |
| RealSeqs.ArgMax | modules/pulse_processing.py:103 | np.argmax is an index of a largest sample, and every earlier sample is strictly smaller |
| RealSeqs.ArgMin | modules/pulse_processing.py:138 | np.argmin is an index of a smallest sample, and every earlier sample is strictly larger |
| RealSeqs.MaxAtArgMax | modules/pulse_processing.py:102-103 | np.max is the sample at np.argmax |
| RealSeqs.ArgMaxUnique | modules/pulse_processing.py:103 | an index that is a first maximum is the argmax |
| RealSeqs.ArgMinUnique | modules/pulse_processing.py:106-107 | an index that is a first minimum is the argmin |
| RealSeqs.Slice | modules/pulse_processing.py:110-111 | Python's s[lo:hi] has min(hi, L) - min(lo, L) samples, sample i being s[lo + i] |
| RealSeqs.AbsAllIdempotent | modules/pulse_processing.py:158-163 | taking np.abs twice is taking it once |
| Interpolation.InterpAt | modules/pulse_processing.py:147-149 | np.interp at one point: the first value left of the knots, the last value from the last knot on, and in between a value between those at the two bracketing knots |
| Interpolation.LerpBetween | modules/pulse_processing.py:147-149 | on a segment the line lies between its two end values |
| Interpolation.Interp | modules/pulse_processing.py:147-149 | np.interp returns one value per point, each interpolated on its own |
| Interpolation.LastAtMost | modules/pulse_processing.py:147-149 | the bracketing knot is the last one at or below the point |
| Interpolation.Bracket | modules/pulse_processing.py:147-149 | inside the knots the bracketing pair is strictly increasing and encloses the point |
| Interpolation.LerpFraction | modules/pulse_processing.py:147-149 | on a segment the line is a + t (b - a) with t in [0, 1] |
| Interpolation.LerpBounded | modules/pulse_processing.py:147-149 | on a segment the line stays within any bounds both end values keep |
| Interpolation.LerpSelf | modules/pulse_processing.py:162-164 | the line through (x0, x0) and (x1, x1) is the identity |
| Interpolation.InterpAtIdentity | modules/pulse_processing.py:162-164 | interpolating the knots against themselves clamps the point to the knots' range |
| Interpolation.InterpIdentity | modules/pulse_processing.py:162-168 | resampling a field against itself clamps each reference point to the field's range |
| Interpolation.InterpAtKnot | modules/pulse_processing.py:147-153 | with strictly increasing knots, interpolating at a knot returns the value given there |
| Interpolation.InterpAtBounded | modules/pulse_processing.py:147-153 | an interpolated value stays within any bounds all the values keep |
| Interpolation.InterpBounded | modules/pulse_processing.py:147-153 | every resampled value stays within any bounds all the values keep |
| Interpolation.InterpConstant | modules/pulse_processing.py:147-153 | a constant channel resamples to that constant |
| SignalProcessing.ReduceMat | modules/signal_processing.py:9-46 | reduceMat returns a vector for a vector and a matrix for a matrix, whose rows are `BlockMeans` along the chosen axis (flattened for a vector), of width the input width along axis 0 and floor(width / Nave) along axis 1 |
| SignalProcessing.ArangeShape | modules/signal_processing.py:21 | np.arange(start, stop, step) is start, start + step, ..., its last element below stop and one more step past it |
| SignalProcessing.BlockStarts | modules/signal_processing.py:21-25 | after the last incomplete block is dropped there are exactly floor(L / Nave) block starts k Nave, each block inside the array |
| SignalProcessing.AverageRows | modules/signal_processing.py:29-34 | row k of the output is the column-wise mean of the Nave rows from r[k] |
| SignalProcessing.AverageColumns | modules/signal_processing.py:37-42 | column k of the output is the row-wise mean of the Nave columns from r[k] |
| SignalProcessing.RowAveragesAreBlockMeans | modules/signal_processing.py:29-34 | the axis-0 loop with starts k Nave produces exactly the axis-0 block means |
| SignalProcessing.ColumnAveragesAreBlockMeans | modules/signal_processing.py:37-42 | the axis-1 loop with starts k Nave produces exactly the axis-1 block means |
| SignalProcessing.RowMeans | modules/signal_processing.py:41 | one row reduces to floor(width / Nave) means |
| SignalProcessing.BlockMeansShape | modules/signal_processing.py:21-42 | along axis 0, L rows reduce to floor(L / Nave) rows (the remainder dropped); along axis 1 the row count is kept and each row has floor(width / Nave) entries |
| SignalProcessing.VectorBlockMeans | modules/signal_processing.py:15-18 | a vector reduced along axis 0 has floor(L / Nave) entries, entry k being the mean of samples k Nave .. k Nave + Nave - 1 |
| SignalProcessing.VectorColumnBlocks | modules/signal_processing.py:37-45 | a vector (one column) reduced along axis 1 is kept for Nave = 1 and becomes empty for a larger Nave |
| SignalProcessing.FlattenSingletons | modules/signal_processing.py:44-45 | flattening a one-column result lists its entries in order |
| SignalProcessing.GaussAve | modules/signal_processing.py:50-68 | n = 0 returns the data; otherwise the 'same'-mode convolution with the 2 int(n) + 1 point window has max(len(data), 2 int(n) + 1) samples |
| SignalProcessing.GaussWeightsSymmetric | modules/signal_processing.py:62-63 | the Gaussian weights are symmetric about the centre |
| SignalProcessing.GaussKernel | modules/signal_processing.py:62-64 | the normalized Gaussian window has 2n + 1 positive weights, is symmetric and sums to one |
| SignalProcessing.GaussAveShape | modules/signal_processing.py:54-65 | for n > 0 the result has the data's length (data at least as long as the window), and 0 < n < 1 truncates to a one-point window that returns the data unchanged |
| SignalProcessing.LinAve | modules/signal_processing.py:71-74 | linAve returns max(len(data), 2n + 1) samples |
| SignalProcessing.UniformKernelConstant | modules/signal_processing.py:73 | np.ones(2n + 1) / (2n + 1) holds 2n + 1 copies of 1 / (2n + 1) |
| SignalProcessing.LinAveAt | modules/signal_processing.py:71-74 | output i is the zero-padded sum over [i - n, i + n] divided by 2n + 1 |
| SignalProcessing.LinAveWindowMean | modules/signal_processing.py:71-74 | for data at least 2n + 1 long, linAve keeps the length and each output is the zero-padded window mean over [i - n, i + n] |
| SignalProcessing.LinAveKeepsConstant | modules/signal_processing.py:71-74 | away from the edges, linAve of a constant signal is that constant |
| SignalProcessing.Pad | modules/signal_processing.py:80 | the padded signal has L + 2(min(w, L) - 1) samples and holds x unchanged after the min(w, L) - 1 reflected samples on the left, also when the window is longer than x |
| SignalProcessing.Smooth | modules/signal_processing.py:78-88 | smooth returns L + w - 1 samples for w <= L; for a longer window, whose padding the slices clamp, the 'valid' length of the window against the 3L - 2 padded samples |
| SignalProcessing.PadShape | modules/signal_processing.py:80 | for 1 <= w <= L, the padding is x[w-1], ..., x[1] on the left and x[L-2], ..., x[L-w] on the right, so the padded signal has L + 2(w - 1) samples |
| SignalProcessing.SmoothFlatUnit | modules/signal_processing.py:82-87 | the flat window of one sample returns x unchanged |
| SignalProcessing.FlatValidMean | modules/signal_processing.py:83-87 | the normalized flat window in 'valid' mode gives, at t, the mean of the w samples from t |
| SignalProcessing.SmoothFlatMovingMean | modules/signal_processing.py:78-88 | the flat window is a moving mean: output t is the mean of padded samples t .. t + w - 1 |
| SignalProcessing.Symmetrize | modules/signal_processing.py:92-108 | as written, with the nearest sample idx in the left half of x: xsym is x[0 .. 2 idx] and sym and asym are the even and odd parts of y about idx |
| SignalProcessing.MirrorAbout | modules/signal_processing.py:97-107 | the loop writing at idx +- (i + 1) fills xsym with x[0 .. 2 idx] and lays out the half sums and half differences as the even and odd parts about idx |
| SignalProcessing.AssembledEven | modules/signal_processing.py:104-105 | flipped half sums, y[idx] and the half sums form the even part |
| SignalProcessing.AssembledOdd | modules/signal_processing.py:106-107 | negated flipped half differences, 0 and the half differences form the odd part |
| SignalProcessing.EvenOddSplit | modules/signal_processing.py:98-107 | sym is a palindrome with y[idx] at its centre, asym flips sign about the centre and is 0 there, and sym + asym gives back y |
| SignalProcessing.EvenPart | modules/signal_processing.py:104-105 | the even part about m has 2m + 1 samples |
| SignalProcessing.OddPart | modules/signal_processing.py:106-107 | the odd part about m has 2m + 1 samples |
| SignalProcessing.HalfWidth | modules/signal_processing.py:94-96 | m = min(idx, len(x) - idx - 1) leaves m samples of x on each side of idx |
| SignalProcessing.SymmetrizeRightHalfOutOfRange | modules/signal_processing.py:93-97 | for x = [1, 0.5, 0] about 0 the nearest index is 2 while xsym has one slot, so the write at line 97 is out of range |
| SignalProcessing.SymmetrizeCentred | modules/signal_processing.py:92-108 | corrected: xsym is the 2m + 1 samples of x centred on idx, and sym and asym are the even and odd parts of y over the same window, wherever idx lies |
| SignalProcessing.MirrorWindow | modules/signal_processing.py:97-107 | the corrected loop, over the window of x and y centred on idx |
| SignalProcessing.CentredParts | modules/signal_processing.py:98-107 | corrected: sym[m] = y[idx], asym[m] = 0, sym[k] and asym[k] are the half sum and half difference of y[idx - m + k] and y[idx + m - k], and sym[k] + asym[k] = y[idx - m + k] |
| SignalProcessing.CentredAt | modules/signal_processing.py:101-102 | sample k of the corrected sym and asym, in terms of y |
| SignalProcessing.CentredAgreesOnLeftHalf | modules/signal_processing.py:92-108 | wherever the code as written does not raise, it and the corrected version return the same arrays |
| DataProcessing.GaussAve | modules/data_processing.py:4-20 | n = 0 returns the data; otherwise the result has max(len(data), 2n + 1) samples |
| DataProcessing.LinAve | modules/data_processing.py:23-28 | linAve returns max(len(data), 2n + 1) samples |
| DataProcessing.Smooth | modules/data_processing.py:31-43 | smooth returns L + w - 1 samples for w <= L, and the 'valid' length against the 3L - 2 clamped padded samples for a longer window |
| DataProcessing.GaussAveAgrees | modules/data_processing.py:4-20 | for an integer n, data_processing's gaussAve equals signal_processing's |
| DataProcessing.LinAveAgrees | modules/data_processing.py:23-28 | the two linAve are equal |
| DataProcessing.SmoothAgrees | modules/data_processing.py:31-43 | the two smooth are equal for the same window |
| Convolution.FullConv | modules/signal_processing.py:65 | the full convolution of N and M samples has N + M - 1 samples |
| Convolution.ConvolveSame | modules/signal_processing.py:65 | np.convolve in 'same' mode returns max(N, M) samples |
| Convolution.ConvolveValid | modules/signal_processing.py:87 | np.convolve in 'valid' mode returns max(N, M) - min(N, M) + 1 samples |
| Convolution.SameAt | modules/signal_processing.py:73 | for a kernel no longer than the data, 'same' output i is the full convolution at i + (M - 1) / 2 |
| Convolution.SameConstKernelAt | modules/signal_processing.py:73 | with a constant kernel c, 'same' output i is c times the zero-padded data window the centred kernel covers |
| Convolution.ConstKernelWindow | modules/signal_processing.py:73 | with a constant kernel c, full output k is c times the data window [k - M + 1, k] |
| Convolution.ConvSumConstKernel | modules/signal_processing.py:73 | the partial sums of a constant-kernel convolution are c times masked data sums |
| Convolution.ValidConstKernelAt | modules/signal_processing.py:87 | with a constant first operand c of length m, 'valid' output t is c times the m samples of v from t |
| Convolution.ConvSumConstFirst | modules/signal_processing.py:87 | the partial sums with a constant first operand are c times sums of v |
| Convolution.FlatValidAt | modules/signal_processing.py:83-87 | the normalized flat window in 'valid' mode gives 1 / m times the m samples from t |
| Convolution.SameUnitIdentity | modules/signal_processing.py:65 | convolving with [1] in 'same' mode returns the data |
| Convolution.ValidUnitIdentity | modules/signal_processing.py:87 | convolving [1] with v in 'valid' mode returns v |
| Convolution.ConvSumUnit | modules/signal_processing.py:65 | the unit kernel picks out one sample |
| Convolution.NormalizeSumsToOne | modules/signal_processing.py:64 | g / g.sum() keeps the length and sums to one |
| Convolution.NormalizeSingle | modules/signal_processing.py:64 | a one-point nonzero window normalizes to [1] |
| Convolution.NormalizedOnes | modules/signal_processing.py:83-87 | np.ones(m) / np.ones(m).sum() is m copies of 1 / m |
| Convolution.MaskedSumInside | modules/signal_processing.py:73 | a zero-padded window sum inside the data is the plain sum of its samples |
| Convolution.WindowSumInside | modules/signal_processing.py:73 | a window inside the data sums to the sum of its slice |
| Convolution.WindowSumConstant | modules/signal_processing.py:73 | a window inside constant data sums to its width times the constant |

## Left out

- `import_shot` and `import_shot_ascii` (modules/pulse_processing.py:6-55) read TDMS and tab-separated files; file I/O is not modelled, and a shot is built from a channel map.
- Samples are real numbers: floating-point rounding, NaN and infinity are not modelled.
- The Gaussian `np.exp` is a parameter `gauss(x^2, sigma^2)` that is only known to be positive; `sqrt` is avoided by carrying sigma squared. Only length, positivity, symmetry and normalization of the window are proved, not its values.
- The taper windows (`hanning`, `hamming`, `bartlett`, `blackman`), chosen by `eval`, are given by their samples (`Window.Taper`); only the 'flat' window is concrete. An unknown window name is not modelled.
- The default arguments of `smooth` (window_len=11, window='hanning'), `rise_fall` (thresh=0.05), `symmetrize` (zero=0) and `reduceMat` (axis=0) are not modelled; callers pass the values.
- The gains in `params` are ignored by `rise_fall` and `interp_shots`, so parameters are given by name only.
- Shot keys are a datatype (`Channel(p)`, `Rising(p)`, `Falling(p)`), so a parameter named like a derived key (say "B_rising") does not collide with it as the Python string keys would. `B_max` and `index_max` live in `Shot.peak` rather than among the channels.
- Python 3 division is assumed (`1/2` is 0.5 in the default sigma).
- PulseProcessing.WithResistances: a zero current gives numpy infinities or NaN with a warning; numpy broadcasts when either side has one sample (a one-sample current or a one-sample voltage) and raises for other mismatched lengths. The model treats a zero current and every length mismatch, the broadcast ones included, as failure (`None`).
- SignalProcessing.WindowOk: a window that sums to zero makes numpy divide by zero; the model treats it as failure.
- Interpolation.Interp: requires non-decreasing knots and as many values as knots; numpy checks only the lengths and returns unspecified values for unsorted knots.
- PulseProcessing.InterpShots: requires the shots to be distinct objects; a list holding one shot twice is not modelled.
- PulseProcessing.AlignedParams: stated only for parameters listed once; a parameter listed twice is resampled twice, which the specifying function `Aligned` covers but no lemma describes.
- PulseProcessing.ResampleAllParts: stated only for parameters listed once, for the same reason.
- PulseProcessing.EachKeyClosedForm: stated only for keys listed once; a repeated key is rewritten twice, which `EachKey` covers.
- PulseProcessing.DownsampleChannelMeans: stated only for channels of at least 2n + 1 samples; for shorter channels 'same' mode returns the window's length, which `LinAve` covers but no lemma describes.
- SignalProcessing.LinAveWindowMean: stated only for data of at least 2n + 1 samples, for the same reason.
- SignalProcessing.GaussAveShape: the length is stated only for data at least as long as the window.
- SignalProcessing.ReduceMat: requires Nave >= 1, axis 0 or 1 and a non-empty extent along the axis; the source raises otherwise (empty `np.arange` read at `r[-1]`, or `out` never assigned), but with different exceptions.
- SignalProcessing.GaussAve: requires n >= 0. For n <= -1 the window is empty and numpy refuses it. For -1 < n < 0 the source does not fail: the one-point window returns the data, complex-typed under the default sigma, so the requires excludes inputs the source accepts. A non-zero n also needs non-empty data.
- DataProcessing.GaussAve: takes an integer n; a fractional n, which `np.arange(-n, n + 1)` would turn into a shifted grid, is not modelled.
- Concurrency and numpy's vectorised internals are not modelled; everything is sequential.

## Findings

| source | as written | input that shows it | evidently intended | confidence | as-written member | corrected member |
|---|---|---|---|---|---|---|
| modules/signal_processing.py:94-102 | `xsym`, `symtemp` and `asymtemp` have 2m + 1 and m slots, m = min(idx, len(x) - idx - 1), but `xsym` is written at the unshifted indices idx and idx +- (i + 1) | x = [1, 0.5, 0], zero = 0: idx = 2, m = 0, `xsym` has one slot and `xsym[2]` raises IndexError; any idx in the right half of x raises | write `xsym[m + i + 1]` and `xsym[m - i - 1]` (and `xsym[m]`), so that the outputs are centred on idx wherever it lies | not executed; high, since the comment at modules/signal_processing.py:91 promises the symmetric and asymmetric components of y about the given zero | SignalProcessing.Symmetrize, SignalProcessing.SymmetrizeRightHalfOutOfRange | SignalProcessing.SymmetrizeCentred, SignalProcessing.CentredParts, SignalProcessing.CentredAgreesOnLeftHalf |

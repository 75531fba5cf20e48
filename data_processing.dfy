/** The averaging helpers of modules/data_processing.py. They repeat gaussAve, linAve and
    smooth of modules/signal_processing.py, except that gaussAve here takes an integer
    half-width and does not convert it. The convolutions, the default sigma, the uniform
    kernel and the edge padding are written out again below; the Gaussian weights and the
    choice of smoothing window are the shared definitions of SignalProcessing. Each helper
    is proved to agree with its signal_processing counterpart. */
module DataProcessing {
  import opened RealSeqs
  import opened Convolution
  import SignalProcessing

  /** gaussAve(data, n, sigma) for an integer n: n == 0 returns the data, otherwise the data
      convolved ('same' mode) with the normalized Gaussian window over x = -n .. n, whose
      sigma defaults to sqrt(n / 2). */
  function GaussAve(data: seq<real>, n: nat, sigma: Option<real>, gauss: (real, real) -> real): (r: seq<real>)
    requires n != 0 ==> |data| >= 1
    requires forall x, s :: gauss(x, s) > 0.0
    ensures n == 0 ==> r == data
    ensures |r| == if n == 0 then |data| else Max(|data|, 2 * n + 1)
  {
    if n == 0 then data
    else
      var sigmaSq := if sigma.None? || sigma.value == 0.0 then n as real / 2.0 else sigma.value * sigma.value;
      var g := SignalProcessing.GaussWeights(n, sigmaSq, gauss);
      SignalProcessing.GaussKernel(n, sigmaSq, gauss);
      ConvolveSame(data, Normalize(g))
  }

  /** linAve(data, n): 'same'-mode convolution with np.ones(2n + 1) / (2n + 1). */
  function LinAve(data: seq<real>, n: nat): (r: seq<real>)
    requires |data| >= 1
    ensures |r| == Max(|data|, 2 * n + 1)
  {
    ConvolveSame(data, Scale(Ones(2 * n + 1), (2 * n + 1) as real))
  }

  /** smooth(x, window_len, window): reflect the edges, then 'valid'-mode convolution with
      the normalized window. */
  function Smooth(x: seq<real>, len: int, window: SignalProcessing.Window): (r: seq<real>)
    requires |x| >= 1 && SignalProcessing.WindowOk(window, len)
    ensures len <= |x| ==> |r| == |x| + len - 1
    ensures len > |x| ==> |r| == Max(len, 3 * |x| - 2) - Min(len, 3 * |x| - 2) + 1
  {
    var s := Reverse(x[1..Min(len, |x|)]) + x + Reverse(x[Max(|x| - len, 0)..|x| - 1]);
    ConvolveValid(Normalize(SignalProcessing.WindowWeights(window, len)), s)
  }

  /** For an integer n the two gaussAve agree: int(n) is n itself, and float(n) / 2 is n / 2. */
  lemma GaussAveAgrees(data: seq<real>, n: nat, sigma: Option<real>, gauss: (real, real) -> real)
    requires n != 0 ==> |data| >= 1
    requires forall x, s :: gauss(x, s) > 0.0
    ensures GaussAve(data, n, sigma, gauss) == SignalProcessing.GaussAve(data, n as real, sigma, gauss)
  {
    if n != 0 {
      assert (n as real).Floor == n;
      assert SignalProcessing.SigmaSq(n as real, sigma)
        == if sigma.None? || sigma.value == 0.0 then n as real / 2.0 else sigma.value * sigma.value;
    }
  }

  lemma LinAveAgrees(data: seq<real>, n: nat)
    requires |data| >= 1
    ensures LinAve(data, n) == SignalProcessing.LinAve(data, n)
  {
  }

  lemma SmoothAgrees(x: seq<real>, len: int, window: SignalProcessing.Window)
    requires |x| >= 1 && SignalProcessing.WindowOk(window, len)
    ensures Smooth(x, len, window) == SignalProcessing.Smooth(x, len, window)
  {
  }
}

/** The per-shot pipeline of modules/pulse_processing.py. A shot is a dictionary of named
    channels; downsample and smooth rewrite the listed channels in place, rise_fall records
    the peak field and cuts every parameter into its rising and falling part, and
    interp_shots puts a list of shots onto the field grid of the shot with the lowest peak.
    Every step that Python would abort with an exception (a missing key, an empty array, a
    window numpy refuses) is a None in the specification functions below. */
module PulseProcessing {
  import opened RealSeqs
  import opened Convolution
  import opened Interpolation
  import opened SignalProcessing

  /** The dictionary keys of a shot: a parameter p read from file, and the p + '_rising'
      and p + '_falling' parts that rise_fall adds. */
  datatype Key = Channel(name: string) | Rising(name: string) | Falling(name: string)

  type Channels = map<Key, seq<real>>

  /** shot['B_max'] and shot['index_max']. */
  datatype Peak = Peak(bMax: real, indexMax: nat)

  /** One shot: its channels, and the peak once rise_fall has recorded it. */
  class Shot {
    var channels: Channels
    var peak: Option<Peak>

    constructor(channels: Channels)
      ensures this.channels == channels && peak == None
    {
      this.channels := channels;
      peak := None;
    }

    /** downsample(shot, keys, n): every listed channel is replaced, in the order listed, by
        the 2n + 1 point moving average kept at every n-th sample. */
    method Downsample(keys: seq<Key>, n: int)
      modifies this
      requires EachKey(channels, keys, DownsampleOp(n)).Some?
      ensures channels == EachKey(old(channels), keys, DownsampleOp(n)).value
      ensures peak == old(peak)
    {
      for i := 0 to |keys|
        invariant EachKey(old(channels), keys[..i], DownsampleOp(n)) == Some(channels)
        invariant peak == old(peak)
      {
        EachKeyNext(old(channels), keys, DownsampleOp(n), i, channels);
        var key := keys[i];
        channels := channels[key := DownsampleChannel(channels[key], n)];
      }
      assert keys[..|keys|] == keys;
    }

    /** smooth(shot, keys, n, window): every listed channel is replaced by its windowed
        smoothing. */
    method Smooth(keys: seq<Key>, len: int, window: Window)
      modifies this
      requires EachKey(channels, keys, SmoothOp(len, window)).Some?
      ensures channels == EachKey(old(channels), keys, SmoothOp(len, window)).value
      ensures peak == old(peak)
    {
      for i := 0 to |keys|
        invariant EachKey(old(channels), keys[..i], SmoothOp(len, window)) == Some(channels)
        invariant peak == old(peak)
      {
        EachKeyNext(old(channels), keys, SmoothOp(len, window), i, channels);
        var key := keys[i];
        // shot[key] = smooth(shot[key], n, window): Apply of a SmoothOp is SignalProcessing.Smooth
        channels := channels[key := Apply(SmoothOp(len, window), channels[key]).value];
      }
      assert keys[..|keys|] == keys;
    }

    /** rise_fall(shot, params, thresh): record the peak of |B|, then cut every parameter
        into its rising part (from the sample nearest thresh before the peak up to the peak)
        and its falling part (from the peak on, as many samples as the falling crossing lies
        past it), and form the resistances Rxx = Vxx / I and Rxy = Vxy / I of both parts. */
    method RiseFall(params: seq<string>, thresh: real)
      modifies this
      requires RiseFallChannels(channels, params, thresh).Some?
      ensures peak == Some(PeakOf(old(channels)[Channel("B")]))
      ensures channels == RiseFallChannels(old(channels), params, thresh).value
    {
      var c := channels;
      RiseFallNeedsPeak(c, params, thresh);
      peak := Some(PeakOf(c[Channel("B")]));
      var (rising, indexMax, fallingEnd) := CutPoints(c, thresh);
      CutParams(params, rising, indexMax, fallingEnd);
      AddResistances();
    }

    /** The loop of rise_fall over params. */
    method CutParams(params: seq<string>, lo: nat, mid: nat, hi: nat)
      modifies this
      requires lo <= mid <= hi
      requires CutAll(channels, params, lo, mid, hi).Some?
      ensures channels == CutAll(old(channels), params, lo, mid, hi).value
      ensures peak == old(peak)
    {
      for k := 0 to |params|
        invariant CutAll(old(channels), params[..k], lo, mid, hi) == Some(channels)
        invariant peak == old(peak)
      {
        CutAllPrefix(old(channels), params, lo, mid, hi, k + 1);
        assert params[..k + 1][..k] == params[..k];
        var p := params[k];
        assert Cut(channels, p, lo, mid, hi).Some?;
        var data := channels[Channel(p)];
        channels := channels[Rising(p) := Slice(data, lo, mid)];
        channels := channels[Falling(p) := Slice(data, mid, hi)];
      }
      assert params[..|params|] == params;
    }

    /** The first loop of interp_shots on one shot that is not the reference: every
        parameter other than B is resampled onto the reference field. */
    method ResampleParams(params: seq<string>, refRising: seq<real>, refFalling: seq<real>)
      modifies this
      requires ResampleAll(channels, refRising, refFalling, params).Some?
      ensures channels == ResampleAll(old(channels), refRising, refFalling, params).value
      ensures peak == old(peak)
    {
      for k := 0 to |params|
        invariant ResampleAll(old(channels), refRising, refFalling, params[..k]) == Some(channels)
        invariant peak == old(peak)
      {
        ResampleAllPrefix(old(channels), refRising, refFalling, params, k + 1);
        assert params[..k + 1][..k] == params[..k];
        var p := params[k];
        assert Resample(channels, refRising, refFalling, p).Some?;
        if p != "B" {
          channels := channels[Rising(p) := Interp(refRising, AbsAll(channels[Rising("B")]), channels[Rising(p)])];
          channels := channels[Falling(p) :=
            Interp(refFalling, AbsAll(Reverse(channels[Falling("B")])), Reverse(channels[Falling(p)]))];
        }
      }
      assert params[..|params|] == params;
    }

    /** The second loop of interp_shots on a shot that is not the reference: its field is
        resampled onto the reference field, against itself. */
    method ResampleOwnField(refRising: seq<real>, refFalling: seq<real>)
      modifies this
      requires ResampleField(channels, refRising, refFalling).Some?
      ensures channels == ResampleField(old(channels), refRising, refFalling).value
      ensures peak == old(peak)
    {
      var rising := AbsAll(channels[Rising("B")]);
      channels := channels[Rising("B") := Interp(refRising, rising, rising)];
      var falling := AbsAll(Reverse(channels[Falling("B")]));
      channels := channels[Falling("B") := Interp(refFalling, falling, falling)];
    }

    /** The second loop of interp_shots on the reference: its field becomes |B|. */
    method AbsOwnField()
      modifies this
      requires AbsField(channels).Some?
      ensures channels == AbsField(old(channels)).value
      ensures peak == old(peak)
    {
      channels := channels[Rising("B") := AbsAll(channels[Rising("B")])];
      channels := channels[Falling("B") := AbsAll(channels[Falling("B")])];
    }

    /** The four divisions at the end of rise_fall. */
    method AddResistances()
      modifies this
      requires WithResistances(channels).Some?
      ensures channels == WithResistances(old(channels)).value
      ensures peak == old(peak)
    {
      channels := channels[Rising("Rxx") := Divide(channels[Rising("Vxx")], channels[Rising("I")])];
      channels := channels[Falling("Rxx") := Divide(channels[Falling("Vxx")], channels[Falling("I")])];
      channels := channels[Rising("Rxy") := Divide(channels[Rising("Vxy")], channels[Rising("I")])];
      channels := channels[Falling("Rxy") := Divide(channels[Falling("Vxy")], channels[Falling("I")])];
    }
  }

  // ---------------------------------------------------------------------------------
  // downsample and smooth
  // ---------------------------------------------------------------------------------

  /** s[n-1::n]: the samples n - 1, 2n - 1, ..., floor(|s| / n) of them. */
  function EveryNth(s: seq<real>, n: nat): (r: seq<real>)
    requires n >= 1
    ensures |r| == |s| / n
  {
    var q := |s| / n;
    seq(q, k requires 0 <= k < q => BlockFits(k, q, n, |s|); s[k * n + n - 1])
  }

  /** sp.linAve(s, n)[n-1::n]. */
  function DownsampleChannel(s: seq<real>, n: nat): (r: seq<real>)
    requires n >= 1 && |s| >= 1
    ensures |r| == Max(|s|, 2 * n + 1) / n
  {
    EveryNth(LinAve(s, n), n)
  }

  /** The per-channel rewrite of downsample or smooth. */
  datatype ChannelOp = DownsampleOp(n: int) | SmoothOp(len: int, window: Window)

  /** The rewrite of one channel, or None where numpy raises: a step n < 1 (slice step zero,
      or a negative window), an empty channel, or a window smooth cannot normalize. */
  function Apply(op: ChannelOp, s: seq<real>): Option<seq<real>>
  {
    match op
    case DownsampleOp(n) =>
      if n >= 1 && |s| >= 1 then Some(DownsampleChannel(s, n)) else None
    case SmoothOp(len, window) =>
      if |s| >= 1 && WindowOk(window, len) then Some(SignalProcessing.Smooth(s, len, window)) else None
  }

  /** One pass of the loop body `shot[key] = f(shot[key])`: None when the key is missing
      (KeyError) or the rewrite fails. */
  function Step(c: Channels, key: Key, op: ChannelOp): Option<Channels>
  {
    if key !in c then None
    else
      match Apply(op, c[key])
      case None => None
      case Some(v) => Some(c[key := v])
  }

  /** The loop `for key in keys: shot[key] = f(shot[key])`: None as soon as a pass fails. */
  function EachKey(c: Channels, keys: seq<Key>, op: ChannelOp): Option<Channels>
    decreases |keys|
  {
    if keys == [] then Some(c)
    else
      match EachKey(c, keys[..|keys| - 1], op)
      case None => None
      case Some(c') => Step(c', keys[|keys| - 1], op)
  }

  /** A loop that runs to the end has run through every prefix. */
  lemma {:induction false} EachKeyPrefix(c: Channels, keys: seq<Key>, op: ChannelOp, i: nat)
    requires i <= |keys|
    requires EachKey(c, keys, op).Some?
    ensures EachKey(c, keys[..i], op).Some?
    decreases |keys|
  {
    if i < |keys| {
      assert keys[..|keys| - 1][..i] == keys[..i];
      EachKeyPrefix(c, keys[..|keys| - 1], op, i);
    } else {
      assert keys[..i] == keys;
    }
  }

  /** Pass i of a loop that runs to the end rewrites keys[i] in the channels the earlier
      passes left. */
  lemma EachKeyNext(c: Channels, keys: seq<Key>, op: ChannelOp, i: nat, cur: Channels)
    requires i < |keys| && EachKey(c, keys, op).Some? && EachKey(c, keys[..i], op) == Some(cur)
    ensures Step(cur, keys[i], op).Some?
    ensures EachKey(c, keys[..i + 1], op) == Step(cur, keys[i], op)
  {
    EachKeyPrefix(c, keys, op, i + 1);
    assert keys[..i + 1][..i] == keys[..i];
  }

  /** With each key listed once, the loop succeeds exactly when every listed key is present
      and its rewrite succeeds; it then rewrites exactly the listed channels, each once, and
      keeps the set of keys and every other channel. */
  lemma {:induction false} EachKeyClosedForm(c: Channels, keys: seq<Key>, op: ChannelOp)
    requires NoDup(keys)
    ensures EachKey(c, keys, op).Some? <==>
      forall k :: k in keys ==> k in c && Apply(op, c[k]).Some?
    ensures EachKey(c, keys, op).Some? ==>
      && EachKey(c, keys, op).value.Keys == c.Keys
      && forall k :: k in c ==>
           EachKey(c, keys, op).value[k] == if k in keys then Apply(op, c[k]).value else c[k]
    decreases |keys|
  {
    if keys != [] {
      var init := keys[..|keys| - 1];
      var key := keys[|keys| - 1];
      assert NoDup(init);
      EachKeyClosedForm(c, init, op);
      assert key !in init;
      forall k | k in keys ensures k in init || k == key {
        var i :| 0 <= i < |keys| && keys[i] == k;
        if i < |keys| - 1 {
          assert init[i] == k;
        }
      }
    }
  }

  /** Downsampling a channel of at least 2n + 1 samples keeps floor(|s| / n) values, value k
      being the mean of the 2n + 1 samples centred on sample k n + n - 1 (samples past the
      end count as zero). */
  lemma DownsampleChannelMeans(s: seq<real>, n: nat)
    requires n >= 1 && |s| >= 2 * n + 1
    ensures |DownsampleChannel(s, n)| == |s| / n
    ensures forall k :: 0 <= k < |s| / n ==>
      DownsampleChannel(s, n)[k] == WindowSum(s, k * n - 1, k * n + 2 * n) / (2 * n + 1) as real
  {
    LinAveWindowMean(s, n);
    forall k | 0 <= k < |s| / n
      ensures DownsampleChannel(s, n)[k] == WindowSum(s, k * n - 1, k * n + 2 * n) / (2 * n + 1) as real
    {
      BlockFits(k, |s| / n, n, |s|);
      var i := k * n + n - 1;
      assert DownsampleChannel(s, n)[k] == LinAve(s, n)[i];
      assert i - n == k * n - 1 && i + n + 1 == k * n + 2 * n;
    }
  }

  // ---------------------------------------------------------------------------------
  // rise_fall
  // ---------------------------------------------------------------------------------

  /** np.max(np.abs(B)) and np.argmax(np.abs(B)): the largest field magnitude and the first
      sample where it is reached. */
  function PeakOf(b: seq<real>): (p: Peak)
    requires |b| >= 1
    ensures p.indexMax < |b| && p.bMax == Abs(b[p.indexMax])
    ensures forall i :: 0 <= i < |b| ==> Abs(b[i]) <= p.bMax
    ensures forall i :: 0 <= i < p.indexMax ==> Abs(b[i]) < p.bMax
  {
    var a := AbsAll(b);
    assert forall i :: 0 <= i < |b| ==> a[i] == Abs(b[i]);
    MaxAtArgMax(a);
    Peak(MaxOf(a), ArgMax(a))
  }

  /** np.argmin(np.abs(B[:index_max] - thresh)): the first sample before the peak that is
      nearest to thresh. */
  function RisingStart(b: seq<real>, indexMax: nat, thresh: real): (r: nat)
    requires 1 <= indexMax <= |b|
    ensures r < indexMax
    ensures forall i :: 0 <= i < indexMax ==> Abs(b[r] - thresh) <= Abs(b[i] - thresh)
    ensures forall i :: 0 <= i < r ==> Abs(b[r] - thresh) < Abs(b[i] - thresh)
  {
    var d := DistTo(b[..indexMax], thresh);
    assert forall i :: 0 <= i < indexMax ==> d[i] == Abs(b[i] - thresh);
    ArgMin(d)
  }

  /** np.argmin(np.abs(B[index_max:] - thresh)): how far past the peak the first sample
      nearest to thresh lies. */
  function FallingLength(b: seq<real>, indexMax: nat, thresh: real): (r: nat)
    requires indexMax < |b|
    ensures indexMax + r < |b|
    ensures forall i :: indexMax <= i < |b| ==> Abs(b[indexMax + r] - thresh) <= Abs(b[i] - thresh)
    ensures forall i :: indexMax <= i < indexMax + r ==> Abs(b[indexMax + r] - thresh) < Abs(b[i] - thresh)
  {
    var d := DistTo(b[indexMax..], thresh);
    assert forall i :: indexMax <= i < |b| ==> d[i - indexMax] == Abs(b[i] - thresh);
    ArgMin(d)
  }

  /** One pass of `shot[p+'_rising'] = shot[p][lo:mid]; shot[p+'_falling'] = shot[p][mid:hi]`,
      None when the parameter is missing. */
  function Cut(c: Channels, p: string, lo: nat, mid: nat, hi: nat): Option<Channels>
    requires lo <= mid <= hi
  {
    if Channel(p) !in c then None
    else
      var data := c[Channel(p)];
      Some(c[Rising(p) := Slice(data, lo, mid)][Falling(p) := Slice(data, mid, hi)])
  }

  /** The loop over params. */
  function CutAll(c: Channels, params: seq<string>, lo: nat, mid: nat, hi: nat): Option<Channels>
    requires lo <= mid <= hi
    decreases |params|
  {
    if params == [] then Some(c)
    else
      match CutAll(c, params[..|params| - 1], lo, mid, hi)
      case None => None
      case Some(c') => Cut(c', params[|params| - 1], lo, mid, hi)
  }

  lemma {:induction false} CutAllPrefix(c: Channels, params: seq<string>, lo: nat, mid: nat, hi: nat, i: nat)
    requires lo <= mid <= hi && i <= |params|
    requires CutAll(c, params, lo, mid, hi).Some?
    ensures CutAll(c, params[..i], lo, mid, hi).Some?
    decreases |params|
  {
    if i < |params| {
      assert params[..|params| - 1][..i] == params[..i];
      CutAllPrefix(c, params[..|params| - 1], lo, mid, hi, i);
    } else {
      assert params[..i] == params;
    }
  }

  lemma InInit<T>(s: seq<T>, x: T)
    requires |s| >= 1 && x in s
    ensures x in s[..|s| - 1] || x == s[|s| - 1]
  {
    var i :| 0 <= i < |s| && s[i] == x;
    if i < |s| - 1 {
      assert s[..|s| - 1][i] == x;
    }
  }

  /** The cut succeeds exactly when every parameter is present; it keeps every key and
      leaves the parameters as read untouched. */
  lemma {:induction false} CutAllSome(c: Channels, params: seq<string>, lo: nat, mid: nat, hi: nat)
    requires lo <= mid <= hi
    ensures CutAll(c, params, lo, mid, hi).Some? <==> forall p :: p in params ==> Channel(p) in c
    ensures CutAll(c, params, lo, mid, hi).Some? ==>
      && (forall k :: k in c ==> k in CutAll(c, params, lo, mid, hi).value)
      && (forall k: Key :: k.Channel? && k in CutAll(c, params, lo, mid, hi).value ==> k in c && CutAll(c, params, lo, mid, hi).value[k] == c[k])
    decreases |params|
  {
    if params != [] {
      var init := params[..|params| - 1];
      var last := params[|params| - 1];
      CutAllSome(c, init, lo, mid, hi);
      assert forall p :: p in init ==> p in params;
      if forall p :: p in params ==> Channel(p) in c {
        assert Channel(last) in c;
      }
      if CutAll(c, params, lo, mid, hi).Some? {
        forall p | p in params ensures Channel(p) in c {
          InInit(params, p);
        }
      }
    }
  }

  /** It adds exactly the rising and falling key of every parameter. */
  lemma {:induction false} CutAllKeys(c: Channels, params: seq<string>, lo: nat, mid: nat, hi: nat)
    requires lo <= mid <= hi
    requires CutAll(c, params, lo, mid, hi).Some?
    ensures forall k :: k in CutAll(c, params, lo, mid, hi).value <==> k in c || (!k.Channel? && k.name in params)
    decreases |params|
  {
    if params != [] {
      var init := params[..|params| - 1];
      CutAllSome(c, params, lo, mid, hi);
      CutAllSome(c, init, lo, mid, hi);
      CutAllKeys(c, init, lo, mid, hi);
      forall p | p in params ensures p in init || p == params[|params| - 1] {
        InInit(params, p);
      }
    }
  }

  /** The rising and falling part of each parameter are slices of the parameter as read; a
      parameter listed twice is cut twice to the same result. */
  lemma {:induction false} CutAllParts(c: Channels, params: seq<string>, lo: nat, mid: nat, hi: nat)
    requires lo <= mid <= hi
    requires CutAll(c, params, lo, mid, hi).Some?
    ensures forall p :: p in params ==>
      && Channel(p) in c
      && Rising(p) in CutAll(c, params, lo, mid, hi).value
      && Falling(p) in CutAll(c, params, lo, mid, hi).value
      && CutAll(c, params, lo, mid, hi).value[Rising(p)] == Slice(c[Channel(p)], lo, mid)
      && CutAll(c, params, lo, mid, hi).value[Falling(p)] == Slice(c[Channel(p)], mid, hi)
    decreases |params|
  {
    if params != [] {
      var init := params[..|params| - 1];
      CutAllSome(c, params, lo, mid, hi);
      CutAllSome(c, init, lo, mid, hi);
      CutAllParts(c, init, lo, mid, hi);
      forall p | p in params ensures p in init || p == params[|params| - 1] {
        InInit(params, p);
      }
    }
  }

  /** The keys the resistance step reads. */
  predicate HasResistanceInputs(c: Channels)
  {
    && Rising("Vxx") in c && Rising("Vxy") in c && Rising("I") in c
    && Falling("Vxx") in c && Falling("Vxy") in c && Falling("I") in c
    && Divisible(c[Rising("Vxx")], c[Rising("I")]) && Divisible(c[Falling("Vxx")], c[Falling("I")])
    && Divisible(c[Rising("Vxy")], c[Rising("I")]) && Divisible(c[Falling("Vxy")], c[Falling("I")])
  }

  /** shot['Rxx_rising'] = shot['Vxx_rising'] / shot['I_rising'] and its three siblings. */
  function WithResistances(c: Channels): (r: Option<Channels>)
    ensures r.Some? <==> HasResistanceInputs(c)
    ensures r.Some? ==>
      && Rising("Rxx") in r.value && Falling("Rxx") in r.value
      && Rising("Rxy") in r.value && Falling("Rxy") in r.value
  {
    if !HasResistanceInputs(c) then None
    else
      Some(c[Rising("Rxx") := Divide(c[Rising("Vxx")], c[Rising("I")])]
            [Falling("Rxx") := Divide(c[Falling("Vxx")], c[Falling("I")])]
            [Rising("Rxy") := Divide(c[Rising("Vxy")], c[Rising("I")])]
            [Falling("Rxy") := Divide(c[Falling("Vxy")], c[Falling("I")])])
  }

  /** A field B that rise_fall can cut: present, not empty, and peaking after its first
      sample (np.max raises on an empty array, np.argmin on the empty B[:0]). */
  predicate HasPeak(c: Channels)
  {
    Channel("B") in c && |c[Channel("B")]| >= 1 && PeakOf(c[Channel("B")]).indexMax >= 1
  }

  /** The cut points rise_fall uses: the threshold crossing before the peak, the peak and
      the end of the falling part. */
  function CutPoints(c: Channels, thresh: real): (r: (nat, nat, nat))
    requires HasPeak(c)
    ensures r.0 < r.1 <= r.2 < |c[Channel("B")]|
  {
    var b := c[Channel("B")];
    var indexMax := PeakOf(b).indexMax;
    (RisingStart(b, indexMax, thresh), indexMax, indexMax + FallingLength(b, indexMax, thresh))
  }

  /** The channels after rise_fall, or None where it raises: no B, an empty B, a peak at
      the first sample, a missing parameter or a missing input of the resistances. */
  function RiseFallChannels(c: Channels, params: seq<string>, thresh: real): (r: Option<Channels>)
    ensures r.Some? ==> HasPeak(c)
  {
    if !HasPeak(c) then None
    else
      var cp := CutPoints(c, thresh);
      match CutAll(c, params, cp.0, cp.1, cp.2)
      case None => None
      case Some(c') => WithResistances(c')
  }

  /** The resistance step adds Rxx and Rxy for both parts, sample by sample the voltage
      over the current, and keeps every other channel. */
  lemma ResistanceParts(c: Channels)
    requires WithResistances(c).Some?
    ensures var r := WithResistances(c).value;
      && HasResistanceInputs(c)
      && r.Keys == c.Keys + {Rising("Rxx"), Falling("Rxx"), Rising("Rxy"), Falling("Rxy")}
      && (forall k :: k in c && k !in {Rising("Rxx"), Falling("Rxx"), Rising("Rxy"), Falling("Rxy")} ==> r[k] == c[k])
      && |r[Rising("Rxx")]| == |c[Rising("I")]| && |r[Falling("Rxx")]| == |c[Falling("I")]|
      && |r[Rising("Rxy")]| == |c[Rising("I")]| && |r[Falling("Rxy")]| == |c[Falling("I")]|
      && (forall i :: 0 <= i < |c[Rising("I")]| ==>
            r[Rising("Rxx")][i] == c[Rising("Vxx")][i] / c[Rising("I")][i]
            && r[Rising("Rxy")][i] == c[Rising("Vxy")][i] / c[Rising("I")][i])
      && (forall i :: 0 <= i < |c[Falling("I")]| ==>
            r[Falling("Rxx")][i] == c[Falling("Vxx")][i] / c[Falling("I")][i]
            && r[Falling("Rxy")][i] == c[Falling("Vxy")][i] / c[Falling("I")][i])
  {
  }

  /** q is a / b sample by sample, with no zero divisor. */
  predicate Quotient(q: seq<real>, a: seq<real>, b: seq<real>)
  {
    |q| == |a| == |b| && forall i :: 0 <= i < |b| ==> b[i] != 0.0 && q[i] == a[i] / b[i]
  }

  /** Both parts of Rxx are Vxx / I and both parts of Rxy are Vxy / I. */
  predicate ResistancesHold(r: Channels)
  {
    && Rising("Rxx") in r && Falling("Rxx") in r && Rising("Rxy") in r && Falling("Rxy") in r
    && Rising("Vxx") in r && Falling("Vxx") in r && Rising("Vxy") in r && Falling("Vxy") in r
    && Rising("I") in r && Falling("I") in r
    && Quotient(r[Rising("Rxx")], r[Rising("Vxx")], r[Rising("I")])
    && Quotient(r[Falling("Rxx")], r[Falling("Vxx")], r[Falling("I")])
    && Quotient(r[Rising("Rxy")], r[Rising("Vxy")], r[Rising("I")])
    && Quotient(r[Falling("Rxy")], r[Falling("Vxy")], r[Falling("I")])
  }

  /** After the resistance step the resistances are the quotients of the channels it leaves. */
  lemma ResistancesAfterDivision(c: Channels)
    requires WithResistances(c).Some?
    ensures ResistancesHold(WithResistances(c).value)
  {
    ResistanceParts(c);
    ResistanceKeeps(c, Rising("Vxx"));
    ResistanceKeeps(c, Falling("Vxx"));
    ResistanceKeeps(c, Rising("Vxy"));
    ResistanceKeeps(c, Falling("Vxy"));
    ResistanceKeeps(c, Rising("I"));
    ResistanceKeeps(c, Falling("I"));
  }

  /** After rise_fall, Rxx = Vxx / I and Rxy = Vxy / I on both parts. */
  lemma RiseFallResistances(c: Channels, params: seq<string>, thresh: real)
    requires RiseFallChannels(c, params, thresh).Some?
    ensures ResistancesHold(RiseFallChannels(c, params, thresh).value)
  {
    RiseFallNeedsPeak(c, params, thresh);
    var cp := CutPoints(c, thresh);
    ResistancesAfterDivision(CutAll(c, params, cp.0, cp.1, cp.2).value);
  }

  /** The field of the worked example below. */
  function ExampleField(): seq<real>
  {
    [0.0, 0.01, 0.03, 0.06, 0.1, 0.06, 0.02, 0.0]
  }

  /** The worked example B = [0, .01, .03, .06, .1, .06, .02, 0] with thresh .05: the peak
      is at 4, the rising part starts at 3 and the falling part is one sample long, so the
      cut points are (3, 4, 5). */
  lemma RiseFallExample()
    ensures PeakOf(ExampleField()) == Peak(0.1, 4)
    ensures RisingStart(ExampleField(), 4, 0.05) == 3
    ensures FallingLength(ExampleField(), 4, 0.05) == 1
    ensures CutPoints(map[Channel("B") := ExampleField()], 0.05) == (3, 4, 5)
  {
    ExamplePeak();
    ExampleRisingStart();
    ExampleFallingLength();
  }

  lemma ExamplePeak()
    ensures PeakOf(ExampleField()) == Peak(0.1, 4)
  {
    var a := AbsAll(ExampleField());
    assert a[0] == 0.0 && a[1] == 0.01 && a[2] == 0.03 && a[3] == 0.06;
    assert a[4] == 0.1 && a[5] == 0.06 && a[6] == 0.02 && a[7] == 0.0;
    ArgMaxUnique(a, 4);
    MaxAtArgMax(a);
  }

  lemma ExampleRisingStart()
    ensures RisingStart(ExampleField(), 4, 0.05) == 3
  {
    var d := DistTo(ExampleField()[..4], 0.05);
    assert d[0] == 0.05 && d[1] == 0.04 && d[2] == 0.02 && d[3] == 0.01;
    ArgMinUnique(d, 3);
  }

  lemma ExampleFallingLength()
    ensures FallingLength(ExampleField(), 4, 0.05) == 1
  {
    var e := DistTo(ExampleField()[4..], 0.05);
    assert e[0] == 0.05 && e[1] == 0.01 && e[2] == 0.03 && e[3] == 0.05;
    ArgMinUnique(e, 1);
  }

  /** rise_fall succeeds only on a B that has a peak after its first sample, and then is the
      cut followed by the resistance step. */
  lemma RiseFallNeedsPeak(c: Channels, params: seq<string>, thresh: real)
    requires RiseFallChannels(c, params, thresh).Some?
    ensures HasPeak(c)
    ensures CutAll(c, params, CutPoints(c, thresh).0, CutPoints(c, thresh).1, CutPoints(c, thresh).2).Some?
    ensures RiseFallChannels(c, params, thresh)
      == WithResistances(CutAll(c, params, CutPoints(c, thresh).0, CutPoints(c, thresh).1, CutPoints(c, thresh).2).value)
  {
    var cp := CutPoints(c, thresh);
    assert CutAll(c, params, cp.0, cp.1, cp.2).Some?;
  }

  /** The resistance step adds exactly the four resistances to the keys. */
  lemma ResistanceKeys(c: Channels)
    requires WithResistances(c).Some?
    ensures WithResistances(c).value.Keys == c.Keys + {Rising("Rxx"), Falling("Rxx"), Rising("Rxy"), Falling("Rxy")}
  {
  }

  /** The resistance step keeps every key other than the four resistances. */
  lemma ResistanceKeeps(c: Channels, k: Key)
    requires WithResistances(c).Some?
    requires k != Rising("Rxx") && k != Falling("Rxx") && k != Rising("Rxy") && k != Falling("Rxy")
    ensures k in WithResistances(c).value <==> k in c
    ensures k in c ==> WithResistances(c).value[k] == c[k]
  {
  }

  /** What rise_fall leaves behind for a parameter other than the resistances: its rising
      part runs from the threshold crossing before the peak up to the peak and its falling
      part from the peak to the falling crossing, the two together being the parameter over
      [crossing, falling crossing) when it is that long. */
  lemma RiseFallParts(c: Channels, params: seq<string>, thresh: real, p: string)
    requires RiseFallChannels(c, params, thresh).Some?
    requires p in params && p != "Rxx" && p != "Rxy"
    ensures HasPeak(c)
    ensures var (lo, mid, hi) := CutPoints(c, thresh);
      var r := RiseFallChannels(c, params, thresh).value;
      && Channel(p) in c && Rising(p) in r && Falling(p) in r
      && r[Rising(p)] == Slice(c[Channel(p)], lo, mid)
      && r[Falling(p)] == Slice(c[Channel(p)], mid, hi)
      && (|c[Channel(p)]| >= hi ==> r[Rising(p)] + r[Falling(p)] == c[Channel(p)][lo..hi])
  {
    RiseFallNeedsPeak(c, params, thresh);
    var (lo, mid, hi) := CutPoints(c, thresh);
    CutThenDivideParts(c, params, lo, mid, hi, p);
  }

  /** The cut at (lo, mid, hi) followed by the resistance step leaves the rising part
      c[p][lo:mid] and the falling part c[p][mid:hi] of a parameter p other than the
      resistances. */
  lemma CutThenDivideParts(c: Channels, params: seq<string>, lo: nat, mid: nat, hi: nat, p: string)
    requires lo <= mid <= hi
    requires CutAll(c, params, lo, mid, hi).Some? && WithResistances(CutAll(c, params, lo, mid, hi).value).Some?
    requires p in params && p != "Rxx" && p != "Rxy"
    ensures var r := WithResistances(CutAll(c, params, lo, mid, hi).value).value;
      && Channel(p) in c && Rising(p) in r && Falling(p) in r
      && r[Rising(p)] == Slice(c[Channel(p)], lo, mid)
      && r[Falling(p)] == Slice(c[Channel(p)], mid, hi)
      && (|c[Channel(p)]| >= hi ==> r[Rising(p)] + r[Falling(p)] == c[Channel(p)][lo..hi])
  {
    CutAllParts(c, params, lo, mid, hi);
    var cut := CutAll(c, params, lo, mid, hi).value;
    ResistanceKeeps(cut, Rising(p));
    ResistanceKeeps(cut, Falling(p));
    if |c[Channel(p)]| >= hi {
      SliceConcat(c[Channel(p)], lo, mid, hi);
    }
  }

  /** The rising part of B is at least one sample long and ends just before the peak; the
      falling part of B starts at the peak. */
  lemma RiseFallField(c: Channels, params: seq<string>, thresh: real)
    requires RiseFallChannels(c, params, thresh).Some?
    requires "B" in params
    ensures HasPeak(c)
    ensures var (lo, mid, hi) := CutPoints(c, thresh);
      var r := RiseFallChannels(c, params, thresh).value;
      var b := c[Channel("B")];
      && Rising("B") in r && Falling("B") in r
      && |r[Rising("B")]| == mid - lo >= 1
      && r[Rising("B")][mid - lo - 1] == b[mid - 1]
      && |r[Falling("B")]| == hi - mid
      && (hi > mid ==> r[Falling("B")][0] == b[mid] && Abs(b[mid]) == PeakOf(b).bMax)
  {
    RiseFallParts(c, params, thresh, "B");
  }

  // ---------------------------------------------------------------------------------
  // interp_shots
  // ---------------------------------------------------------------------------------

  /** The inputs np.interp is given, for the rising and for the falling part. */
  predicate ResampleInputs(c: Channels, p: string)
  {
    && Rising("B") in c && Falling("B") in c && Rising(p) in c && Falling(p) in c
    && Knots(AbsAll(c[Rising("B")]), c[Rising(p)])
    && Knots(AbsAll(Reverse(c[Falling("B")])), Reverse(c[Falling(p)]))
  }

  /** One pass of the first loop of interp_shots: parameter p of a shot that is not the
      reference is interpolated from the shot's |B| onto the reference |B| (the falling
      part flipped so that |B| rises). B itself is left for the second loop. */
  function Resample(c: Channels, refRising: seq<real>, refFalling: seq<real>, p: string): Option<Channels>
  {
    if p == "B" then Some(c)
    else if !ResampleInputs(c, p) then None
    else
      Some(c[Rising(p) := Interp(refRising, AbsAll(c[Rising("B")]), c[Rising(p)])]
            [Falling(p) := Interp(refFalling, AbsAll(Reverse(c[Falling("B")])), Reverse(c[Falling(p)]))])
  }

  function ResampleAll(c: Channels, refRising: seq<real>, refFalling: seq<real>, params: seq<string>): Option<Channels>
    decreases |params|
  {
    if params == [] then Some(c)
    else
      match ResampleAll(c, refRising, refFalling, params[..|params| - 1])
      case None => None
      case Some(c') => Resample(c', refRising, refFalling, params[|params| - 1])
  }

  lemma {:induction false} ResampleAllPrefix(c: Channels, refRising: seq<real>, refFalling: seq<real>, params: seq<string>, i: nat)
    requires i <= |params|
    requires ResampleAll(c, refRising, refFalling, params).Some?
    ensures ResampleAll(c, refRising, refFalling, params[..i]).Some?
    decreases |params|
  {
    if i < |params| {
      assert params[..|params| - 1][..i] == params[..i];
      ResampleAllPrefix(c, refRising, refFalling, params[..|params| - 1], i);
    } else {
      assert params[..i] == params;
    }
  }

  /** The field of a shot that is not the reference, interpolated against itself onto the
      reference field. */
  function ResampleField(c: Channels, refRising: seq<real>, refFalling: seq<real>): Option<Channels>
  {
    if Rising("B") !in c || Falling("B") !in c then None
    else
      var rising := AbsAll(c[Rising("B")]);
      var falling := AbsAll(Reverse(c[Falling("B")]));
      if !Knots(rising, rising) || !Knots(falling, falling) then None
      else Some(c[Rising("B") := Interp(refRising, rising, rising)][Falling("B") := Interp(refFalling, falling, falling)])
  }

  /** The field of the reference shot, replaced by its magnitude. */
  function AbsField(c: Channels): Option<Channels>
  {
    if Rising("B") !in c || Falling("B") !in c then None
    else Some(c[Rising("B") := AbsAll(c[Rising("B")])][Falling("B") := AbsAll(c[Falling("B")])])
  }

  /** shot['B_max'] of every shot. */
  function PeakFields(shots: seq<Shot>): (r: seq<real>)
    reads shots
    requires forall i :: 0 <= i < |shots| ==> shots[i].peak.Some?
    ensures |r| == |shots|
  {
    seq(|shots|, i reads shots requires 0 <= i < |shots| && shots[i].peak.Some? => shots[i].peak.value.bMax)
  }

  function ChannelsOf(shots: seq<Shot>): (r: seq<Channels>)
    reads shots
    ensures |r| == |shots|
  {
    seq(|shots|, i reads shots requires 0 <= i < |shots| => shots[i].channels)
  }

  /** What interp_shots leaves in shot i, given the channels cs of all shots and the index
      ref of the shot with the lowest peak, or None where it raises. */
  function Aligned(cs: seq<Channels>, ref: nat, i: nat, params: seq<string>): (r: Option<Channels>)
    requires ref < |cs| && i < |cs|
    ensures r.Some? ==> Rising("B") in cs[ref] && Falling("B") in cs[ref]
    ensures r.Some? ==>
      && Rising("B") in r.value && Falling("B") in r.value
      && |r.value[Rising("B")]| == |cs[ref][Rising("B")]|
      && |r.value[Falling("B")]| == |cs[ref][Falling("B")]|
  {
    if Rising("B") !in cs[ref] || Falling("B") !in cs[ref] then None
    else if i == ref then AbsField(cs[i])
    else
      var refRising := AbsAll(cs[ref][Rising("B")]);
      var refFalling := AbsAll(cs[ref][Falling("B")]);
      match ResampleAll(cs[i], refRising, refFalling, params)
      case None => None
      case Some(c1) =>
        match ResampleField(c1, refRising, refFalling)
        case None => None
        case Some(c2) => WithResistances(c2)
  }

  /** The channels of shot i between the two loops of interp_shots. */
  function Resampled(cs: seq<Channels>, ref: nat, i: nat, params: seq<string>): Channels
    requires ref < |cs| && i < |cs|
    requires Aligned(cs, ref, i, params).Some?
  {
    if i == ref then cs[i]
    else ResampleAll(cs[i], AbsAll(cs[ref][Rising("B")]), AbsAll(cs[ref][Falling("B")]), params).value
  }

  predicate Alignable(cs: seq<Channels>, ref: nat, params: seq<string>)
  {
    ref < |cs| && forall i :: 0 <= i < |cs| ==> Aligned(cs, ref, i, params).Some?
  }

  /** interp_shots(shots, params): the shot with the lowest recorded peak is the reference;
      every other shot has each parameter resampled onto the reference's |B| and then its
      own |B| as well, with the resistances recomputed; the reference keeps its data but its
      field becomes |B|. */
  method InterpShots(shots: seq<Shot>, params: seq<string>)
    modifies shots
    requires |shots| >= 1
    requires forall i, j :: 0 <= i < j < |shots| ==> shots[i] != shots[j]
    requires forall i :: 0 <= i < |shots| ==> shots[i].peak.Some?
    requires Alignable(ChannelsOf(shots), ArgMin(PeakFields(shots)), params)
    ensures forall i :: 0 <= i < |shots| ==> shots[i].peak == old(shots[i].peak)
    ensures forall i :: 0 <= i < |shots| ==>
      shots[i].channels == Aligned(old(ChannelsOf(shots)), old(ArgMin(PeakFields(shots))), i, params).value
  {
    var store := PeakStore(shots);
    var minB := ArgMin(store);
    ghost var cs := ChannelsOf(shots);
    ResampleLoop(shots, minB, params, cs);
    FieldLoop(shots, minB, params, cs);
  }

  /** B_max_store: the recorded peak of every shot, in order. */
  method PeakStore(shots: seq<Shot>) returns (store: seq<real>)
    requires forall i :: 0 <= i < |shots| ==> shots[i].peak.Some?
    ensures store == PeakFields(shots)
  {
    store := [];
    for i := 0 to |shots|
      invariant store == PeakFields(shots)[..i]
    {
      store := store + [shots[i].peak.value.bMax];
    }
  }

  /** The first loop of interp_shots: every shot but the reference has its parameters
      resampled. */
  method ResampleLoop(shots: seq<Shot>, minB: nat, params: seq<string>, ghost cs: seq<Channels>)
    modifies shots
    requires minB < |shots| && cs == ChannelsOf(shots)
    requires forall i, j :: 0 <= i < j < |shots| ==> shots[i] != shots[j]
    requires Alignable(cs, minB, params)
    ensures forall j :: 0 <= j < |shots| ==> shots[j].peak == old(shots[j].peak)
    ensures forall j :: 0 <= j < |shots| ==> shots[j].channels == Resampled(cs, minB, j, params)
  {
    var ref := shots[minB];
    for i := 0 to |shots|
      invariant forall j :: 0 <= j < |shots| ==> shots[j].peak == old(shots[j].peak)
      invariant forall j :: 0 <= j < i ==> shots[j].channels == Resampled(cs, minB, j, params)
      invariant forall j :: i <= j < |shots| ==> shots[j].channels == cs[j]
    {
      if i != minB {
        assert Aligned(cs, minB, i, params).Some?;
        shots[i].ResampleParams(params, AbsAll(ref.channels[Rising("B")]), AbsAll(ref.channels[Falling("B")]));
      }
    }
  }

  /** The second loop of interp_shots: the reference's field becomes |B|; every other shot
      has its field resampled and its resistances recomputed. */
  method FieldLoop(shots: seq<Shot>, minB: nat, params: seq<string>, ghost cs: seq<Channels>)
    modifies shots
    requires minB < |shots| && |cs| == |shots|
    requires forall i, j :: 0 <= i < j < |shots| ==> shots[i] != shots[j]
    requires Alignable(cs, minB, params)
    requires forall j :: 0 <= j < |shots| ==> shots[j].channels == Resampled(cs, minB, j, params)
    ensures forall j :: 0 <= j < |shots| ==> shots[j].peak == old(shots[j].peak)
    ensures forall j :: 0 <= j < |shots| ==> shots[j].channels == Aligned(cs, minB, j, params).value
  {
    var ref := shots[minB];
    for i := 0 to |shots|
      invariant forall j :: 0 <= j < |shots| ==> shots[j].peak == old(shots[j].peak)
      invariant forall j :: 0 <= j < i ==> shots[j].channels == Aligned(cs, minB, j, params).value
      invariant forall j :: i <= j < |shots| ==> shots[j].channels == Resampled(cs, minB, j, params)
    {
      assert Aligned(cs, minB, minB, params).Some?;
      AlignedStep(cs, minB, i, params, ref.channels);
      if i == minB {
        shots[i].AbsOwnField();
      } else {
        var refRising := AbsAll(ref.channels[Rising("B")]);
        var refFalling := AbsAll(ref.channels[Falling("B")]);
        shots[i].ResampleOwnField(refRising, refFalling);
        shots[i].AddResistances();
      }
    }
  }

  /** One pass of the second loop, on the channels the first loop left and with the
      reference's channels as they stand (visited or not), yields the aligned channels. */
  lemma AlignedStep(cs: seq<Channels>, ref: nat, i: nat, params: seq<string>, now: Channels)
    requires Alignable(cs, ref, params) && i < |cs|
    requires AbsField(cs[ref]).Some?
    requires now == cs[ref] || now == AbsField(cs[ref]).value
    ensures Rising("B") in now && Falling("B") in now
    ensures i == ref ==> Aligned(cs, ref, i, params) == AbsField(Resampled(cs, ref, i, params))
    ensures i != ref ==>
      var field := ResampleField(Resampled(cs, ref, i, params), AbsAll(now[Rising("B")]), AbsAll(now[Falling("B")]));
      && field.Some?
      && Aligned(cs, ref, i, params) == WithResistances(field.value)
  {
    assert Aligned(cs, ref, i, params).Some?;
    SameReference(cs, ref, now);
  }

  /** The reference field read in the second loop is the original one up to magnitude, so
      it does not matter whether the reference has already been visited. */
  lemma SameReference(cs: seq<Channels>, ref: nat, now: Channels)
    requires ref < |cs|
    requires AbsField(cs[ref]).Some?
    requires now == cs[ref] || now == AbsField(cs[ref]).value
    ensures Rising("B") in now && Falling("B") in now
    ensures AbsAll(now[Rising("B")]) == AbsAll(cs[ref][Rising("B")])
    ensures AbsAll(now[Falling("B")]) == AbsAll(cs[ref][Falling("B")])
  {
    AbsAllIdempotent(cs[ref][Rising("B")]);
    AbsAllIdempotent(cs[ref][Falling("B")]);
  }

  /** The first loop keeps the set of keys and the field, and touches only the rising and
      falling parts of the listed parameters. */
  lemma {:induction false} ResampleAllKeeps(c: Channels, refRising: seq<real>, refFalling: seq<real>, params: seq<string>)
    requires ResampleAll(c, refRising, refFalling, params).Some?
    ensures var r := ResampleAll(c, refRising, refFalling, params).value;
      && r.Keys == c.Keys
      && forall k :: k in c && !(!k.Channel? && k.name in params && k.name != "B") ==> r[k] == c[k]
    decreases |params|
  {
    if params != [] {
      var init := params[..|params| - 1];
      ResampleAllPrefix(c, refRising, refFalling, params, |params| - 1);
      ResampleAllKeeps(c, refRising, refFalling, init);
      assert forall p :: p in init ==> p in params;
    }
  }

  /** With each parameter listed once, the first loop leaves each parameter other than B
      resampled from the shot's own |B| onto the reference |B|. */
  lemma {:induction false} ResampleAllParts(c: Channels, refRising: seq<real>, refFalling: seq<real>, params: seq<string>)
    requires NoDup(params)
    requires ResampleAll(c, refRising, refFalling, params).Some?
    ensures forall p :: p in params && p != "B" ==>
      && ResampleInputs(c, p)
      && Rising(p) in ResampleAll(c, refRising, refFalling, params).value
      && Falling(p) in ResampleAll(c, refRising, refFalling, params).value
      && ResampleAll(c, refRising, refFalling, params).value[Rising(p)]
           == Interp(refRising, AbsAll(c[Rising("B")]), c[Rising(p)])
      && ResampleAll(c, refRising, refFalling, params).value[Falling(p)]
           == Interp(refFalling, AbsAll(Reverse(c[Falling("B")])), Reverse(c[Falling(p)]))
    decreases |params|
  {
    if params != [] {
      var init := params[..|params| - 1];
      var last := params[|params| - 1];
      assert NoDup(init);
      ResampleAllPrefix(c, refRising, refFalling, params, |params| - 1);
      ResampleAllParts(c, refRising, refFalling, init);
      ResampleAllKeeps(c, refRising, refFalling, init);
      assert last !in init;
      forall p | p in params ensures p in init || p == last {
        InInit(params, p);
      }
    }
  }

    /** The reference's field becomes its magnitude; every other shot's field becomes the
      reference's |B| limited to the range of its own |B|, so it equals the reference field
      wherever that lies within the shot's own sweep. */
  lemma AlignedField(cs: seq<Channels>, ref: nat, params: seq<string>, i: nat)
    requires Alignable(cs, ref, params) && i < |cs|
    ensures Rising("B") in cs[i] && Falling("B") in cs[i] && Rising("B") in cs[ref] && Falling("B") in cs[ref]
    ensures var r := Aligned(cs, ref, i, params).value;
      var refRising := AbsAll(cs[ref][Rising("B")]);
      var own := AbsAll(cs[i][Rising("B")]);
      && Rising("B") in r && |r[Rising("B")]| == |refRising|
      && (i == ref ==> r[Rising("B")] == refRising)
      && (i != ref ==> |own| >= 1 && forall k :: 0 <= k < |refRising| ==>
            r[Rising("B")][k] == Clamp(refRising[k], own[0], own[|own| - 1]))
    ensures var r := Aligned(cs, ref, i, params).value;
      var refFalling := AbsAll(cs[ref][Falling("B")]);
      var ownF := AbsAll(Reverse(cs[i][Falling("B")]));
      && Falling("B") in r && |r[Falling("B")]| == |refFalling|
      && (i == ref ==> r[Falling("B")] == refFalling)
      && (i != ref ==> |ownF| >= 1 && forall k :: 0 <= k < |refFalling| ==>
            r[Falling("B")][k] == Clamp(refFalling[k], ownF[0], ownF[|ownF| - 1]))
  {
    assert Aligned(cs, ref, i, params).Some?;
    if i != ref {
      var refRising := AbsAll(cs[ref][Rising("B")]);
      var refFalling := AbsAll(cs[ref][Falling("B")]);
      var c1 := ResampleAll(cs[i], refRising, refFalling, params).value;
      ResampleAllKeeps(cs[i], refRising, refFalling, params);
      var c2 := ResampleField(c1, refRising, refFalling).value;
      ResistanceKeeps(c2, Rising("B"));
      ResistanceKeeps(c2, Falling("B"));
      var own := AbsAll(cs[i][Rising("B")]);
      InterpIdentity(refRising, own);
      var ownF := AbsAll(Reverse(cs[i][Falling("B")]));
      InterpIdentity(refFalling, ownF);
    }
  }

  /** With each parameter listed once, every parameter of a shot that is not the reference,
      other than B and the resistances, ends up as np.interp of its rising (falling) part
      from the shot's own |B| (flipped for the falling part) onto the reference |B|. */
  lemma AlignedParams(cs: seq<Channels>, ref: nat, params: seq<string>, i: nat, p: string)
    requires Alignable(cs, ref, params) && i < |cs| && i != ref
    requires NoDup(params) && p in params && p != "B" && p != "Rxx" && p != "Rxy"
    ensures Rising("B") in cs[ref] && Falling("B") in cs[ref]
    ensures ResampleInputs(cs[i], p)
    ensures var r := Aligned(cs, ref, i, params).value;
      && Rising(p) in r && Falling(p) in r
      && r[Rising(p)] == Interp(AbsAll(cs[ref][Rising("B")]), AbsAll(cs[i][Rising("B")]), cs[i][Rising(p)])
      && r[Falling(p)] == Interp(AbsAll(cs[ref][Falling("B")]), AbsAll(Reverse(cs[i][Falling("B")])), Reverse(cs[i][Falling(p)]))
  {
    assert Aligned(cs, ref, i, params).Some?;
    var refRising := AbsAll(cs[ref][Rising("B")]);
    var refFalling := AbsAll(cs[ref][Falling("B")]);
    var c1 := ResampleAll(cs[i], refRising, refFalling, params).value;
    ResampleAllParts(cs[i], refRising, refFalling, params);
    ResampleAllKeeps(cs[i], refRising, refFalling, params);
    var c2 := ResampleField(c1, refRising, refFalling).value;
    ResistanceKeeps(c2, Rising(p));
    ResistanceKeeps(c2, Falling(p));
  }

  /** After interp_shots, every shot other than the reference has its resistances
      recomputed from its resampled channels: Rxx = Vxx / I and Rxy = Vxy / I on both
      parts. */
  lemma AlignedResistances(cs: seq<Channels>, ref: nat, params: seq<string>, i: nat)
    requires Alignable(cs, ref, params) && i < |cs| && i != ref
    ensures ResistancesHold(Aligned(cs, ref, i, params).value)
  {
    assert Aligned(cs, ref, i, params).Some?;
    var refRising := AbsAll(cs[ref][Rising("B")]);
    var refFalling := AbsAll(cs[ref][Falling("B")]);
    var c1 := ResampleAll(cs[i], refRising, refFalling, params).value;
    ResistancesAfterDivision(ResampleField(c1, refRising, refFalling).value);
  }

  /** The reference keeps every channel except its field. */
  lemma AlignedReference(cs: seq<Channels>, ref: nat, params: seq<string>)
    requires Alignable(cs, ref, params)
    ensures Aligned(cs, ref, ref, params).value.Keys == cs[ref].Keys
    ensures forall k :: k in cs[ref] && k != Rising("B") && k != Falling("B") ==>
      Aligned(cs, ref, ref, params).value[k] == cs[ref][k]
  {
    assert Aligned(cs, ref, ref, params).Some?;
  }
}

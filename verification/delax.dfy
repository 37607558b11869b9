/**
  The plugin's per-sample processing: two delay engines, one per channel,
  sharing one delay length. Each sample, each engine's write head is placed
  `d` slots ahead of its read head; the popped sample, scaled by the feedback
  gain, is added to the input, and the sum is both written back and output.
  That makes each channel a feedback comb filter.
 */
module Delax {
  import opened Numeric
  import opened Ring
  import opened DelayEngine

  /** Converts a delay time given in MILLISECONDS (despite the name) into a
      whole number of samples, rounding down; negative products saturate to
      0 like the source's float-to-`usize` cast. */
  function SecondsToSamples(ms: real, sampleRate: real): (r: nat)
    ensures ms / 1000.0 * sampleRate >= 0.0 ==>
              r as real <= ms / 1000.0 * sampleRate < r as real + 1.0
    ensures ms / 1000.0 * sampleRate < 0.0 ==> r == 0
  {
    ToUsize(ms / 1000.0 * sampleRate)
  }

  lemma SecondsToSamplesOfZero(sampleRate: real)
    ensures SecondsToSamples(0.0, sampleRate) == 0
  {
  }

  /** A longer delay time never gives fewer samples. */
  lemma SecondsToSamplesMonotone(ms1: real, ms2: real, sampleRate: real)
    requires ms1 <= ms2 && sampleRate >= 0.0
    ensures SecondsToSamples(ms1, sampleRate) <= SecondsToSamples(ms2, sampleRate)
  {
    var x1, x2 := ms1 / 1000.0 * sampleRate, ms2 / 1000.0 * sampleRate;
    assert x1 <= x2 by {
      assert ms1 / 1000.0 <= ms2 / 1000.0;
      assert (ms2 / 1000.0 - ms1 / 1000.0) * sampleRate >= 0.0;
    }
  }

  /** What every engine of the plugin satisfies between samples. */
  predicate ChannelInv(e: Engine)
  {
    |e.buffer| > 0 && e.readHead < |e.buffer| && WrapJumps(e)
  }

  /** How one sample moves an engine from `e` to `e'` when `y` is written
      `d` slots ahead of the read head: that one slot changes, the read head
      advances by one, the write head ends just past the written slot, and
      the jump lists are kept. */
  predicate StepsTo(e: Engine, e': Engine, y: real, d: nat)
    requires |e.buffer| > 0
  {
    var w := (e.readHead + d) % |e.buffer|;
    && e'.buffer == e.buffer[w := y]
    && e'.readHead == (e.readHead + 1) % |e.buffer|
    && e'.writeHead == w + 1
    && e'.readJumps == e.readJumps && e'.writeJumps == e.writeJumps
  }

  /** One channel of one sample: set the delay, pop, add the scaled pop to the
      input, write the sum back. Because the write head was just placed
      inside the buffer, the unchecked write is in bounds. */
  function ChannelStep(e: Engine, x: real, d: nat, fb: real): (r: (real, Engine))
    requires |e.buffer| > 0 && e.readHead < |e.buffer|
    ensures r.0 == x + fb * e.buffer[e.readHead]
    ensures |r.1.buffer| == |e.buffer|
    ensures r.1.buffer == e.buffer[(e.readHead + d) % |e.buffer| := r.0]
    ensures r.1.readJumps == e.readJumps && r.1.writeJumps == e.writeJumps
    ensures ChannelInv(e) ==> ChannelInv(r.1) && r.1.readHead == (e.readHead + 1) % |e.buffer|
    ensures ChannelInv(e) ==> StepsTo(e, r.1, r.0, d)
  {
    var e1 := SetDelayAmount(e, d);
    assert e1.writeHead == (e.readHead + d) % |e.buffer|;
    // the popped sample is the one under the read head
    assert Pop(e1).0 == e.buffer[e.readHead];
    var y := x + fb * e.buffer[e.readHead];
    assert Write(Pop(e1).1, y).buffer == e.buffer[e1.writeHead := y];
    (y, Write(Pop(e1).1, y))
  }

  datatype Plugin = Plugin(left: Engine, right: Engine, sampleRate: real)

  predicate Valid(p: Plugin)
  {
    ChannelInv(p.left) && ChannelInv(p.right)
  }

  /** The plugin's default state: two one-second engines at 44.1 kHz with
      initial delays of 500 and 400 samples. */
  function Default(): (p: Plugin)
    ensures Valid(p)
    ensures |p.left.buffer| == 44100 && |p.right.buffer| == 44100
    ensures p.left.writeHead == 500 && p.right.writeHead == 400
    ensures p.left.readHead == 0 && p.right.readHead == 0
    ensures AllZero(p.left.buffer) && AllZero(p.right.buffer)
  {
    Ring.ModUnique(500, 0, 500, 44100);
    Ring.ModUnique(400, 0, 400, 44100);
    Plugin(SetDelayAmount(New(44100), 500), SetDelayAmount(New(44100), 400), 44100.0)
  }

  /** One stereo sample. The delay time is converted once and shared by both
      engines; the feedback smoother is advanced once per channel, so the two
      channels may see different feedback values `fbL` and `fbR`. */
  function Process(p: Plugin, xl: real, xr: real, delayMs: real, fbL: real, fbR: real)
    : (r: ((real, real), Plugin))
    requires Valid(p)
    ensures Valid(r.1) && r.1.sampleRate == p.sampleRate
    ensures r.0.0 == xl + fbL * p.left.buffer[p.left.readHead]
    ensures r.0.1 == xr + fbR * p.right.buffer[p.right.readHead]
    ensures StepsTo(p.left, r.1.left, r.0.0, SecondsToSamples(delayMs, p.sampleRate))
    ensures StepsTo(p.right, r.1.right, r.0.1, SecondsToSamples(delayMs, p.sampleRate))
  {
    var d := SecondsToSamples(delayMs, p.sampleRate);
    var (yl, left) := ChannelStep(p.left, xl, d, fbL);
    var (yr, right) := ChannelStep(p.right, xr, d, fbR);
    ((yl, yr), Plugin(left, right, p.sampleRate))
  }

  /** The channels never interact: the left output and the left engine's next
      state depend only on the left input and the left engine. */
  lemma ChannelsIndependent(p: Plugin, q: Plugin, xl: real, xr: real, xr': real,
                            delayMs: real, fbL: real, fbR: real, fbR': real)
    requires Valid(p) && Valid(q) && p.left == q.left && p.sampleRate == q.sampleRate
    ensures Process(p, xl, xr, delayMs, fbL, fbR).0.0 == Process(q, xl, xr', delayMs, fbL, fbR').0.0
    ensures Process(p, xl, xr, delayMs, fbL, fbR).1.left == Process(q, xl, xr', delayMs, fbL, fbR').1.left
  {
  }

  /** The state of a channel after `t` samples: the read head is at `t` mod
      the capacity, and the last `len` outputs sit at their write slots. */
  predicate CombState(e: Engine, ys: seq<real>, d: nat, len: nat)
    requires len > 0
  {
    && |e.buffer| == len
    && e.readHead == |ys| % len
    && forall n :: |ys| - len <= n < |ys| ==> e.buffer[(n + d) % len] == Lag(ys, n)
  }

  /** Each output is the input plus the scaled output from `D` samples earlier
      (silence before the start). */
  predicate CombLaw(xs: seq<real>, ys: seq<real>, fb: real, D: nat)
    requires |ys| == |xs|
  {
    forall t {:trigger xs[t]} :: 0 <= t < |xs| ==> ys[t] == xs[t] + fb * Lag(ys, t - D)
  }

  /** One sample keeps the comb state and reads the output from `D` samples
      earlier. */
  lemma CombStep(e: Engine, ys: seq<real>, x: real, d: nat, fb: real, len: nat)
    requires len > 0 && ChannelInv(e) && CombState(e, ys, d, len)
    ensures ChannelStep(e, x, d, fb).0 == x + fb * Lag(ys, |ys| - EffectiveDelay(d, len))
    ensures CombState(ChannelStep(e, x, d, fb).1, ys + [ChannelStep(e, x, d, fb).0], d, len)
  {
    var t := |ys|;
    var D := EffectiveDelay(d, len);
    var (y, e') := ChannelStep(e, x, d, fb);
    var ys' := ys + [y];
    Ring.ModShift(t - D + d, t, len);
    assert e.buffer[e.readHead] == Lag(ys, t - D);
    Ring.ModAddLeft(t, d, len);
    assert e'.buffer == e.buffer[(t + d) % len := y];
    Ring.ModSucc(t, len);
    CombWindowShift(e.buffer, ys, y, d, len);
  }

  /** Writing output `t` at slot `(t + d) % len` slides the window of the
      last `len` outputs by one sample. */
  lemma CombWindowShift(b: seq<real>, ys: seq<real>, y: real, d: nat, len: nat)
    requires len > 0 && |b| == len
    requires forall n :: |ys| - len <= n < |ys| ==> b[(n + d) % len] == Lag(ys, n)
    ensures forall n :: |ys| + 1 - len <= n < |ys| + 1 ==>
              b[(|ys| + d) % len := y][(n + d) % len] == Lag(ys + [y], n)
  {
    var t := |ys|;
    var b', ys' := b[(t + d) % len := y], ys + [y];
    forall n | t + 1 - len <= n < t + 1
      ensures b'[(n + d) % len] == Lag(ys', n)
    {
      if n < t {
        Ring.ModDistinct(n + d, t + d, len);
        assert Lag(ys', n) == Lag(ys, n);
      }
    }
  }

  /** Appending one sample that obeys the comb law keeps the law. */
  lemma CombLawExtend(xs: seq<real>, ys: seq<real>, x: real, y: real, fb: real, D: nat)
    requires |ys| == |xs| && D >= 1 && CombLaw(xs, ys, fb, D)
    requires y == x + fb * Lag(ys, |ys| - D)
    ensures CombLaw(xs + [x], ys + [y], fb, D)
  {
    var xs', ys' := xs + [x], ys + [y];
    forall k | 0 <= k < |xs'|
      ensures ys'[k] == xs'[k] + fb * Lag(ys', k - D)
    {
      LagSnoc(ys, y, k - D);
      if k < |xs| {
        assert ys'[k] == ys[k] && xs'[k] == xs[k];
      }
    }
  }

  /** Looking back from before the newest sample ignores it. */
  lemma LagSnoc(ys: seq<real>, y: real, n: int)
    requires n < |ys|
    ensures Lag(ys + [y], n) == Lag(ys, n)
  {
  }

  /** One channel driven for a block of samples with a constant delay `d` and
      feedback `fb`, starting silent with its read head at 0 (as a fresh
      engine does): output `t` is input `t` plus `fb` times output `t - D`,
      where `D = d` for 1 <= d <= capacity and `D` = the capacity for d = 0. */
  method RunComb(e0: Engine, xs: seq<real>, d: nat, fb: real) returns (ys: seq<real>, e: Engine)
    requires ChannelInv(e0) && CombState(e0, [], d, |e0.buffer|)
    ensures |ys| == |xs| && ChannelInv(e) && |e.buffer| == |e0.buffer|
    ensures CombLaw(xs, ys, fb, EffectiveDelay(d, |e0.buffer|))
  {
    var len := |e0.buffer|;
    var D := EffectiveDelay(d, len);
    ys, e := [], e0;
    var i := 0;
    while i < |xs|
      invariant 0 <= i <= |xs| && |ys| == i
      invariant ChannelInv(e) && CombState(e, ys, d, len)
      invariant CombLaw(xs[..i], ys, fb, D)
    {
      var y, e' := ChannelStep(e, xs[i], d, fb).0, ChannelStep(e, xs[i], d, fb).1;
      CombAdvance(e, xs, ys, d, fb, len);
      ys, e := ys + [y], e';
      i := i + 1;
    }
    assert xs[..i] == xs;
  }

  /** One turn of the comb loop keeps the channel state and the comb law. */
  lemma CombAdvance(e: Engine, xs: seq<real>, ys: seq<real>, d: nat, fb: real, len: nat)
    requires len > 0 && |ys| < |xs| && ChannelInv(e) && CombState(e, ys, d, len)
    requires CombLaw(xs[..|ys|], ys, fb, EffectiveDelay(d, len))
    ensures var (y, e') := ChannelStep(e, xs[|ys|], d, fb);
            && ChannelInv(e') && CombState(e', ys + [y], d, len)
            && CombLaw(xs[..|ys| + 1], ys + [y], fb, EffectiveDelay(d, len))
  {
    var i := |ys|;
    CombStep(e, ys, xs[i], d, fb, len);
    var y := ChannelStep(e, xs[i], d, fb).0;
    CombLawExtend(xs[..i], ys, xs[i], y, fb, EffectiveDelay(d, len));
    assert xs[..i + 1] == xs[..i] + [xs[i]];
  }

  /** A fresh engine is silent with its read head at 0. */
  lemma NewIsCombStart(len: nat, d: nat)
    requires len > 0
    ensures ChannelInv(New(len)) && CombState(New(len), [], d, len)
  {
    Ring.ModUnique(0, 0, 0, len);
  }
}

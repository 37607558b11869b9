/**
  The plate reverb: a pre-delay, a bandwidth damper and four input
  diffusors feed a figure-of-eight tank whose two halves are cross-coupled
  through their feedback accumulators. Each half runs a modulated decay
  diffusor, a delay line, a damper scaled by the decay, an all-pass and a
  second delay line; six tap lines record the tank for the output mix.
 */
module Dattorro {
  import opened Numeric
  import Ring
  import opened DattorroBlocks

  datatype Reverb = Reverb(
    preDelay: DelayLine,
    bandwidthDamper: Damper,
    inputDiffusor1: InputDiffusor,
    inputDiffusor2: InputDiffusor,
    inputDiffusor3: InputDiffusor,
    inputDiffusor4: InputDiffusor,
    decayDiffusorL: DecayDiffusor,
    decayDiffusorR: DecayDiffusor,
    inputDiffusorL: InputDiffusor,
    inputDiffusorR: InputDiffusor,
    damperL: Damper,
    damperR: Damper,
    delayLine1L: DelayLine,
    delayLine2L: DelayLine,
    delayLine1R: DelayLine,
    delayLine2R: DelayLine,
    recursiveL: real,
    recursiveR: real,
    decay: real,
    tapL1: DelayLine,
    tapL2: DelayLine,
    tapL3: DelayLine,
    tapR1: DelayLine,
    tapR2: DelayLine,
    tapR3: DelayLine,
    gain: real)

  /** Every tap line is usable. */
  predicate TapsValid(rv: Reverb)
  {
    && LineValid(rv.tapL1) && LineValid(rv.tapL2) && LineValid(rv.tapL3)
    && LineValid(rv.tapR1) && LineValid(rv.tapR2) && LineValid(rv.tapR3)
  }

  /** Every line of the reverb is usable (non-empty, index in range). */
  predicate Valid(rv: Reverb)
  {
    && LineValid(rv.preDelay)
    && LineValid(rv.inputDiffusor1.line) && LineValid(rv.inputDiffusor2.line)
    && LineValid(rv.inputDiffusor3.line) && LineValid(rv.inputDiffusor4.line)
    && DecayValid(rv.decayDiffusorL) && DecayValid(rv.decayDiffusorR)
    && LineValid(rv.inputDiffusorL.line) && LineValid(rv.inputDiffusorR.line)
    && LineValid(rv.delayLine1L) && LineValid(rv.delayLine2L)
    && LineValid(rv.delayLine1R) && LineValid(rv.delayLine2R)
    && TapsValid(rv)
  }

  predicate TapsSilent(rv: Reverb)
  {
    && AllZero(rv.tapL1.buffer) && AllZero(rv.tapL2.buffer) && AllZero(rv.tapL3.buffer)
    && AllZero(rv.tapR1.buffer) && AllZero(rv.tapR2.buffer) && AllZero(rv.tapR3.buffer)
  }

  /** Nothing is stored anywhere: every buffer, accumulator and damper
      memory is zero. */
  predicate Silent(rv: Reverb)
  {
    && AllZero(rv.preDelay.buffer) && rv.bandwidthDamper.lastSample == 0.0
    && AllZero(rv.inputDiffusor1.line.buffer) && AllZero(rv.inputDiffusor2.line.buffer)
    && AllZero(rv.inputDiffusor3.line.buffer) && AllZero(rv.inputDiffusor4.line.buffer)
    && AllZero(rv.decayDiffusorL.line.buffer) && AllZero(rv.decayDiffusorR.line.buffer)
    && AllZero(rv.inputDiffusorL.line.buffer) && AllZero(rv.inputDiffusorR.line.buffer)
    && rv.damperL.lastSample == 0.0 && rv.damperR.lastSample == 0.0
    && AllZero(rv.delayLine1L.buffer) && AllZero(rv.delayLine2L.buffer)
    && AllZero(rv.delayLine1R.buffer) && AllZero(rv.delayLine2R.buffer)
    && rv.recursiveL == 0.0 && rv.recursiveR == 0.0
    && TapsSilent(rv)
  }

  /** The length of each tap line at a sample rate. */
  function TapLength(sampleRate: real): nat
  {
    ToUsize(sampleRate) / 4
  }

  /** All six tap lines are empty lines a quarter second long at the rate. */
  predicate FreshTaps(rv: Reverb, sampleRate: real)
  {
    var t := NewLine(TapLength(sampleRate));
    && rv.tapL1 == t && rv.tapL2 == t && rv.tapL3 == t
    && rv.tapR1 == t && rv.tapR2 == t && rv.tapR3 == t
  }

  /** The reverb at a sample rate: the pre-delay is one second long with its
      delay set to 0, the tap lines a quarter second, every other line has
      the fixed length of the design. A rate below 4 Hz gives empty tap
      lines, which the first sample would index out of bounds. */
  function NewReverb(sampleRate: real, decay: real): (rv: Reverb)
    ensures Valid(rv) <==> sampleRate >= 4.0
    ensures Silent(rv) && rv.decay == decay && rv.gain == 1.0
    ensures |rv.preDelay.buffer| == ToUsize(sampleRate) && rv.preDelay.delay == 0
    ensures FreshTaps(rv, sampleRate) && |rv.tapL1.buffer| == TapLength(sampleRate)
  {
    Reverb(
      SetDelay(NewLine(ToUsize(sampleRate)), 0),
      NewDamper(0.9995),
      NewInputDiffusor(142, 0.75),
      NewInputDiffusor(107, 0.75),
      NewInputDiffusor(379, 0.625),
      NewInputDiffusor(277, 0.625),
      NewDecayDiffusor(sampleRate, 672, 0.75),
      NewDecayDiffusor(sampleRate, 908, 0.75),
      NewInputDiffusor(1800, 0.625),
      NewInputDiffusor(2656, 0.625),
      NewDamper(0.0005),
      NewDamper(0.0005),
      NewLine(4453),
      NewLine(3720),
      NewLine(4217),
      NewLine(3163),
      0.0,
      0.0,
      decay,
      NewLine(TapLength(sampleRate)),
      NewLine(TapLength(sampleRate)),
      NewLine(TapLength(sampleRate)),
      NewLine(TapLength(sampleRate)),
      NewLine(TapLength(sampleRate)),
      NewLine(TapLength(sampleRate)),
      1.0)
  }

  /** The tap reads mixed into the left output: three from the right tank
      half's taps added, three from the left half's subtracted. */
  function LeftTapMix(rv: Reverb): (m: real)
    requires TapsValid(rv)
    ensures TapsSilent(rv) ==> m == 0.0
  {
    if TapsSilent(rv) then
      SilentReads(rv.tapL1); SilentReads(rv.tapL2); SilentReads(rv.tapL3);
      SilentReads(rv.tapR1); SilentReads(rv.tapR2); SilentReads(rv.tapR3);
      LeftTapSum(rv)
    else
      LeftTapSum(rv)
  }

  function LeftTapSum(rv: Reverb): real
    requires TapsValid(rv)
  {
    GetWithDelay(rv.tapR1, 266) + GetWithDelay(rv.tapR1, 2974)
      - GetWithDelay(rv.tapR2, 1913)
      + GetWithDelay(rv.tapR3, 1996)
      - GetWithDelay(rv.tapL1, 1990)
      - GetWithDelay(rv.tapL2, 187)
      - GetWithDelay(rv.tapL3, 1066)
  }

  /** The mirror image for the right output. */
  function RightTapMix(rv: Reverb): (m: real)
    requires TapsValid(rv)
    ensures TapsSilent(rv) ==> m == 0.0
  {
    if TapsSilent(rv) then
      SilentReads(rv.tapL1); SilentReads(rv.tapL2); SilentReads(rv.tapL3);
      SilentReads(rv.tapR1); SilentReads(rv.tapR2); SilentReads(rv.tapR3);
      RightTapSum(rv)
    else
      RightTapSum(rv)
  }

  function RightTapSum(rv: Reverb): real
    requires TapsValid(rv)
  {
    GetWithDelay(rv.tapL1, 353) + GetWithDelay(rv.tapL1, 3627)
      - GetWithDelay(rv.tapL2, 1228)
      + GetWithDelay(rv.tapL3, 2673)
      - GetWithDelay(rv.tapR1, 2111)
      - GetWithDelay(rv.tapR2, 335)
      - GetWithDelay(rv.tapR3, 121)
  }

  /** The output mix: each side's initial tap plus its tap mix, scaled by
      twice the gain. Reading the taps changes nothing. */
  function Output(rv: Reverb, leftInit: real, rightInit: real): (y: (real, real))
    requires TapsValid(rv)
    ensures TapsSilent(rv) ==> y.0 == leftInit * (rv.gain * 2.0)
    ensures TapsSilent(rv) ==> y.1 == rightInit * (rv.gain * 2.0)
  {
    ((leftInit + LeftTapMix(rv)) * (rv.gain * 2.0), (rightInit + RightTapMix(rv)) * (rv.gain * 2.0))
  }

  /** The two accumulators are updated one after the other, so the right
      one already sees the left one's new value. */
  function CrossCouple(recursiveL: real, recursiveR: real, signal: real, decay: real)
    : (r: (real, real))
    ensures r.0 == recursiveL + signal + recursiveR * decay
    ensures r.1 == recursiveR + signal + r.0 * decay
  {
    var l := recursiveL + (signal + recursiveR * decay);
    (l, recursiveR + (signal + l * decay))
  }

  /** The front end: average the channels, pre-delay, damp, and diffuse
      through four all-passes. */
  function FrontEnd(rv: Reverb, l: real, r: real): (out: (real, Reverb))
    requires Valid(rv)
    ensures Valid(out.1)
    ensures out.1 == rv.(preDelay := out.1.preDelay, bandwidthDamper := out.1.bandwidthDamper,
                         inputDiffusor1 := out.1.inputDiffusor1, inputDiffusor2 := out.1.inputDiffusor2,
                         inputDiffusor3 := out.1.inputDiffusor3, inputDiffusor4 := out.1.inputDiffusor4)
    ensures out.1.preDelay == Process(rv.preDelay, (l + r) / 2.0).1
    ensures out.1.bandwidthDamper == Damp(rv.bandwidthDamper, Process(rv.preDelay, (l + r) / 2.0).0).1
    ensures var s1 := DiffuseInput(rv.inputDiffusor1, out.1.bandwidthDamper.lastSample);
            var s2 := DiffuseInput(rv.inputDiffusor2, s1.0);
            var s3 := DiffuseInput(rv.inputDiffusor3, s2.0);
            var s4 := DiffuseInput(rv.inputDiffusor4, s3.0);
            && out.1.inputDiffusor1 == s1.1 && out.1.inputDiffusor2 == s2.1
            && out.1.inputDiffusor3 == s3.1 && out.1.inputDiffusor4 == s4.1
            && out.0 == s4.0
    ensures Silent(rv) && l + r == 0.0 ==> out.0 == 0.0 && Silent(out.1)
  {
    var input := (l + r) / 2.0;
    var (preDelayed, preDelay) := DattorroBlocks.Process(rv.preDelay, input);
    var (damped, bandwidthDamper) := Damp(rv.bandwidthDamper, preDelayed);
    var (s1, d1) := DiffuseInput(rv.inputDiffusor1, damped);
    var (s2, d2) := DiffuseInput(rv.inputDiffusor2, s1);
    var (s3, d3) := DiffuseInput(rv.inputDiffusor3, s2);
    var (s4, d4) := DiffuseInput(rv.inputDiffusor4, s3);
    (s4, rv.(preDelay := preDelay, bandwidthDamper := bandwidthDamper,
             inputDiffusor1 := d1, inputDiffusor2 := d2,
             inputDiffusor3 := d3, inputDiffusor4 := d4))
  }

  /** The part of one tank half that runs after its decay diffusor. */
  datatype Half = Half(
    line1: DelayLine,
    damper: Damper,
    diffusor: InputDiffusor,
    line2: DelayLine,
    tap1: DelayLine,
    tap2: DelayLine,
    tap3: DelayLine)

  predicate HalfValid(h: Half)
  {
    && LineValid(h.line1) && LineValid(h.diffusor.line) && LineValid(h.line2)
    && LineValid(h.tap1) && LineValid(h.tap2) && LineValid(h.tap3)
  }

  predicate HalfSilent(h: Half)
  {
    && AllZero(h.line1.buffer) && h.damper.lastSample == 0.0
    && AllZero(h.diffusor.line.buffer) && AllZero(h.line2.buffer)
    && AllZero(h.tap1.buffer) && AllZero(h.tap2.buffer) && AllZero(h.tap3.buffer)
  }

  function LeftHalf(rv: Reverb): Half
  {
    Half(rv.delayLine1L, rv.damperL, rv.inputDiffusorL, rv.delayLine2L, rv.tapL1, rv.tapL2, rv.tapL3)
  }

  function RightHalf(rv: Reverb): Half
  {
    Half(rv.delayLine1R, rv.damperR, rv.inputDiffusorR, rv.delayLine2R, rv.tapR1, rv.tapR2, rv.tapR3)
  }

  /** The damper's output scaled by the decay, before the tank's all-pass. */
  function Scaled(x: real, decay: real): real
  {
    x * decay
  }

  /** One tank half after its decay diffusor: delay, record tap 1, damp and
      scale by the decay, diffuse, record the diffusor's oldest sample as tap
      2 and its output as tap 3, delay again. The result is the half's next
      feedback value. */
  function HalfStep(h: Half, x: real, decay: real): (r: (real, Half))
    requires HalfValid(h)
    ensures HalfValid(r.1)
    ensures var a := Process(h.line1, x);
            var damped := Damp(h.damper, a.0);
            var diffused := DiffuseInput(h.diffusor, Scaled(damped.0, decay));
            && r.1.line1 == a.1 && r.1.tap1 == Insert(h.tap1, a.0)
            && r.1.damper == damped.1
            && r.1.diffusor == diffused.1
            && r.1.tap2 == Insert(h.tap2, Tap(diffused.1))
            && r.1.tap3 == Insert(h.tap3, diffused.0)
            && (r.0, r.1.line2) == Process(h.line2, diffused.0)
    ensures HalfSilent(h) && x == 0.0 ==> r.0 == 0.0 && HalfSilent(r.1)
  {
    var (a, line1) := DattorroBlocks.Process(h.line1, x);
    var tap1 := Insert(h.tap1, a);
    var damped := Damp(h.damper, a);
    var damper := damped.1;
    var diffused := DiffuseInput(h.diffusor, Scaled(damped.0, decay));
    var b := diffused.0;
    var diffusor := diffused.1;
    var tap2 := Insert(h.tap2, Tap(diffusor));
    var tap3 := Insert(h.tap3, b);
    var (c, line2) := DattorroBlocks.Process(h.line2, b);
    assert HalfSilent(h) && x == 0.0 ==> c == 0.0 && AllZero(tap2.buffer) && AllZero(diffusor.line.buffer) by {
      if HalfSilent(h) && x == 0.0 {
        ProcessSilent(h.line1);
        DiffuseInputSilent(h.diffusor);
        SilentReads(diffusor.line);
        ProcessSilent(h.line2);
      }
    }
    (c, Half(line1, damper, diffusor, line2, tap1, tap2, tap3))
  }

  /** One stereo sample through the whole reverb. The channels are averaged
      at the input, so only their sum matters. */
  function ProcessStereo(rv: Reverb, l: real, r: real, sin: Sine): (out: ((real, real), Reverb))
    requires Valid(rv)
    ensures Valid(out.1)
    ensures out.1.decay == rv.decay && out.1.gain == rv.gain
    ensures out.1.preDelay.delay == rv.preDelay.delay
  {
    var (signal, front) := FrontEnd(rv, l, r);
    Tank(front, signal, sin)
  }

  /** The tank fed the front end's signal: cross-couple the accumulators,
      run each half from its decay diffusor on, and mix the output from the
      taps recorded on the way. */
  function Tank(rv: Reverb, signal: real, sin: Sine): (out: ((real, real), Reverb))
    requires Valid(rv)
    ensures Valid(out.1)
    ensures out.1.decay == rv.decay && out.1.gain == rv.gain
    ensures out.1.preDelay == rv.preDelay && out.1.bandwidthDamper == rv.bandwidthDamper
    ensures out.1.inputDiffusor1 == rv.inputDiffusor1 && out.1.inputDiffusor2 == rv.inputDiffusor2
    ensures out.1.inputDiffusor3 == rv.inputDiffusor3 && out.1.inputDiffusor4 == rv.inputDiffusor4
    ensures var acc := CrossCouple(rv.recursiveL, rv.recursiveR, signal, rv.decay);
            var initL := DiffuseDecay(rv.decayDiffusorL, acc.0, sin).0;
            var initR := DiffuseDecay(rv.decayDiffusorR, acc.1, sin).0;
            && out.0 == Output(out.1, initL, initR)
            && out.1.decayDiffusorL == DiffuseDecay(rv.decayDiffusorL, acc.0, sin).1
            && out.1.decayDiffusorR == DiffuseDecay(rv.decayDiffusorR, acc.1, sin).1
            && (out.1.recursiveL, LeftHalf(out.1)) == HalfStep(LeftHalf(rv), initL, rv.decay)
            && (out.1.recursiveR, RightHalf(out.1)) == HalfStep(RightHalf(rv), initR, rv.decay)
  {
    var (accL, accR) := CrossCouple(rv.recursiveL, rv.recursiveR, signal, rv.decay);
    var (initL, decayL) := DiffuseDecay(rv.decayDiffusorL, accL, sin);
    var (initR, decayR) := DiffuseDecay(rv.decayDiffusorR, accR, sin);
    var (nextL, left) := HalfStep(LeftHalf(rv), initL, rv.decay);
    var (nextR, right) := HalfStep(RightHalf(rv), initR, rv.decay);
    var next := rv.(
      decayDiffusorL := decayL, decayDiffusorR := decayR,
      recursiveL := nextL, recursiveR := nextR,
      delayLine1L := left.line1, damperL := left.damper, inputDiffusorL := left.diffusor,
      delayLine2L := left.line2, tapL1 := left.tap1, tapL2 := left.tap2, tapL3 := left.tap3,
      delayLine1R := right.line1, damperR := right.damper, inputDiffusorR := right.diffusor,
      delayLine2R := right.line2, tapR1 := right.tap1, tapR2 := right.tap2, tapR3 := right.tap3);
    (Output(next, initL, initR), next)
  }

  /** Silence in, silence out: a silent reverb fed silence outputs silence
      and stays silent, whatever the modulation does. */
  lemma SilenceInvariant(rv: Reverb, sin: Sine)
    requires Valid(rv) && Silent(rv)
    ensures ProcessStereo(rv, 0.0, 0.0, sin).0 == (0.0, 0.0)
    ensures Silent(ProcessStereo(rv, 0.0, 0.0, sin).1)
  {
    var (signal, front) := FrontEnd(rv, 0.0, 0.0);
    assert signal == 0.0 && Silent(front);
    TankSilent(front, sin);
  }

  /** A silent tank fed silence outputs silence and stays silent. */
  lemma TankSilent(rv: Reverb, sin: Sine)
    requires Valid(rv) && Silent(rv)
    ensures Tank(rv, 0.0, sin).0 == (0.0, 0.0)
    ensures Silent(Tank(rv, 0.0, sin).1)
  {
    var (accL, accR) := CrossCouple(rv.recursiveL, rv.recursiveR, 0.0, rv.decay);
    assert accL == 0.0 && accR == 0.0;
    DiffuseDecaySilent(rv.decayDiffusorL, sin);
    DiffuseDecaySilent(rv.decayDiffusorR, sin);
    var (initL, decayL) := DiffuseDecay(rv.decayDiffusorL, accL, sin);
    var (initR, decayR) := DiffuseDecay(rv.decayDiffusorR, accR, sin);
    assert initL == 0.0 && initR == 0.0;
    var (nextL, left) := HalfStep(LeftHalf(rv), initL, rv.decay);
    var (nextR, right) := HalfStep(RightHalf(rv), initR, rv.decay);
    assert HalfSilent(left) && HalfSilent(right) && nextL == 0.0 && nextR == 0.0;
    var next := Tank(rv, 0.0, sin).1;
    assert Silent(next);
    assert Tank(rv, 0.0, sin).0 == Output(next, 0.0, 0.0);
    assert 0.0 * (rv.gain * 2.0) == 0.0;
  }

  /** The reverb hears only the sum of its two inputs. */
  lemma OnlyTheSumMatters(rv: Reverb, l1: real, r1: real, l2: real, r2: real, sin: Sine)
    requires Valid(rv) && l1 + r1 == l2 + r2
    ensures ProcessStereo(rv, l1, r1, sin) == ProcessStereo(rv, l2, r2, sin)
  {
    assert (l1 + r1) / 2.0 == (l2 + r2) / 2.0;
    assert FrontEnd(rv, l1, r1) == FrontEnd(rv, l2, r2);
  }

  /** Against a simultaneous update of the two accumulators, the sequential
      one adds `decay * (signal + recursiveR * decay)` to the right one: the
      left update, fed through the decay once more. */
  lemma CrossCoupleIsSequential(recursiveL: real, recursiveR: real, signal: real, decay: real)
    ensures CrossCouple(recursiveL, recursiveR, signal, decay).1
            == recursiveR + signal + recursiveL * decay + (signal + recursiveR * decay) * decay
  {
    var l := recursiveL + signal + recursiveR * decay;
    assert l * decay == recursiveL * decay + (signal + recursiveR * decay) * decay;
  }

  function SetDecay(rv: Reverb, decay: real): (r: Reverb)
    ensures r == rv.(decay := decay)
  {
    rv.(decay := decay)
  }

  /** Rebuilds the pre-delay (its delay now the full length instead of 0)
      and the six tap lines for the new rate and passes the rate to the two
      decay diffusors; all other state, including the tank's contents, is
      kept. */
  function SetSampleRate(rv: Reverb, sampleRate: real): (r: Reverb)
    ensures r.preDelay == NewLine(ToUsize(sampleRate))
    ensures FreshTaps(r, sampleRate)
    ensures r.decayDiffusorL == rv.decayDiffusorL.(sampleRate := sampleRate)
    ensures r.decayDiffusorR == rv.decayDiffusorR.(sampleRate := sampleRate)
    ensures r == rv.(preDelay := r.preDelay, decayDiffusorL := r.decayDiffusorL,
                     decayDiffusorR := r.decayDiffusorR,
                     tapL1 := r.tapL1, tapL2 := r.tapL2, tapL3 := r.tapL3,
                     tapR1 := r.tapR1, tapR2 := r.tapR2, tapR3 := r.tapR3)
    ensures Valid(rv) ==> (Valid(r) <==> sampleRate >= 4.0)
  {
    rv.(preDelay := NewLine(ToUsize(sampleRate)),
        decayDiffusorL := SetDecaySampleRate(rv.decayDiffusorL, sampleRate),
        decayDiffusorR := SetDecaySampleRate(rv.decayDiffusorR, sampleRate),
        tapL1 := NewLine(TapLength(sampleRate)),
        tapL2 := NewLine(TapLength(sampleRate)),
        tapL3 := NewLine(TapLength(sampleRate)),
        tapR1 := NewLine(TapLength(sampleRate)),
        tapR2 := NewLine(TapLength(sampleRate)),
        tapR3 := NewLine(TapLength(sampleRate)))
  }

  /** A rate change leaves the same tap lines a reverb built at that rate
      starts with, whatever they held before. */
  lemma RateChangeTapsAsNew(rv: Reverb, sampleRate: real)
    ensures var r := SetSampleRate(rv, sampleRate);
            var made := NewReverb(sampleRate, rv.decay);
            && r.tapL1 == made.tapL1 && r.tapL2 == made.tapL2 && r.tapL3 == made.tapL3
            && r.tapR1 == made.tapR1 && r.tapR2 == made.tapR2 && r.tapR3 == made.tapR3
  {
  }

  /** The constructor's pre-delay (delay 0) and the rebuilt one (delay equal
      to the length) delay by the same amount: a whole line. */
  lemma PreDelayRebuildSameDelay(rv: Reverb, sampleRate: real)
    requires sampleRate >= 1.0
    ensures var n := ToUsize(sampleRate);
            Ring.EffectiveDelay(NewReverb(sampleRate, rv.decay).preDelay.delay, n)
            == Ring.EffectiveDelay(SetSampleRate(rv, sampleRate).preDelay.delay, n)
            == n
  {
  }

  /** With tap lines longer than 3627 samples (a rate of at least 14512 Hz),
      the two reads from the left tap line 1 for the right output are
      distinct samples. */
  lemma DeepestTapsDistinct(rv: Reverb)
    requires TapsValid(rv) && |rv.tapL1.buffer| > 3627
    ensures Slot(rv.tapL1, 353) != Slot(rv.tapL1, 3627)
  {
    CloseOffsetsDistinct(rv.tapL1, 353, 3627);
  }

  /** With shorter tap lines the deepest read wraps around: it reads the
      sample `3627 - length` samples back instead. */
  lemma DeepestTapAliases(rv: Reverb)
    requires TapsValid(rv) && |rv.tapL1.buffer| <= 3627
    ensures GetWithDelay(rv.tapL1, 3627) == GetWithDelay(rv.tapL1, 3627 - |rv.tapL1.buffer|)
  {
    GetWithDelayAliases(rv.tapL1, 3627 - |rv.tapL1.buffer|);
  }
}

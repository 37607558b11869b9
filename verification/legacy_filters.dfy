/**
  The earlier versions of the two state-variable filters. They differ from
  the current ones in their defaults (cutoff 500 Hz, resonance 0.9), in never
  recomputing the damping `k`, in having no resonance or mode setter, and in
  returning only the low-pass output; the notch, peak and all-pass values
  they compute are discarded.
 */
module LegacyFilters {
  import opened Numeric
  import opened Simper

  /** The damping both legacy constructors compute from their resonance 0.9
      and that nothing recomputes afterwards. */
  const LegacyDamping: real := 2.0 - 2.0 * 0.9

  // ------------------------------------------------------------ tangent form

  datatype LegacyTan = LegacyTan(
    ic1eq: real,
    ic2eq: real,
    cutoff: real,
    sampleRate: real,
    g: real,
    q: real,
    res: real,
    k: real,
    a1: real,
    a2: real)

  predicate LegacyTanValid(f: LegacyTan)
  {
    f.sampleRate != 0.0 && f.k >= 0.0
  }

  function LegacyTanNew(sampleRate: real, tan: real -> real): (f: LegacyTan)
    requires sampleRate != 0.0
    ensures LegacyTanValid(f) && f.k == LegacyDamping
    ensures f.cutoff == 500.0 && f.q == 0.5 && f.res == 0.9 && f.sampleRate == sampleRate
    ensures f.ic1eq == 0.0 && f.ic2eq == 0.0
    ensures f.g == tan(Omega(500.0, sampleRate)) && f.a2 == f.g * f.a1
    ensures f.a1 * (1.0 + f.g * (f.g * f.k)) == 1.0
  {
    var g := tan(Omega(500.0, sampleRate));
    var k := 2.0 - 2.0 * 0.9;
    var a1 := TanA1(g, k);
    LegacyTan(0.0, 0.0, 500.0, sampleRate, g, 0.5, 0.9, k, a1, g * a1)
  }

  /** Recomputes `g` and `a1`, scales `a2` by the new `g`, and leaves `k`
      alone. */
  function LegacyTanReinit(f: LegacyTan, tan: real -> real): (r: LegacyTan)
    requires LegacyTanValid(f)
    ensures LegacyTanValid(r) && r.k == f.k
    ensures r == f.(g := r.g, a1 := r.a1, a2 := r.a2)
    ensures r.g == tan(Omega(f.cutoff, f.sampleRate))
    ensures r.a1 * (1.0 + r.g * (r.g * r.k)) == 1.0
    ensures r.a2 == f.a2 * r.g
  {
    var g := tan(Omega(f.cutoff, f.sampleRate));
    f.(g := g, a1 := TanA1(g, f.k), a2 := g * f.a2)
  }

  function LegacyTanSetCutoff(f: LegacyTan, cutoff: real, tan: real -> real): (r: LegacyTan)
    requires LegacyTanValid(f)
    ensures LegacyTanValid(r) && r.k == f.k && r.res == f.res
    ensures r.cutoff == cutoff && r.sampleRate == f.sampleRate
    ensures r.ic1eq == f.ic1eq && r.ic2eq == f.ic2eq
    ensures r.g == tan(Omega(cutoff, f.sampleRate))
    ensures r.a1 * (1.0 + r.g * (r.g * r.k)) == 1.0
    ensures r.a2 == f.a2 * r.g
  {
    LegacyTanReinit(f.(cutoff := cutoff), tan)
  }

  function LegacyTanSetSampleRate(f: LegacyTan, sampleRate: real, tan: real -> real): (r: LegacyTan)
    requires LegacyTanValid(f) && sampleRate != 0.0
    ensures LegacyTanValid(r) && r.k == f.k && r.res == f.res
    ensures r.cutoff == f.cutoff && r.sampleRate == sampleRate
    ensures r.ic1eq == f.ic1eq && r.ic2eq == f.ic2eq
    ensures r.g == tan(Omega(f.cutoff, sampleRate))
    ensures r.a1 * (1.0 + r.g * (r.g * r.k)) == 1.0
    ensures r.a2 == f.a2 * r.g
  {
    LegacyTanReinit(f.(sampleRate := sampleRate), tan)
  }

  /** The current tangent form with the same states and coefficients. */
  function AsTanSvf(f: LegacyTan): TanSvf
  {
    TanSvf(f.ic1eq, f.ic2eq, f.cutoff, f.sampleRate, f.g, f.res, f.k, f.a1, f.a2, Low)
  }

  /** One sample; only the low-pass output is returned. It is the low output
      of the current tangent form's tick from the same state, and the states
      move the same way. */
  function LegacyTanTick(f: LegacyTan, x: real): (r: (real, LegacyTan))
    ensures r.0 == TanTickFull(AsTanSvf(f), x).0.low
    ensures r.1 == f.(ic1eq := TanTickFull(AsTanSvf(f), x).1.ic1eq, ic2eq := TanTickFull(AsTanSvf(f), x).1.ic2eq)
  {
    var v1 := f.a1 * f.ic1eq + f.a2 * (x - f.ic2eq);
    var v2 := f.ic2eq + f.g * v1;
    (v2, f.(ic1eq := 2.0 * v1 - f.ic1eq, ic2eq := 2.0 * v2 - f.ic2eq))
  }

  /** The discarded values of the tangent form's tick (`x - k*v1`,
      `2*v2 - x + k*v1`, `x - 2*k*v1`) are the notch, peak and all-pass
      outputs of the current form. */
  lemma LegacyTanDiscardedOutputs(f: LegacyTan, x: real)
    ensures var v1 := TanTickFull(AsTanSvf(f), x).0.band;
            var v2 := TanTickFull(AsTanSvf(f), x).0.low;
            && x - f.k * v1 == TanTick(AsTanSvf(f).(mode := Notch), x).0
            && 2.0 * v2 - x + f.k * v1 == TanTick(AsTanSvf(f).(mode := Peak), x).0
            && x - 2.0 * f.k * v1 == TanTickAllpass(AsTanSvf(f), x).0
  {
  }

  datatype LegacyTanOp = TanSetCutoffOp(cutoff: real) | TanSetRateOp(rate: real) | TanTickOp(x: real)

  function LegacyTanApply(f: LegacyTan, op: LegacyTanOp, tan: real -> real): (r: Option<LegacyTan>)
    requires LegacyTanValid(f)
    ensures r.Some? ==> LegacyTanValid(r.value) && r.value.k == f.k
    ensures r.None? <==> op.TanSetRateOp? && op.rate == 0.0
  {
    match op
    case TanSetCutoffOp(c) => Some(LegacyTanSetCutoff(f, c, tan))
    case TanSetRateOp(sr) => if sr == 0.0 then None else Some(LegacyTanSetSampleRate(f, sr, tan))
    case TanTickOp(x) => Some(LegacyTanTick(f, x).1)
  }

  function LegacyTanRun(f: LegacyTan, ops: seq<LegacyTanOp>, tan: real -> real): Option<LegacyTan>
    requires LegacyTanValid(f)
    decreases |ops|
  {
    if |ops| == 0 then Some(f)
    else match LegacyTanApply(f, ops[0], tan)
      case None => None
      case Some(f1) => LegacyTanRun(f1, ops[1..], tan)
  }

  /** The damping stays at the constructor's `2 - 2*0.9` forever. */
  lemma {:induction false} LegacyTanDampingFixed(f: LegacyTan, ops: seq<LegacyTanOp>, tan: real -> real)
    requires LegacyTanValid(f)
    ensures var r := LegacyTanRun(f, ops, tan); r.Some? ==> r.value.k == f.k
    decreases |ops|
  {
    if |ops| > 0 && LegacyTanApply(f, ops[0], tan).Some? {
      LegacyTanDampingFixed(LegacyTanApply(f, ops[0], tan).value, ops[1..], tan);
    }
  }

  // ---------------------------------------------------------------- sine form

  datatype LegacySin = LegacySin(
    res: real,
    cutoff: real,
    sampleRate: real,
    ic1eq: real,
    ic2eq: real,
    k: real,
    g0: real,
    g1: real,
    g2: real)

  /** The damping is the constructor's; with it the normaliser
      `2 + 0.2*sin(2w)` is at least 1.8, so every recomputation is defined. */
  predicate LegacySinValid(f: LegacySin)
  {
    f.sampleRate != 0.0 && f.k == LegacyDamping
  }

  function LegacySinGains(k: real, cutoff: real, sampleRate: real, sin: Sine): (g: (real, real, real))
    requires sampleRate != 0.0 && k == LegacyDamping
    ensures GainRelation(k, g.0, g.1, g.2)
    ensures var w := Omega(cutoff, sampleRate); GainsFrom(k, g.0, g.2, sin(w), sin(2.0 * w))
  {
    var w := Omega(cutoff, sampleRate);
    var s2 := sin(2.0 * w);
    assert Normaliser(k, s2) >= 1.8;
    SinGains(k, sin(w), s2)
  }

  /** The gains are those of the stored damping, cutoff and sample rate, as
      for the current sine form. */
  predicate LegacySinGainsFor(f: LegacySin, sin: Sine)
  {
    SinGainsFor(AsSinSvf(f), sin)
  }

  /** Gains computed for a filter's own damping, cutoff and rate are the
      gains for its parameters. */
  lemma GainsCarried(f: LegacySin, g: (real, real, real), sin: Sine)
    requires f.sampleRate != 0.0 && f.g0 == g.0 && f.g2 == g.2
    requires var w := Omega(f.cutoff, f.sampleRate); GainsFrom(f.k, g.0, g.2, sin(w), sin(2.0 * w))
    ensures LegacySinGainsFor(f, sin)
  {
    var s := AsSinSvf(f);
    var w := Omega(f.cutoff, f.sampleRate);
    assert Omega(s.cutoff, s.sampleRate) == w;
    assert GainsFrom(s.k, s.g0, s.g2, sin(w), sin(2.0 * w));
    assert SinGainsFor(s, sin);
  }

  function LegacySinNew(sampleRate: real, sin: Sine): (f: LegacySin)
    requires sampleRate != 0.0
    ensures LegacySinValid(f) && GainRelation(f.k, f.g0, f.g1, f.g2) && LegacySinGainsFor(f, sin)
    ensures f.cutoff == 500.0 && f.res == 0.9 && f.sampleRate == sampleRate
    ensures f.ic1eq == 0.0 && f.ic2eq == 0.0
  {
    var g := LegacySinGains(LegacyDamping, 500.0, sampleRate, sin);
    var f := LegacySin(0.9, 500.0, sampleRate, 0.0, 0.0, LegacyDamping, g.0, g.1, g.2);
    GainsCarried(f, g, sin);
    f
  }

  function LegacySinReinit(f: LegacySin, sin: Sine): (r: LegacySin)
    requires LegacySinValid(f)
    ensures LegacySinValid(r) && GainRelation(r.k, r.g0, r.g1, r.g2) && LegacySinGainsFor(r, sin)
    ensures r == f.(g0 := r.g0, g1 := r.g1, g2 := r.g2)
  {
    var g := LegacySinGains(f.k, f.cutoff, f.sampleRate, sin);
    var r := f.(g0 := g.0, g1 := g.1, g2 := g.2);
    GainsCarried(r, g, sin);
    r
  }

  function LegacySinSetCutoff(f: LegacySin, cutoff: real, sin: Sine): (r: LegacySin)
    requires LegacySinValid(f)
    ensures LegacySinValid(r) && GainRelation(r.k, r.g0, r.g1, r.g2) && LegacySinGainsFor(r, sin)
    ensures r.cutoff == cutoff && r.sampleRate == f.sampleRate && r.res == f.res
    ensures r.ic1eq == f.ic1eq && r.ic2eq == f.ic2eq
  {
    LegacySinReinit(f.(cutoff := cutoff), sin)
  }

  function LegacySinSetSampleRate(f: LegacySin, sampleRate: real, sin: Sine): (r: LegacySin)
    requires LegacySinValid(f) && sampleRate != 0.0
    ensures LegacySinValid(r) && GainRelation(r.k, r.g0, r.g1, r.g2) && LegacySinGainsFor(r, sin)
    ensures r.cutoff == f.cutoff && r.sampleRate == sampleRate && r.res == f.res
    ensures r.ic1eq == f.ic1eq && r.ic2eq == f.ic2eq
  {
    LegacySinReinit(f.(sampleRate := sampleRate), sin)
  }

  /** The current sine form with the same states and coefficients. */
  function AsSinSvf(f: LegacySin): SinSvf
  {
    SinSvf(f.res, f.cutoff, f.sampleRate, f.ic1eq, f.ic2eq, f.k, f.g0, f.g1, f.g2, Low)
  }

  /** One sample; only the low-pass output is returned, and it and the
      states agree with the current sine form's tick from the same state. */
  function LegacySinTick(f: LegacySin, x: real): (r: (real, LegacySin))
    ensures r.0 == SinTickFull(AsSinSvf(f), x).0.low
    ensures r.1 == f.(ic1eq := SinTickFull(AsSinSvf(f), x).1.ic1eq, ic2eq := SinTickFull(AsSinSvf(f), x).1.ic2eq)
  {
    var t0 := x - f.ic2eq;
    var t1 := f.g0 * t0 + f.g1 * f.ic1eq;
    var t2 := f.g2 * t0 + f.g0 * f.ic1eq;
    var v2 := t2 + f.ic2eq;
    (v2, f.(ic1eq := f.ic1eq + 2.0 * t1, ic2eq := f.ic2eq + 2.0 * t2))
  }

  /** The sine form's discarded "all-pass" `x - k*v1 - 2*v2` is not the
      tangent form's all-pass `x - 2*k*v1`: it is high minus low, the peak
      output negated. */
  lemma LegacySinDiscardedAllpass(f: LegacySin, x: real)
    ensures var resp := SinTickFull(AsSinSvf(f), x).0;
            x - f.k * resp.band - 2.0 * resp.low == resp.high - resp.low
  {
  }

  datatype LegacySinOp = SinSetCutoffOp(cutoff: real) | SinSetRateOp(rate: real) | SinTickOp(x: real)

  function LegacySinApply(f: LegacySin, op: LegacySinOp, sin: Sine): (r: Option<LegacySin>)
    requires LegacySinValid(f)
    ensures r.Some? ==> LegacySinValid(r.value)
    ensures r.Some? && GainRelation(f.k, f.g0, f.g1, f.g2) ==> GainRelation(r.value.k, r.value.g0, r.value.g1, r.value.g2)
    ensures r.Some? && LegacySinGainsFor(f, sin) ==> LegacySinGainsFor(r.value, sin)
    ensures r.None? <==> op.SinSetRateOp? && op.rate == 0.0
  {
    match op
    case SinSetCutoffOp(c) => Some(LegacySinSetCutoff(f, c, sin))
    case SinSetRateOp(sr) => if sr == 0.0 then None else Some(LegacySinSetSampleRate(f, sr, sin))
    case SinTickOp(x) => Some(LegacySinTick(f, x).1)
  }

  function LegacySinRun(f: LegacySin, ops: seq<LegacySinOp>, sin: Sine): Option<LegacySin>
    requires LegacySinValid(f)
    decreases |ops|
  {
    if |ops| == 0 then Some(f)
    else match LegacySinApply(f, ops[0], sin)
      case None => None
      case Some(f1) => LegacySinRun(f1, ops[1..], sin)
  }

  /** From construction on, the damping stays `2 - 2*0.9`, the gains keep
      `g1 = -g2 - k*g0`, and they are always those of the current cutoff and
      sample rate. */
  lemma {:induction false} LegacySinRunKeeps(f: LegacySin, ops: seq<LegacySinOp>, sin: Sine)
    requires LegacySinValid(f) && GainRelation(f.k, f.g0, f.g1, f.g2) && LegacySinGainsFor(f, sin)
    ensures var r := LegacySinRun(f, ops, sin);
            r.Some? ==> && LegacySinValid(r.value) && GainRelation(r.value.k, r.value.g0, r.value.g1, r.value.g2)
                        && LegacySinGainsFor(r.value, sin)
    decreases |ops|
  {
    if |ops| > 0 && LegacySinApply(f, ops[0], sin).Some? {
      LegacySinRunKeeps(LegacySinApply(f, ops[0], sin).value, ops[1..], sin);
    }
  }
}

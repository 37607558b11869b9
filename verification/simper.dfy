/**
  Andrew Simper's linear trapezoidal state-variable filters ("Solving the
  continuous SVF equations using trapezoidal integration and equivalent
  currents", Cytomic technical papers), in the two forms the plugin uses: one
  whose coefficients come from a tangent, one whose coefficients come from two
  sines. Both keep two integrator states `ic1eq`, `ic2eq`, compute a band
  output `v1` and a low output `v2` per sample, and derive the high output as
  what is left of the input.
 */
module Simper {
  import opened Numeric

  /** The response a filter returns from `TanTick`/`SinTick`. */
  datatype Mode = Low | Band | High | Notch | Peak

  datatype Response = Response(low: real, band: real, high: real)

  /** The three responses from the integrator outputs: low is `v2`, band is
      `v1`, and high is the part of the input that neither explains. */
  function Responses(x: real, k: real, v1: real, v2: real): (r: Response)
    ensures r.low == v2 && r.band == v1
    ensures r.low + k * r.band + r.high == x
  {
    Response(v2, v1, x - k * v1 - v2)
  }

  /** The trapezoidal integrator update: the new state mirrors the old one
      through the integrator's output, `ic' = 2*v - ic`. */
  function Integrate(ic: real, v: real): (r: real)
    ensures r + ic == 2.0 * v
  {
    2.0 * v - ic
  }

  /** The output a mode picks from one tick's responses. */
  function Select(mode: Mode, r: Response): real
  {
    match mode
    case Low => r.low
    case Band => r.band
    case High => r.high
    case Notch => r.low + r.high
    case Peak => r.low - r.high
  }

  /** Notch is the input without its band part and peak is twice the low
      part minus the input, plus the band part. */
  lemma SelectMeaning(mode: Mode, x: real, k: real, v1: real, v2: real)
    ensures mode == Notch ==> Select(mode, Responses(x, k, v1, v2)) == x - k * v1
    ensures mode == Peak ==> Select(mode, Responses(x, k, v1, v2)) == 2.0 * v2 - x + k * v1
  {
  }

  /** The normalised angular frequency `pi * cutoff / sampleRate`. */
  function Omega(cutoff: real, sampleRate: real): real
    requires sampleRate != 0.0
  {
    Pi * cutoff / sampleRate
  }

  // ------------------------------------------------------------ tangent form

  datatype TanSvf = TanSvf(
    ic1eq: real,
    ic2eq: real,
    cutoff: real,
    sampleRate: real,
    g: real,
    res: real,
    k: real,
    a1: real,
    a2: real,
    mode: Mode)

  /** The domain the model covers: a non-zero sample rate and a resonance in
      the parameter range [0, 1]. */
  predicate TanValid(f: TanSvf)
  {
    f.sampleRate != 0.0 && 0.0 <= f.res <= 1.0
  }

  /** How `g`, `k` and `a1` relate to the parameters after construction and
      after every recomputation. */
  predicate TanCoefficients(f: TanSvf, tan: real -> real)
    requires f.sampleRate != 0.0
  {
    && f.g == tan(Omega(f.cutoff, f.sampleRate))
    && f.k == 2.0 - 2.0 * f.res
    && f.a1 * (1.0 + f.g * (f.g * f.k)) == 1.0
  }

  /** With `k >= 0`, the denominator of `a1` is at least 1. */
  lemma DenominatorAtLeastOne(g: real, k: real)
    requires k >= 0.0
    ensures 1.0 + g * (g * k) >= 1.0
  {
    MulNonneg(g * g, k);
    assert g * (g * k) == (g * g) * k;
  }

  /** `a1 = 1 / (1 + g*g*k)` for a non-negative damping `k`. */
  function TanA1(g: real, k: real): (a1: real)
    requires k >= 0.0
    ensures a1 * (1.0 + g * (g * k)) == 1.0
  {
    DenominatorAtLeastOne(g, k);
    1.0 / (1.0 + g * (g * k))
  }

  /** A low-pass at 1000 Hz with resonance 0.2, silent, with `a2 = g*a1`. */
  function TanNew(sampleRate: real, tan: real -> real): (f: TanSvf)
    requires sampleRate != 0.0
    ensures TanValid(f) && TanCoefficients(f, tan)
    ensures f.ic1eq == 0.0 && f.ic2eq == 0.0 && f.mode == Low
    ensures f.cutoff == 1000.0 && f.res == 0.2 && f.sampleRate == sampleRate
    ensures f.a2 == f.g * f.a1
  {
    var g := tan(Omega(1000.0, sampleRate));
    var k := 2.0 - 2.0 * 0.2;
    var a1 := TanA1(g, k);
    TanSvf(0.0, 0.0, 1000.0, sampleRate, g, 0.2, k, a1, g * a1, Low)
  }

  /** Recomputes `g`, `k` and `a1` from the parameters, but scales the old
      `a2` by the new `g` instead of recomputing it as `g * a1`. */
  function TanReinit(f: TanSvf, tan: real -> real): (r: TanSvf)
    requires TanValid(f)
    ensures TanValid(r) && TanCoefficients(r, tan)
    ensures r == f.(g := r.g, k := r.k, a1 := r.a1, a2 := r.a2)
    ensures r.a2 == f.a2 * r.g
  {
    var g := tan(Omega(f.cutoff, f.sampleRate));
    var k := 2.0 - 2.0 * f.res;
    f.(g := g, k := k, a1 := TanA1(g, k), a2 := f.a2 * g)
  }

  function TanSetCutoff(f: TanSvf, cutoff: real, tan: real -> real): (r: TanSvf)
    requires TanValid(f)
    ensures TanValid(r) && TanCoefficients(r, tan)
    ensures r.cutoff == cutoff && r.sampleRate == f.sampleRate && r.res == f.res
    ensures r.ic1eq == f.ic1eq && r.ic2eq == f.ic2eq && r.mode == f.mode
    ensures r.a2 == f.a2 * r.g
  {
    TanReinit(f.(cutoff := cutoff), tan)
  }

  function TanSetSampleRate(f: TanSvf, sampleRate: real, tan: real -> real): (r: TanSvf)
    requires TanValid(f) && sampleRate != 0.0
    ensures TanValid(r) && TanCoefficients(r, tan)
    ensures r.cutoff == f.cutoff && r.sampleRate == sampleRate && r.res == f.res
    ensures r.ic1eq == f.ic1eq && r.ic2eq == f.ic2eq && r.mode == f.mode
    ensures r.a2 == f.a2 * r.g
  {
    TanReinit(f.(sampleRate := sampleRate), tan)
  }

  function TanSetRes(f: TanSvf, res: real, tan: real -> real): (r: TanSvf)
    requires TanValid(f) && 0.0 <= res <= 1.0
    ensures TanValid(r) && TanCoefficients(r, tan)
    ensures r.cutoff == f.cutoff && r.sampleRate == f.sampleRate && r.res == res
    ensures r.ic1eq == f.ic1eq && r.ic2eq == f.ic2eq && r.mode == f.mode
    ensures r.a2 == f.a2 * r.g
  {
    TanReinit(f.(res := res), tan)
  }

  /** One sample: the band output solves the trapezoidal step from the
      states, the low output integrates it, and both states mirror through
      their outputs. Only the states change. */
  function TanTickFull(f: TanSvf, x: real): (r: (Response, TanSvf))
    ensures r.1 == f.(ic1eq := r.1.ic1eq, ic2eq := r.1.ic2eq)
    ensures r.0.band == f.a1 * f.ic1eq + f.a2 * (x - f.ic2eq)
    ensures r.0.low == f.ic2eq + f.g * r.0.band
    ensures r.0.low + f.k * r.0.band + r.0.high == x
    ensures r.1.ic1eq + f.ic1eq == 2.0 * r.0.band && r.1.ic2eq + f.ic2eq == 2.0 * r.0.low
  {
    var v1 := f.a1 * f.ic1eq + f.a2 * (x - f.ic2eq);
    var v2 := f.ic2eq + f.g * v1;
    (Responses(x, f.k, v1, v2), f.(ic1eq := Integrate(f.ic1eq, v1), ic2eq := Integrate(f.ic2eq, v2)))
  }

  /** The all-pass output `low + high - k*band`, which is the input minus
      twice the damped band part. */
  function TanTickAllpass(f: TanSvf, x: real): (r: (real, TanSvf))
    ensures r.0 == x - 2.0 * f.k * TanTickFull(f, x).0.band
    ensures r.1 == TanTickFull(f, x).1
  {
    var (resp, next) := TanTickFull(f, x);
    (resp.low + resp.high - f.k * resp.band, next)
  }

  /** One sample in the filter's mode. The next state is the same whatever
      the mode: the mode only picks the output. */
  function TanTick(f: TanSvf, x: real): (r: (real, TanSvf))
    ensures r.1 == TanTickFull(f, x).1
    ensures f.mode == Low ==> r.0 == TanTickFull(f, x).0.low
    ensures f.mode == Band ==> r.0 == TanTickFull(f, x).0.band
    ensures f.mode == High ==> r.0 == TanTickFull(f, x).0.high
    ensures f.mode == Notch ==> r.0 == x - f.k * TanTickFull(f, x).0.band
    ensures f.mode == Peak ==> r.0 == 2.0 * TanTickFull(f, x).0.low - x + f.k * TanTickFull(f, x).0.band
  {
    var (resp, next) := TanTickFull(f, x);
    (Select(f.mode, resp), next)
  }

  /** Silence in a silent filter gives silence on every output and keeps
      the filter silent. */
  lemma TanSilence(f: TanSvf)
    requires f.ic1eq == 0.0 && f.ic2eq == 0.0
    ensures TanTickFull(f, 0.0).0 == Response(0.0, 0.0, 0.0)
    ensures TanTickFull(f, 0.0).1 == f
  {
  }

  /** The source's recomputation of `a2` leaves the design relation
      `a2 = g * a1` as soon as `g` is neither 0 nor 1: setting the cutoff to
      its current value already breaks it. */
  lemma TanReinitBreaksA2(sampleRate: real, tan: real -> real)
    requires sampleRate != 0.0
    requires tan(Omega(1000.0, sampleRate)) != 0.0 && tan(Omega(1000.0, sampleRate)) != 1.0
    ensures var f := TanSetCutoff(TanNew(sampleRate, tan), 1000.0, tan);
            f.a2 != f.g * f.a1
  {
    var f0 := TanNew(sampleRate, tan);
    var f := TanSetCutoff(f0, 1000.0, tan);
    var g := f0.g;
    assert f.g == g && f.k == f0.k;
    assert f.a1 * (1.0 + g * (g * f.k)) == f0.a1 * (1.0 + g * (g * f.k));
    DenominatorAtLeastOne(g, f.k);
    assert f.a1 == f0.a1;
    assert f.a2 == g * f0.a1 * g;
    assert f0.a1 != 0.0;
    NonzeroProduct(g * f0.a1, g - 1.0);
    assert (g * f0.a1) * (g - 1.0) == f.a2 - f.g * f.a1;
    assert f.a2 != f.g * f.a1;
  }

  lemma NonzeroProduct(a: real, b: real)
    requires a != 0.0 && b != 0.0
    ensures a * b != 0.0
  {
  }

  /** The calls a host makes on the tangent form (it has no mode setter). */
  datatype TanOp = TanCutoff(cutoff: real) | TanRate(rate: real) | TanRes(res: real)
                 | TanSample(x: real) | TanAllpassSample(x: real)

  /** One call; `None` for a sample rate of 0 or a resonance outside
      [0, 1], which the model does not cover. */
  function TanApply(f: TanSvf, op: TanOp, tan: real -> real): (r: Option<TanSvf>)
    requires TanValid(f)
    ensures r.Some? ==> TanValid(r.value) && r.value.mode == f.mode
    ensures r.None? <==> (op.TanRate? && op.rate == 0.0) || (op.TanRes? && !(0.0 <= op.res <= 1.0))
  {
    match op
    case TanCutoff(c) => Some(TanSetCutoff(f, c, tan))
    case TanRate(sr) => if sr == 0.0 then None else Some(TanSetSampleRate(f, sr, tan))
    case TanRes(res) => if 0.0 <= res <= 1.0 then Some(TanSetRes(f, res, tan)) else None
    case TanSample(x) => Some(TanTick(f, x).1)
    case TanAllpassSample(x) => Some(TanTickAllpass(f, x).1)
  }

  /** Every call keeps the coefficients consistent with the parameters. */
  lemma TanApplyKeepsCoefficients(f: TanSvf, op: TanOp, tan: real -> real)
    requires TanValid(f) && TanCoefficients(f, tan)
    ensures TanApply(f, op, tan).Some? ==> TanCoefficients(TanApply(f, op, tan).value, tan)
  {
    if TanApply(f, op, tan).Some? {
      var r := TanApply(f, op, tan).value;
      match op
      case TanSample(x) =>
        assert r == TanTickFull(f, x).1;
        TanStateOnly(f, r, tan);
      case TanAllpassSample(x) =>
        assert r == TanTickFull(f, x).1;
        TanStateOnly(f, r, tan);
      case TanCutoff(c) =>
        assert r == TanSetCutoff(f, c, tan);
      case TanRate(sr) =>
        assert r == TanSetSampleRate(f, sr, tan);
      case TanRes(res) =>
        assert r == TanSetRes(f, res, tan);
    }
  }

  /** Moving only the integrator states keeps the coefficients consistent. */
  lemma TanStateOnly(f: TanSvf, s: TanSvf, tan: real -> real)
    requires TanValid(f) && TanCoefficients(f, tan)
    requires s == f.(ic1eq := s.ic1eq, ic2eq := s.ic2eq)
    ensures TanValid(s) && TanCoefficients(s, tan)
  {
    assert s.g == f.g && s.k == f.k && s.a1 == f.a1;
    assert s.cutoff == f.cutoff && s.sampleRate == f.sampleRate && s.res == f.res;
  }

  function TanRun(f: TanSvf, ops: seq<TanOp>, tan: real -> real): Option<TanSvf>
    requires TanValid(f)
    decreases |ops|
  {
    if |ops| == 0 then Some(f)
    else match TanApply(f, ops[0], tan)
      case None => None
      case Some(f1) => TanRun(f1, ops[1..], tan)
  }

  /** From construction on, the coefficients keep their relation to the
      parameters and the mode stays low-pass. */
  lemma {:induction false} TanRunKeepsCoefficients(f: TanSvf, ops: seq<TanOp>, tan: real -> real)
    requires TanValid(f) && TanCoefficients(f, tan) && f.mode == Low
    ensures var r := TanRun(f, ops, tan);
            r.Some? ==> TanValid(r.value) && TanCoefficients(r.value, tan) && r.value.mode == Low
    decreases |ops|
  {
    if |ops| > 0 && TanApply(f, ops[0], tan).Some? {
      TanApplyKeepsCoefficients(f, ops[0], tan);
      TanRunKeepsCoefficients(TanApply(f, ops[0], tan).value, ops[1..], tan);
    }
  }

  // ---------------------------------------------------------------- sine form

  datatype SinSvf = SinSvf(
    res: real,
    cutoff: real,
    sampleRate: real,
    ic1eq: real,
    ic2eq: real,
    k: real,
    g0: real,
    g1: real,
    g2: real,
    mode: Mode)

  /** The normaliser `2 + k*s2` of the sine form's gains. */
  function Normaliser(k: real, s2: real): real
  {
    2.0 + k * s2
  }

  /** The coefficients for damping `k` from `s1 = sin(w)` and
      `s2 = sin(2w)`, divided by the normaliser. */
  function SinGains(k: real, s1: real, s2: real): (g: (real, real, real))
    requires Normaliser(k, s2) != 0.0
    ensures GainsFrom(k, g.0, g.2, s1, s2)
    ensures GainRelation(k, g.0, g.1, g.2)
  {
    var nrm := 1.0 / Normaliser(k, s2);
    assert nrm * Normaliser(k, s2) == 1.0;
    assert (s2 * nrm) * Normaliser(k, s2) == s2 * (nrm * Normaliser(k, s2));
    assert (2.0 * s1 * s1) * nrm * Normaliser(k, s2) == (2.0 * s1 * s1) * (nrm * Normaliser(k, s2));
    assert (-2.0 * s1 * s1 - k * s2) * nrm == -((2.0 * s1 * s1) * nrm) - k * (s2 * nrm);
    (s2 * nrm, (-2.0 * s1 * s1 - k * s2) * nrm, (2.0 * s1 * s1) * nrm)
  }

  /** The damping the recomputation uses: `2 - 1.45*res`, not the
      constructor's `2 - 2*res`. */
  function SinDamping(res: real): (k: real)
    ensures 0.0 <= res <= 1.0 ==> 0.55 <= k <= 2.0
  {
    2.0 - 1.45 * res
  }

  /** The parameters for which the recomputation is defined: a non-zero
      sample rate and a non-zero normaliser. */
  predicate SinDefined(res: real, cutoff: real, sampleRate: real, sin: Sine)
  {
    sampleRate != 0.0 && Normaliser(SinDamping(res), sin(2.0 * Omega(cutoff, sampleRate))) != 0.0
  }

  /** The relation among the three gains and the damping that the paper's
      formulas imply: `g1 = -g2 - k*g0`. */
  predicate GainRelation(k: real, g0: real, g1: real, g2: real)
  {
    g1 == -g2 - k * g0
  }

  /** `g0` is `s2` and `g2` is `2*s1*s1`, each divided by the normaliser
      `2 + k*s2`. */
  predicate GainsFrom(k: real, g0: real, g2: real, s1: real, s2: real)
  {
    g0 * Normaliser(k, s2) == s2 && g2 * Normaliser(k, s2) == 2.0 * s1 * s1
  }

  /** `GainsFrom` pins both gains: they are the quotients by the normaliser,
      so gains left over from other parameters fail it. */
  lemma GainsFromDetermines(k: real, g0: real, g2: real, s1: real, s2: real)
    requires Normaliser(k, s2) != 0.0 && GainsFrom(k, g0, g2, s1, s2)
    ensures g0 == s2 / Normaliser(k, s2) && g2 == 2.0 * s1 * s1 / Normaliser(k, s2)
  {
  }

  /** The gains are those of the stored damping, cutoff and sample rate, with
      `s1 = sin(w)` and `s2 = sin(2w)` for `w = pi*cutoff/sampleRate`. */
  predicate SinGainsFor(f: SinSvf, sin: Sine)
  {
    && f.sampleRate != 0.0
    && var w := Omega(f.cutoff, f.sampleRate);
       GainsFrom(f.k, f.g0, f.g2, sin(w), sin(2.0 * w))
  }

  /** What construction and every recomputation establish: the gain relation,
      and gains computed from the current parameters. */
  predicate SinCoefficients(f: SinSvf, sin: Sine)
  {
    GainRelation(f.k, f.g0, f.g1, f.g2) && SinGainsFor(f, sin)
  }

  /** A low-pass at 500 Hz with resonance 0.2 and damping `2 - 2*0.2`. */
  function SinNew(sampleRate: real, sin: Sine): (f: SinSvf)
    requires sampleRate != 0.0
    ensures SinCoefficients(f, sin) && f.k == 1.6
    ensures f.ic1eq == 0.0 && f.ic2eq == 0.0 && f.mode == Low
    ensures f.cutoff == 500.0 && f.res == 0.2 && f.sampleRate == sampleRate
  {
    var w := Omega(500.0, sampleRate);
    var k := 2.0 - 2.0 * 0.2;
    var s2 := sin(2.0 * w);
    assert Normaliser(k, s2) >= 0.4;
    var g := SinGains(k, sin(w), s2);
    SinSvf(0.2, 500.0, sampleRate, 0.0, 0.0, k, g.0, g.1, g.2, Low)
  }

  /** Recomputes the damping and the three gains from the parameters. */
  function SinReinit(f: SinSvf, sin: Sine): (r: SinSvf)
    requires SinDefined(f.res, f.cutoff, f.sampleRate, sin)
    ensures SinCoefficients(r, sin) && r.k == SinDamping(f.res)
    ensures r == f.(k := r.k, g0 := r.g0, g1 := r.g1, g2 := r.g2)
  {
    var w := Omega(f.cutoff, f.sampleRate);
    var k := SinDamping(f.res);
    var s2 := sin(2.0 * w);
    assert Normaliser(k, s2) != 0.0;
    var g := SinGains(k, sin(w), s2);
    f.(k := k, g0 := g.0, g1 := g.1, g2 := g.2)
  }

  function SinSetCutoff(f: SinSvf, cutoff: real, sin: Sine): (r: SinSvf)
    requires SinDefined(f.res, cutoff, f.sampleRate, sin)
    ensures SinCoefficients(r, sin) && r.k == SinDamping(f.res)
    ensures r.cutoff == cutoff && r.sampleRate == f.sampleRate && r.res == f.res
    ensures r.ic1eq == f.ic1eq && r.ic2eq == f.ic2eq && r.mode == f.mode
  {
    SinReinit(f.(cutoff := cutoff), sin)
  }

  function SinSetSampleRate(f: SinSvf, sampleRate: real, sin: Sine): (r: SinSvf)
    requires SinDefined(f.res, f.cutoff, sampleRate, sin)
    ensures SinCoefficients(r, sin) && r.k == SinDamping(f.res)
    ensures r.cutoff == f.cutoff && r.sampleRate == sampleRate && r.res == f.res
    ensures r.ic1eq == f.ic1eq && r.ic2eq == f.ic2eq && r.mode == f.mode
  {
    SinReinit(f.(sampleRate := sampleRate), sin)
  }

  function SinSetRes(f: SinSvf, res: real, sin: Sine): (r: SinSvf)
    requires SinDefined(res, f.cutoff, f.sampleRate, sin)
    ensures SinCoefficients(r, sin) && r.k == SinDamping(res)
    ensures r.cutoff == f.cutoff && r.sampleRate == f.sampleRate && r.res == res
    ensures r.ic1eq == f.ic1eq && r.ic2eq == f.ic2eq && r.mode == f.mode
  {
    SinReinit(f.(res := res), sin)
  }

  function SinSetMode(f: SinSvf, mode: Mode): (r: SinSvf)
    ensures r.mode == mode && r == f.(mode := r.mode)
  {
    f.(mode := mode)
  }

  /** Re-applying the constructor's resonance changes the damping from 1.6
      to 1.71, because the recomputation uses a different formula. */
  lemma SinSetSameResChangesDamping(sampleRate: real, sin: Sine)
    requires sampleRate != 0.0 && SinDefined(0.2, 500.0, sampleRate, sin)
    ensures SinNew(sampleRate, sin).k == 1.6
    ensures SinSetRes(SinNew(sampleRate, sin), 0.2, sin).k == 1.71
  {
  }

  /** One sample: `t1`, `t2` are the integrators' increments, the outputs
      add them to the states, and the states move by twice the increment,
      which is the tangent form's mirror rule `ic' = 2*v - ic`. */
  function SinTickFull(f: SinSvf, x: real): (r: (Response, SinSvf))
    ensures r.1 == f.(ic1eq := r.1.ic1eq, ic2eq := r.1.ic2eq)
    ensures r.0.band == f.ic1eq + f.g0 * (x - f.ic2eq) + f.g1 * f.ic1eq
    ensures r.0.low == f.ic2eq + f.g2 * (x - f.ic2eq) + f.g0 * f.ic1eq
    ensures r.0.low + f.k * r.0.band + r.0.high == x
    ensures r.1.ic1eq + f.ic1eq == 2.0 * r.0.band && r.1.ic2eq + f.ic2eq == 2.0 * r.0.low
  {
    var t0 := x - f.ic2eq;
    var t1 := f.g0 * t0 + f.g1 * f.ic1eq;
    var t2 := f.g2 * t0 + f.g0 * f.ic1eq;
    var v1 := t1 + f.ic1eq;
    var v2 := t2 + f.ic2eq;
    (Responses(x, f.k, v1, v2), f.(ic1eq := f.ic1eq + 2.0 * t1, ic2eq := f.ic2eq + 2.0 * t2))
  }

  /** One sample in the filter's mode; the mode only picks the output. */
  function SinTick(f: SinSvf, x: real): (r: (real, SinSvf))
    ensures r.1 == SinTickFull(f, x).1
    ensures f.mode == Low ==> r.0 == SinTickFull(f, x).0.low
    ensures f.mode == Band ==> r.0 == SinTickFull(f, x).0.band
    ensures f.mode == High ==> r.0 == SinTickFull(f, x).0.high
    ensures f.mode == Notch ==> r.0 == x - f.k * SinTickFull(f, x).0.band
    ensures f.mode == Peak ==> r.0 == 2.0 * SinTickFull(f, x).0.low - x + f.k * SinTickFull(f, x).0.band
  {
    var (resp, next) := SinTickFull(f, x);
    (Select(f.mode, resp), next)
  }

  lemma SinSilence(f: SinSvf)
    requires f.ic1eq == 0.0 && f.ic2eq == 0.0
    ensures SinTickFull(f, 0.0).0 == Response(0.0, 0.0, 0.0)
    ensures SinTickFull(f, 0.0).1 == f
  {
  }

  /** Two filters that differ only in mode reach the same state. */
  lemma SinModeOnlySelects(f: SinSvf, m1: Mode, m2: Mode, x: real)
    ensures SinTick(f.(mode := m1), x).1.(mode := m2) == SinTick(f.(mode := m2), x).1
  {
    var (r1, s1) := SinTickFull(f.(mode := m1), x);
    var (r2, s2) := SinTickFull(f.(mode := m2), x);
    assert r1.band == r2.band && r1.low == r2.low;
    assert s1.ic1eq == s2.ic1eq && s1.ic2eq == s2.ic2eq;
  }

  datatype SinOp = SinCutoff(cutoff: real) | SinRate(rate: real) | SinRes(res: real)
                 | SinModeOp(mode: Mode) | SinSample(x: real)

  /** One call; `None` where the recomputation would divide by zero. */
  function SinApply(f: SinSvf, op: SinOp, sin: Sine): (r: Option<SinSvf>)
    requires SinCoefficients(f, sin)
    ensures r.Some? ==> SinCoefficients(r.value, sin)
    ensures r.None? <==> match op
      case SinCutoff(c) => !SinDefined(f.res, c, f.sampleRate, sin)
      case SinRate(sr) => !SinDefined(f.res, f.cutoff, sr, sin)
      case SinRes(res) => !SinDefined(res, f.cutoff, f.sampleRate, sin)
      case _ => false
  {
    match op
    case SinCutoff(c) =>
      if SinDefined(f.res, c, f.sampleRate, sin) then Some(SinSetCutoff(f, c, sin)) else None
    case SinRate(sr) =>
      if SinDefined(f.res, f.cutoff, sr, sin) then Some(SinSetSampleRate(f, sr, sin)) else None
    case SinRes(res) =>
      if SinDefined(res, f.cutoff, f.sampleRate, sin) then Some(SinSetRes(f, res, sin)) else None
    case SinModeOp(m) => Some(SinSetMode(f, m))
    case SinSample(x) => Some(SinTick(f, x).1)
  }

  function SinRun(f: SinSvf, ops: seq<SinOp>, sin: Sine): Option<SinSvf>
    requires SinCoefficients(f, sin)
    decreases |ops|
  {
    if |ops| == 0 then Some(f)
    else match SinApply(f, ops[0], sin)
      case None => None
      case Some(f1) => SinRun(f1, ops[1..], sin)
  }

  /** The gain relation `g1 = -g2 - k*g0` holds in every reachable state. */
  lemma {:induction false} SinRunKeepsGainRelation(sampleRate: real, ops: seq<SinOp>, sin: Sine)
    requires sampleRate != 0.0
    ensures var r := SinRun(SinNew(sampleRate, sin), ops, sin); r.Some? ==> SinCoefficients(r.value, sin)
  {
    SinRunKeeps(SinNew(sampleRate, sin), ops, sin);
  }

  lemma {:induction false} SinRunKeeps(f: SinSvf, ops: seq<SinOp>, sin: Sine)
    requires SinCoefficients(f, sin)
    ensures var r := SinRun(f, ops, sin); r.Some? ==> SinCoefficients(r.value, sin)
    decreases |ops|
  {
    if |ops| > 0 && SinApply(f, ops[0], sin).Some? {
      SinRunKeeps(SinApply(f, ops[0], sin).value, ops[1..], sin);
    }
  }
}

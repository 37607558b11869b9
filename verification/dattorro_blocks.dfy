/**
  The building blocks of the plate reverb (J. Dattorro, "Effect Design,
  Part 1: Reverberator and Other Filters"): a ring-buffer delay line, the
  two all-pass diffusors and a one-pole damper. Each block is a small state
  record with a step function returning the output and the next state.
 */
module DattorroBlocks {
  import opened Numeric
  import Ring

  // ---------------------------------------------------------------- DelayLine

  /** A ring buffer with one configured delay and a write index. */
  datatype DelayLine = DelayLine(buffer: seq<real>, delay: nat, writeIndex: nat)

  /** A usable line: a non-empty buffer (a remainder by zero panics in the
      source) and a write index inside it. */
  predicate LineValid(l: DelayLine)
  {
    |l.buffer| > 0 && l.writeIndex < |l.buffer|
  }

  /** A line of `maxDelay` silent slots whose delay is its full length. */
  function NewLine(maxDelay: nat): (l: DelayLine)
    ensures |l.buffer| == maxDelay && AllZero(l.buffer)
    ensures l.delay == maxDelay && l.writeIndex == 0
    ensures LineValid(l) <==> maxDelay > 0
  {
    DelayLine(Zeros(maxDelay), maxDelay, 0)
  }

  function SetDelay(l: DelayLine, d: nat): (r: DelayLine)
    ensures r.buffer == l.buffer && r.writeIndex == l.writeIndex && r.delay == d
  {
    l.(delay := d)
  }

  /** The slot `d` samples behind the write index, wrapping with a Euclidean
      remainder: the slot written `d` inserts ago when 1 <= d <= length. */
  function Slot(l: DelayLine, d: nat): (i: nat)
    requires LineValid(l)
    ensures i < |l.buffer|
    ensures (i + d - l.writeIndex) % |l.buffer| == 0
    ensures d <= l.writeIndex ==> i == l.writeIndex - d
  {
    var len := |l.buffer|;
    Ring.DivMod(l.writeIndex - d, len);
    Ring.ModUnique(((l.writeIndex - d) % len) + d - l.writeIndex, -((l.writeIndex - d) / len), 0, len);
    if d <= l.writeIndex then
      Ring.ModUnique(l.writeIndex - d, 0, l.writeIndex - d, len);
      (l.writeIndex - d) % len
    else
      (l.writeIndex - d) % len
  }

  /** Any multiple of the length, 0 included, reads the slot under the write
      index: the oldest sample. */
  lemma SlotOfMultiple(l: DelayLine, d: nat)
    requires LineValid(l) && d % |l.buffer| == 0
    ensures Slot(l, d) == l.writeIndex
  {
    var len := |l.buffer|;
    Ring.DivMod(d, len);
    Ring.ModAddMultiple(l.writeIndex, -(d / len), len);
    assert l.writeIndex - d == l.writeIndex + -(d / len) * len;
    Ring.ModUnique(l.writeIndex, 0, l.writeIndex, len);
  }

  /** A pure read at the configured delay. */
  function Get(l: DelayLine): real
    requires LineValid(l)
  {
    l.buffer[Slot(l, l.delay)]
  }

  /** A pure read at an arbitrary offset. */
  function GetWithDelay(l: DelayLine, d: nat): real
    requires LineValid(l)
  {
    l.buffer[Slot(l, d)]
  }

  /** Writes the slot under the write index and advances the index, wrapping. */
  function Insert(l: DelayLine, x: real): (r: DelayLine)
    requires LineValid(l)
    ensures LineValid(r) && |r.buffer| == |l.buffer| && r.delay == l.delay
    ensures r.buffer[l.writeIndex] == x
    ensures forall i :: 0 <= i < |l.buffer| && i != l.writeIndex ==> r.buffer[i] == l.buffer[i]
    ensures r.writeIndex == (l.writeIndex + 1) % |l.buffer|
    ensures r.writeIndex == if l.writeIndex + 1 == |l.buffer| then 0 else l.writeIndex + 1
  {
    var len := |l.buffer|;
    Ring.ModSucc(l.writeIndex, len);
    Ring.ModUnique(l.writeIndex, 0, l.writeIndex, len);
    l.(buffer := l.buffer[l.writeIndex := x], writeIndex := (l.writeIndex + 1) % len)
  }

  /** Reads at the configured delay, then inserts the input. */
  function Process(l: DelayLine, x: real): (r: (real, DelayLine))
    requires LineValid(l)
    ensures r.0 == l.buffer[Slot(l, l.delay)]
    ensures r.1 == Insert(l, x)
  {
    (Get(l), Insert(l, x))
  }

  /** A line that started silent with its write index at 0, after the inputs
      `xs`: the write index is the input count modulo the length, and the
      last `len` inputs sit at their arrival slots. */
  predicate LineState(l: DelayLine, xs: seq<real>, len: nat)
    requires len > 0
  {
    && |l.buffer| == len
    && l.writeIndex == |xs| % len
    && forall n :: |xs| - len <= n < |xs| ==> l.buffer[n % len] == Ring.Lag(xs, n)
  }

  /** A silent line whose write index is 0 has seen nothing yet. */
  lemma SilentLineStart(l: DelayLine)
    requires LineValid(l) && AllZero(l.buffer) && l.writeIndex == 0
    ensures LineState(l, [], |l.buffer|)
  {
    var len := |l.buffer|;
    forall n | -len <= n < 0
      ensures l.buffer[n % len] == Ring.Lag([], n)
    {
      Ring.DivMod(n, len);
    }
    Ring.ModUnique(0, 0, 0, len);
  }

  /** The configured delay reads the input from `EffectiveDelay` samples ago. */
  lemma SlotAtTime(l: DelayLine, t: int, D: nat)
    requires LineValid(l) && l.writeIndex == t % |l.buffer|
    requires (l.delay - D) % |l.buffer| == 0
    ensures Slot(l, l.delay) == (t - D) % |l.buffer|
  {
    var len := |l.buffer|;
    var i := Slot(l, l.delay);
    Ring.DivMod(t, len);
    Ring.ModUnique(l.writeIndex - t, -(t / len), 0, len);
    Ring.ModSum(i + l.delay - l.writeIndex, l.writeIndex - t, len);
    Ring.ModSum(i + l.delay - t, l.delay - D, len);
    assert i + l.delay - t - (l.delay - D) == i - (t - D);
    Ring.ModShift(i, t - D, len);
    Ring.ModUnique(i, 0, i, len);
  }

  /** One `Process` call outputs the input from `EffectiveDelay(delay, len)`
      samples ago and records the new input. */
  lemma LineStep(l: DelayLine, xs: seq<real>, x: real, len: nat)
    requires len > 0 && LineValid(l) && LineState(l, xs, len)
    ensures Process(l, x).0 == Ring.Lag(xs, |xs| - Ring.EffectiveDelay(l.delay, len))
    ensures LineState(Process(l, x).1, xs + [x], len)
  {
    var t := |xs|;
    var D := Ring.EffectiveDelay(l.delay, len);
    SlotAtTime(l, t, D);
    var l' := Insert(l, x);
    var xs' := xs + [x];
    Ring.ModSucc(t, len);
    forall n | t + 1 - len <= n < t + 1
      ensures l'.buffer[n % len] == Ring.Lag(xs', n)
    {
      if n < t {
        Ring.ModDistinct(n, t, len);
        assert Ring.Lag(xs', n) == Ring.Lag(xs, n);
      }
    }
  }

  /** The outputs of `Process` over a stream of inputs. */
  function Stream(l: DelayLine, xs: seq<real>): (ys: seq<real>)
    requires LineValid(l)
    ensures |ys| == |xs|
    decreases |xs|
  {
    if xs == [] then []
    else
      var (y, l') := Process(l, xs[0]);
      [y] + Stream(l', xs[1..])
  }

  /** A delay line is a FIFO: after a history `hist`, output `t` of a stream
      is the input `EffectiveDelay(delay, len)` samples before it. */
  lemma {:induction false} StreamIsDelay(l: DelayLine, hist: seq<real>, xs: seq<real>)
    requires LineValid(l) && LineState(l, hist, |l.buffer|)
    ensures forall t :: 0 <= t < |xs| ==>
              Stream(l, xs)[t] == Ring.Lag(hist + xs, |hist| + t - Ring.EffectiveDelay(l.delay, |l.buffer|))
    decreases |xs|
  {
    if xs != [] {
      var len := |l.buffer|;
      var D := Ring.EffectiveDelay(l.delay, len);
      LineStep(l, hist, xs[0], len);
      var (y, l') := Process(l, xs[0]);
      StreamIsDelay(l', hist + [xs[0]], xs[1..]);
      assert hist + [xs[0]] + xs[1..] == hist + xs;
      forall t | 0 <= t < |xs|
        ensures Stream(l, xs)[t] == Ring.Lag(hist + xs, |hist| + t - D)
      {
        if t == 0 {
          assert Ring.Lag(hist, |hist| - D) == Ring.Lag(hist + xs, |hist| - D);
        } else {
          assert Stream(l, xs)[t] == Stream(l', xs[1..])[t - 1];
        }
      }
    }
  }

  /** From silence, output `t` is input `t - d` for 1 <= d <= len, and
      silence before that. */
  lemma SilentLineDelays(l: DelayLine, xs: seq<real>)
    requires LineValid(l) && AllZero(l.buffer) && l.writeIndex == 0
    ensures forall t :: 0 <= t < |xs| ==>
              Stream(l, xs)[t] == Ring.Lag(xs, t - Ring.EffectiveDelay(l.delay, |l.buffer|))
  {
    SilentLineStart(l);
    StreamIsDelay(l, [], xs);
    assert [] + xs == xs;
  }

  /** A delay of 0 behaves as a delay of the full length: the reverb's
      pre-delay, set to 0, delays by a whole line. */
  lemma ZeroDelayIsFullLength(l: DelayLine, xs: seq<real>)
    requires LineValid(l) && AllZero(l.buffer) && l.writeIndex == 0 && l.delay == 0
    ensures forall t :: 0 <= t < |xs| ==> Stream(l, xs)[t] == Ring.Lag(xs, t - |l.buffer|)
  {
    SilentLineDelays(l, xs);
  }

  /** A line of 4 slots with delay 2 turns 1..8 into 0, 0, 1..6. */
  lemma LineTestVector(l: DelayLine, xs: seq<real>)
    requires l == SetDelay(NewLine(4), 2)
    requires xs == [1.0, 2.0, 3.0, 4.0, 5.0, 6.0, 7.0, 8.0]
    ensures Stream(l, xs) == [0.0, 0.0, 1.0, 2.0, 3.0, 4.0, 5.0, 6.0]
  {
    SilentLineDelays(l, xs);
    assert Ring.EffectiveDelay(2, 4) == 2;
  }

  /** A silent line reads silence at every offset. */
  lemma SilentReads(l: DelayLine)
    requires LineValid(l) && AllZero(l.buffer)
    ensures forall d: nat :: GetWithDelay(l, d) == 0.0
  {
  }

  /** Feeding silence to a silent line keeps it silent. */
  lemma ProcessSilent(l: DelayLine)
    requires LineValid(l) && AllZero(l.buffer)
    ensures Process(l, 0.0).0 == 0.0 && AllZero(Process(l, 0.0).1.buffer)
  {
  }

  /** Writing silence into a silent line keeps it silent. */
  lemma InsertSilence(l: DelayLine)
    requires LineValid(l) && AllZero(l.buffer)
    ensures AllZero(Insert(l, 0.0).buffer)
  {
  }

  /** Offsets that differ by the length read the same slot. */
  lemma GetWithDelayAliases(l: DelayLine, d: nat)
    requires LineValid(l)
    ensures GetWithDelay(l, d + |l.buffer|) == GetWithDelay(l, d)
  {
    var len := |l.buffer|;
    var i, j := Slot(l, d + len), Slot(l, d);
    Ring.ModUnique(len, 1, 0, len);
    Ring.ModSum(i + d + len - l.writeIndex, len, len);
    Ring.ModSum(i + d - l.writeIndex, j + d - l.writeIndex, len);
    Ring.ModShift(i, j, len);
    Ring.ModUnique(i, 0, i, len);
    Ring.ModUnique(j, 0, j, len);
  }

  /** Offsets less than a length apart read different slots; so the
      reverb's output taps, up to 3627 samples deep, read distinct slots
      only in tap lines longer than 3627. */
  lemma CloseOffsetsDistinct(l: DelayLine, a: nat, b: nat)
    requires LineValid(l) && a < b < a + |l.buffer|
    ensures Slot(l, a) != Slot(l, b)
  {
    var len := |l.buffer|;
    var i, j := Slot(l, a), Slot(l, b);
    if i == j {
      Ring.ModSum(i + a - l.writeIndex, j + b - l.writeIndex, len);
      Ring.ModShift(a, b, len);
      Ring.ModDistinct(a, b, len);
    }
  }

  // ------------------------------------------------------------ InputDiffusor

  /** An all-pass stage: a delay line read at its full length plus a gain. */
  datatype InputDiffusor = InputDiffusor(line: DelayLine, gain: real)

  function NewInputDiffusor(delay: nat, gain: real): (d: InputDiffusor)
    ensures d.line == NewLine(delay) && d.gain == gain
  {
    InputDiffusor(NewLine(delay), gain)
  }

  /** Stores `x - g*delayed` and returns `delayed + g*stored`, which is
      `g*x + (1 - g*g)*delayed`. */
  function DiffuseInput(d: InputDiffusor, x: real): (r: (real, InputDiffusor))
    requires LineValid(d.line)
    ensures LineValid(r.1.line) && |r.1.line.buffer| == |d.line.buffer| && r.1.gain == d.gain
    ensures r.1.line.delay == d.line.delay
    ensures r.1.line.buffer[d.line.writeIndex] == x - d.gain * Get(d.line)
    ensures r.0 == d.gain * x + (1.0 - d.gain * d.gain) * Get(d.line)
    ensures r.0 == AllPassOut(x, d.gain, Get(d.line))
    ensures r.1 == d.(line := Insert(d.line, AllPassIn(x, d.gain, Get(d.line))))
  {
    var delayed := Get(d.line);
    (AllPassOut(x, d.gain, delayed), d.(line := Insert(d.line, AllPassIn(x, d.gain, delayed))))
  }

  /** The outputs of `DiffuseInput` over a stream of inputs. */
  function DiffuseStream(d: InputDiffusor, xs: seq<real>): (ys: seq<real>)
    requires LineValid(d.line)
    ensures |ys| == |xs|
    decreases |xs|
  {
    if xs == [] then []
    else
      var (y, d') := DiffuseInput(d, xs[0]);
      [y] + DiffuseStream(d', xs[1..])
  }

  /** What an all-pass stage of gain `g` stores for the input `x` when its
      delayed sample is `a`. */
  function AllPassIn(x: real, g: real, a: real): (r: real)
    ensures r == x - g * a
  {
    x + a * g * -1.0
  }

  /** What the same stage outputs: the delayed sample plus `g` times the
      stored one, which is `g*x + (1 - g*g)*a`. */
  function AllPassOut(x: real, g: real, a: real): (r: real)
    ensures r == g * x + (1.0 - g * g) * a
  {
    a + AllPassIn(x, g, a) * g
  }

  /** The samples an all-pass stage of delay `D` and gain `g` stores: after
      the history `hist`, each input minus `g` times the sample stored `D`
      steps before it. */
  function AllPassStored(hist: seq<real>, xs: seq<real>, g: real, D: nat): (s: seq<real>)
    ensures |s| == |hist| + |xs| && s[..|hist|] == hist
    decreases |xs|
  {
    if xs == [] then hist
    else
      var s := AllPassStored(hist + [AllPassIn(xs[0], g, Ring.Lag(hist, |hist| - D))], xs[1..], g, D);
      assert s[..|hist|] == (hist + [AllPassIn(xs[0], g, Ring.Lag(hist, |hist| - D))])[..|hist|];
      s
  }

  /** A stored sequence agrees with its history wherever the history reaches. */
  lemma LagOfPrefix(s: seq<real>, hist: seq<real>, n: int)
    requires |hist| <= |s| && s[..|hist|] == hist && n < |hist|
    ensures Ring.Lag(s, n) == Ring.Lag(hist, n)
  {
    if 0 <= n { assert s[..|hist|][n] == s[n]; }
  }

  /** The stored samples satisfy the all-pass feedback recurrence
      `s[t] = x[t] - g*s[t - D]` at every new time step. */
  lemma {:induction false} AllPassStoredRecurrence(hist: seq<real>, xs: seq<real>, g: real, D: nat)
    requires D >= 1
    ensures var s := AllPassStored(hist, xs, g, D);
            forall t :: 0 <= t < |xs| ==> s[|hist| + t] == AllPassIn(xs[t], g, Ring.Lag(s, |hist| + t - D))
    decreases |xs|
  {
    if xs != [] {
      var h1 := hist + [AllPassIn(xs[0], g, Ring.Lag(hist, |hist| - D))];
      var s := AllPassStored(hist, xs, g, D);
      assert s == AllPassStored(h1, xs[1..], g, D);
      AllPassStoredRecurrence(h1, xs[1..], g, D);
      forall t | 0 <= t < |xs| ensures s[|hist| + t] == AllPassIn(xs[t], g, Ring.Lag(s, |hist| + t - D)) {
        if t == 0 {
          assert s[..|h1|][|hist|] == h1[|hist|];
          LagOfPrefix(s, hist, |hist| - D);
          assert s[..|hist|] == hist by { assert s[..|h1|][..|hist|] == hist; }
        } else {
          assert xs[1..][t - 1] == xs[t];
          assert |h1| + (t - 1) == |hist| + t;
        }
      }
    }
  }

  /** `DiffuseInput` in terms of a known delayed sample `a`. */
  lemma DiffuseInputAt(d: InputDiffusor, x: real, a: real)
    requires LineValid(d.line) && a == Get(d.line)
    ensures DiffuseInput(d, x).0 == AllPassOut(x, d.gain, a)
    ensures DiffuseInput(d, x).1.line == Insert(d.line, AllPassIn(x, d.gain, a))
  {
  }

  /** One `DiffuseInput` call on a line holding `hist`: the delayed sample is
      the one stored `D` steps ago, and the line then holds `hist` plus the
      newly stored sample. */
  lemma DiffuseStep(d: InputDiffusor, hist: seq<real>, x: real)
    requires LineValid(d.line) && LineState(d.line, hist, |d.line.buffer|)
    ensures var D := Ring.EffectiveDelay(d.line.delay, |d.line.buffer|);
            var a := Ring.Lag(hist, |hist| - D);
            var r := DiffuseInput(d, x);
            && r.0 == AllPassOut(x, d.gain, a)
            && LineState(r.1.line, hist + [AllPassIn(x, d.gain, a)], |d.line.buffer|)
  {
    var D := Ring.EffectiveDelay(d.line.delay, |d.line.buffer|);
    var a := Ring.Lag(hist, |hist| - D);
    var stored := AllPassIn(x, d.gain, a);
    LineStep(d.line, hist, stored, |d.line.buffer|);
    assert a == Get(d.line);
    DiffuseInputAt(d, x, a);
  }

  /** The outputs of an all-pass stage of delay `D` and gain `g` after the
      stored history `hist`: `g*x + (1 - g*g)*a` for each input `x`, where
      `a` is the sample stored `D` steps before. */
  function AllPassOutputs(hist: seq<real>, xs: seq<real>, g: real, D: nat): (ys: seq<real>)
    ensures |ys| == |xs|
    decreases |xs|
  {
    if xs == [] then []
    else
      var a := Ring.Lag(hist, |hist| - D);
      [AllPassOut(xs[0], g, a)] + AllPassOutputs(hist + [AllPassIn(xs[0], g, a)], xs[1..], g, D)
  }

  /** Each output is `g*x[t] + (1 - g*g)*s[t - D]` over the stored samples. */
  lemma {:induction false} AllPassOutputsClosed(hist: seq<real>, xs: seq<real>, g: real, D: nat)
    requires D >= 1
    ensures var s := AllPassStored(hist, xs, g, D);
            forall t :: 0 <= t < |xs| ==>
              AllPassOutputs(hist, xs, g, D)[t] == AllPassOut(xs[t], g, Ring.Lag(s, |hist| + t - D))
    decreases |xs|
  {
    if xs != [] {
      var a := Ring.Lag(hist, |hist| - D);
      var h1 := hist + [AllPassIn(xs[0], g, a)];
      var s := AllPassStored(hist, xs, g, D);
      assert s == AllPassStored(h1, xs[1..], g, D);
      var ys := AllPassOutputs(hist, xs, g, D);
      assert ys == [AllPassOut(xs[0], g, a)] + AllPassOutputs(h1, xs[1..], g, D);
      AllPassOutputsClosed(h1, xs[1..], g, D);
      forall t | 0 <= t < |xs|
        ensures ys[t] == AllPassOut(xs[t], g, Ring.Lag(s, |hist| + t - D))
      {
        if t == 0 {
          assert s[..|h1|][..|hist|] == hist;
          LagOfPrefix(s, hist, |hist| - D);
        } else {
          assert ys[t] == AllPassOutputs(h1, xs[1..], g, D)[t - 1];
          assert xs[1..][t - 1] == xs[t];
          assert |h1| + (t - 1) == |hist| + t;
        }
      }
    }
  }

  /** An input diffusor whose line holds `hist` produces the all-pass
      outputs. */
  lemma {:induction false} DiffuseStreamMatches(d: InputDiffusor, hist: seq<real>, xs: seq<real>, len: nat)
    requires LineValid(d.line) && |d.line.buffer| == len && LineState(d.line, hist, len)
    ensures DiffuseStream(d, xs) == AllPassOutputs(hist, xs, d.gain, Ring.EffectiveDelay(d.line.delay, len))
    decreases |xs|
  {
    if xs != [] {
      var D := Ring.EffectiveDelay(d.line.delay, len);
      var a := Ring.Lag(hist, |hist| - D);
      DiffuseStep(d, hist, xs[0]);
      var d1 := DiffuseInput(d, xs[0]).1;
      DiffuseStreamMatches(d1, hist + [AllPassIn(xs[0], d.gain, a)], xs[1..], len);
    }
  }

  /** A silent diffusor, fed any stream, produces the all-pass outputs with
      an empty history. */
  lemma SilentDiffusorIsAllPass(d: InputDiffusor, xs: seq<real>)
    requires LineValid(d.line) && AllZero(d.line.buffer) && d.line.writeIndex == 0
    ensures DiffuseStream(d, xs) == AllPassOutputs([], xs, d.gain, Ring.EffectiveDelay(d.line.delay, |d.line.buffer|))
  {
    SilentLineStart(d.line);
    DiffuseStreamMatches(d, [], xs, |d.line.buffer|);
  }

  /** The all-pass filter as difference equations over the stored samples
      `s`: `y[t] = g*x[t] + (1 - g*g)*s[t - D]` and `s[t] = x[t] - g*s[t - D]`,
      for any delay of at least one sample. */
  lemma AllPassLaw(hist: seq<real>, xs: seq<real>, g: real, D: nat, ys: seq<real>)
    requires D >= 1 && ys == AllPassOutputs(hist, xs, g, D)
    ensures var s := AllPassStored(hist, xs, g, D);
            && (forall t :: 0 <= t < |xs| ==> ys[t] == AllPassOut(xs[t], g, Ring.Lag(s, |hist| + t - D)))
            && (forall t :: 0 <= t < |xs| ==> s[|hist| + t] == AllPassIn(xs[t], g, Ring.Lag(s, |hist| + t - D)))
  {
    AllPassOutputsClosed(hist, xs, g, D);
    AllPassStoredRecurrence(hist, xs, g, D);
  }

  /** A two-slot diffusor with gain 0.5 maps 1, 2, 3 to 0.5, 1, 2.25. */
  lemma InputDiffusorTestVector(d: InputDiffusor, xs: seq<real>)
    requires d == NewInputDiffusor(2, 0.5) && xs == [1.0, 2.0, 3.0]
    ensures DiffuseStream(d, xs) == [0.5, 1.0, 2.25]
  {
    assert Ring.EffectiveDelay(d.line.delay, |d.line.buffer|) == 2;
    HalfGainDiffusorVector(d, xs);
  }

  /** Any silent two-sample diffusor with gain 0.5 maps 1, 2, 3 to 0.5, 1, 2.25. */
  lemma HalfGainDiffusorVector(d: InputDiffusor, xs: seq<real>)
    requires LineValid(d.line) && AllZero(d.line.buffer) && d.line.writeIndex == 0
    requires d.gain == 0.5 && Ring.EffectiveDelay(d.line.delay, |d.line.buffer|) == 2
    requires xs == [1.0, 2.0, 3.0]
    ensures DiffuseStream(d, xs) == [0.5, 1.0, 2.25]
  {
    SilentDiffusorIsAllPass(d, xs);
    AllPassTestVector([], xs);
  }

  /** The reference all-pass with gain 0.5 and delay 2 maps 1, 2, 3 to
      0.5, 1, 2.25, storing 1, 2, 2.5. */
  lemma AllPassTestVector(h: seq<real>, xs: seq<real>)
    requires h == [] && xs == [1.0, 2.0, 3.0]
    ensures AllPassOutputs(h, xs, 0.5, 2) == [0.5, 1.0, 2.25]
  {
    var h1 := h + [AllPassIn(xs[0], 0.5, Ring.Lag(h, |h| - 2))];
    assert AllPassOut(xs[0], 0.5, Ring.Lag(h, |h| - 2)) == 0.5;
    AllPassTestVectorTail(h1, xs[1..]);
  }

  /** The last two samples of the test vector, after 1 has been stored. */
  lemma AllPassTestVectorTail(h1: seq<real>, xs: seq<real>)
    requires h1 == [1.0] && xs == [2.0, 3.0]
    ensures AllPassOutputs(h1, xs, 0.5, 2) == [1.0, 2.25]
  {
    var h2 := h1 + [AllPassIn(xs[0], 0.5, Ring.Lag(h1, |h1| - 2))];
    assert AllPassOut(xs[0], 0.5, Ring.Lag(h1, |h1| - 2)) == 1.0;
    AllPassTestVectorLast(h2, xs[1..]);
  }

  /** The last sample of the test vector, after 1 and 2 have been stored. */
  lemma AllPassTestVectorLast(h2: seq<real>, xs: seq<real>)
    requires h2 == [1.0, 2.0] && xs == [3.0]
    ensures AllPassOutputs(h2, xs, 0.5, 2) == [2.25]
  {
    assert AllPassOut(xs[0], 0.5, Ring.Lag(h2, |h2| - 2)) == 2.25;
    assert AllPassOutputs(h2 + [AllPassIn(xs[0], 0.5, 1.0)], xs[1..], 0.5, 2) == [];
  }

  /** A silent diffusor fed silence outputs silence and stays silent. */
  lemma DiffuseInputSilent(d: InputDiffusor)
    requires LineValid(d.line) && AllZero(d.line.buffer)
    ensures DiffuseInput(d, 0.0).0 == 0.0 && AllZero(DiffuseInput(d, 0.0).1.line.buffer)
  {
    var l' := Insert(d.line, 0.0 - d.gain * 0.0);
    assert DiffuseInput(d, 0.0).1.line == l';
  }

  /** The slot under the write index, i.e. the oldest sample of the line. */
  function Tap(d: InputDiffusor): (r: real)
    requires LineValid(d.line)
    ensures d.line.delay % |d.line.buffer| == 0 ==> r == Get(d.line)
  {
    assert d.line.delay % |d.line.buffer| == 0 ==> GetWithDelay(d.line, 0) == Get(d.line) by {
      if d.line.delay % |d.line.buffer| == 0 {
        SlotOfMultiple(d.line, d.line.delay);
        SlotOfMultiple(d.line, 0);
      }
    }
    GetWithDelay(d.line, 0)
  }

  // ------------------------------------------------------------ DecayDiffusor

  /** The modulated all-pass of the tank: its read offset wanders by up to
      `excursionDepth` samples following a sine of the elapsed time. */
  datatype DecayDiffusor = DecayDiffusor(
    line: DelayLine,
    delay: nat,
    gain: real,
    sampleRate: real,
    excursion: real,
    excursionTick: real,
    excursionRate: real,
    excursionDepth: real)

  function NewDecayDiffusor(sampleRate: real, delay: nat, gain: real): (d: DecayDiffusor)
    ensures d.line == NewLine(delay + 16) && d.delay == delay && d.gain == gain
    ensures d.sampleRate == sampleRate && d.excursionDepth == 8.0 && d.excursionRate == 1.0
    ensures d.excursion == 0.0 && d.excursionTick == 0.0
  {
    DecayDiffusor(NewLine(delay + 16), delay, gain, sampleRate, 0.0, 0.0, 1.0, 8.0)
  }

  /** What the constructor establishes and no operation breaks: sixteen slots
      of head-room beyond the delay and an excursion depth of 8. */
  predicate DecayValid(d: DecayDiffusor)
  {
    && LineValid(d.line)
    && |d.line.buffer| == d.delay + 16
    && d.excursionDepth == 8.0
    && d.sampleRate != 0.0
  }

  /** The modulator's next excursion, `depth * sin(tick * rate)`: within
      [-depth, depth] whatever the sine's argument. */
  function NextExcursion(d: DecayDiffusor, sin: Sine): (e: real)
    ensures d.excursionDepth >= 0.0 ==> -d.excursionDepth <= e <= d.excursionDepth
  {
    var s := sin(d.excursionTick * d.excursionRate);
    assert d.excursionDepth >= 0.0 ==> -d.excursionDepth <= s * d.excursionDepth <= d.excursionDepth by {
      if d.excursionDepth >= 0.0 {
        assert (1.0 - s) * d.excursionDepth >= 0.0;
        assert (1.0 + s) * d.excursionDepth >= 0.0;
      }
    }
    s * d.excursionDepth
  }

  /** The modulator's clock advances by one sample period. */
  function NextTick(d: DecayDiffusor): real
    requires d.sampleRate != 0.0
  {
    d.excursionTick + 1.0 / d.sampleRate
  }

  /** The read offset for a given excursion: the delay plus the excursion
      rounded down, where a negative value saturates to 0 (a float-to-`usize`
      cast). */
  function ReadOffset(delay: nat, excursion: real): (r: nat)
    ensures delay <= r
    ensures excursion < 0.0 ==> r == delay
    ensures excursion >= 0.0 ==> r == delay + excursion.Floor
    ensures -8.0 <= excursion <= 8.0 ==> r <= delay + 8
  {
    delay + ToUsize(excursion.Floor as real)
  }

  /** The offset the next `DiffuseDecay` reads at. Because the excursion
      stays within [-8, 8], the offset stays within [delay, delay + 8] and
      never wraps past the line's sixteen slots of head-room. */
  function DecayReadOffset(d: DecayDiffusor, sin: Sine): (off: nat)
    requires DecayValid(d)
    ensures d.delay <= off <= d.delay + 8 && off < |d.line.buffer|
  {
    ReadOffset(d.delay, NextExcursion(d, sin))
  }

  /** The sample the next `DiffuseDecay` reads: the line at the modulated
      offset. */
  function DecayDelayed(d: DecayDiffusor, sin: Sine): real
    requires DecayValid(d)
  {
    GetWithDelay(d.line, DecayReadOffset(d, sin))
  }

  /** The decay diffusor's output, `delayed - g*(x + g*delayed)`: in closed
      form `(1 - g*g)*delayed - g*x`, the sign-flipped twin of the input
      diffusor's all-pass. */
  function DecayOutput(delayed: real, x: real, g: real): (y: real)
    ensures y == (1.0 - g * g) * delayed - g * x
  {
    delayed + (x + delayed * g) * g * -1.0
  }

  /** The decay diffusor's next state: the modulator advanced one tick and
      `x + g*delayed` stored at the write head. */
  function DecayNext(d: DecayDiffusor, x: real, sin: Sine): (r: DecayDiffusor)
    requires DecayValid(d)
    ensures DecayValid(r)
    ensures r == d.(line := r.line, excursion := NextExcursion(d, sin), excursionTick := NextTick(d))
    ensures r.line == Insert(d.line, x + DecayDelayed(d, sin) * d.gain)
  {
    var changed := x + DecayDelayed(d, sin) * d.gain;
    d.(line := Insert(d.line, changed), excursion := NextExcursion(d, sin), excursionTick := NextTick(d))
  }

  /** Advances the modulator, then stores `x + g*delayed` and returns
      `delayed - g*stored`, reading at the modulated offset. */
  function DiffuseDecay(d: DecayDiffusor, x: real, sin: Sine): (r: (real, DecayDiffusor))
    requires DecayValid(d)
    ensures r.0 == (1.0 - d.gain * d.gain) * DecayDelayed(d, sin) - d.gain * x
    ensures r.1 == DecayNext(d, x, sin) && DecayValid(r.1)
  {
    (DecayOutput(DecayDelayed(d, sin), x, d.gain), DecayNext(d, x, sin))
  }

  /** A silent decay diffusor fed silence outputs silence and stays silent,
      wherever the modulation puts its read offset. */
  lemma DiffuseDecaySilent(d: DecayDiffusor, sin: Sine)
    requires DecayValid(d) && AllZero(d.line.buffer)
    ensures DiffuseDecay(d, 0.0, sin).0 == 0.0 && AllZero(DiffuseDecay(d, 0.0, sin).1.line.buffer)
  {
    SilentReads(d.line);
    var delayed := DecayDelayed(d, sin);
    assert delayed == 0.0;
    assert DecayNext(d, 0.0, sin).line == Insert(d.line, 0.0) by {
      assert 0.0 + delayed * d.gain == 0.0;
    }
    InsertSilence(d.line);
    assert DecayOutput(delayed, 0.0, d.gain) == 0.0;
  }

  function SetDecaySampleRate(d: DecayDiffusor, sampleRate: real): (r: DecayDiffusor)
    ensures r == d.(sampleRate := sampleRate)
  {
    d.(sampleRate := sampleRate)
  }

  // ------------------------------------------------------------------- Damper

  /** A one-pole smoother remembering its last output. */
  datatype Damper = Damper(lastSample: real, damping: real)

  function NewDamper(damping: real): (d: Damper)
    ensures d.lastSample == 0.0 && d.damping == damping
  {
    Damper(0.0, damping)
  }

  /** Blends the input with the previous output and remembers the result. */
  function Damp(d: Damper, x: real): (r: (real, Damper))
    ensures r.0 == x * (1.0 - d.damping) + d.lastSample * d.damping
    ensures r.1 == d.(lastSample := r.0)
    ensures 0.0 <= d.damping <= 1.0 ==>
              (x <= r.0 <= d.lastSample || d.lastSample <= r.0 <= x)
  {
    var out := x * (1.0 - d.damping) + d.lastSample * d.damping;
    assert 0.0 <= d.damping <= 1.0 ==> (x <= out <= d.lastSample || d.lastSample <= out <= x) by {
      if 0.0 <= d.damping <= 1.0 {
        assert out - x == (d.lastSample - x) * d.damping;
        assert d.lastSample - out == (d.lastSample - x) * (1.0 - d.damping);
        if x <= d.lastSample {
          MulNonneg(d.lastSample - x, d.damping);
          MulNonneg(d.lastSample - x, 1.0 - d.damping);
        } else {
          MulNonneg(x - d.lastSample, d.damping);
          MulNonneg(x - d.lastSample, 1.0 - d.damping);
        }
      }
    }
    (out, d.(lastSample := out))
  }

  /** A damper with 0 <= damping <= 1 never leaves the range of its inputs. */
  lemma DampBounded(d: Damper, x: real, m: real)
    requires 0.0 <= d.damping <= 1.0 && Abs(x) <= m && Abs(d.lastSample) <= m
    ensures Abs(Damp(d, x).0) <= m && Abs(Damp(d, x).1.lastSample) <= m
  {
  }
}

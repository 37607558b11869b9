/**
  The level meter's envelope: a sliding-window mean of the rectified input
  (the smoother), followed by a peak detector that jumps up to any louder
  value, holds it for `hold` seconds, and then falls at `release` units per
  second.
 */
module PeakFollower {
  import opened Numeric
  import Ring

  function Sum(s: seq<real>): real
  {
    if |s| == 0 then 0.0 else s[0] + Sum(s[1..])
  }

  lemma {:induction false} SumSnoc(s: seq<real>, x: real)
    ensures Sum(s + [x]) == Sum(s) + x
  {
    if |s| > 0 {
      assert (s + [x])[1..] == s[1..] + [x];
      SumSnoc(s[1..], x);
    }
  }

  lemma {:induction false} SumBounds(s: seq<real>, m: real)
    requires forall i :: 0 <= i < |s| ==> 0.0 <= s[i] <= m
    ensures 0.0 <= Sum(s) <= |s| as real * m
  {
    if |s| > 0 {
      SumBounds(s[1..], m);
    }
  }

  function Mean(s: seq<real>): real
    requires |s| > 0
  {
    Sum(s) / |s| as real
  }

  // ------------------------------------------------------------------ smoother

  datatype PeakSmoother = PeakSmoother(buffer: seq<real>)

  function NewSmoother(size: nat): (s: PeakSmoother)
    ensures |s.buffer| == size && AllZero(s.buffer)
  {
    PeakSmoother(Zeros(size))
  }

  /** Drops the oldest value, appends `x`, and returns the mean of the
      window. An empty window cannot drop anything, so the size must be
      positive. The mean is the previous window's sum, less the dropped
      value, plus the new one, over the (unchanged) window length. */
  function Smooth(s: PeakSmoother, x: real): (r: (real, PeakSmoother))
    requires |s.buffer| > 0
    ensures |r.1.buffer| == |s.buffer|
    ensures r.1.buffer[|s.buffer| - 1] == x
    ensures forall i :: 0 <= i < |s.buffer| - 1 ==> r.1.buffer[i] == s.buffer[i + 1]
    ensures r.0 == (Sum(s.buffer) - s.buffer[0] + x) / |s.buffer| as real
  {
    var buffer := s.buffer[1..] + [x];
    SumSnoc(s.buffer[1..], x);
    (Mean(buffer), PeakSmoother(buffer))
  }

  /** The last `n` inputs, oldest first, with silence before the first. */
  function Window(xs: seq<real>, n: nat): (w: seq<real>)
    ensures |w| == n
    ensures forall i :: 0 <= i < n ==> w[i] == Ring.Lag(xs, |xs| - n + i)
  {
    seq(n, i => Ring.Lag(xs, |xs| - n + i))
  }

  /** The smoother fed a block of inputs, one after another. */
  function Feed(s: PeakSmoother, xs: seq<real>): (r: (seq<real>, PeakSmoother))
    requires |s.buffer| > 0
    ensures |r.0| == |xs| && |r.1.buffer| == |s.buffer|
    decreases |xs|
  {
    if |xs| == 0 then ([], s)
    else
      var (ys, s1) := Feed(s, xs[..|xs| - 1]);
      var (y, s2) := Smooth(s1, xs[|xs| - 1]);
      (ys + [y], s2)
  }

  /** A smoother holding the last `n` inputs holds the last `n` inputs
      again after one more. */
  lemma SmoothSlidesWindow(s: PeakSmoother, xs: seq<real>, x: real)
    requires |s.buffer| > 0 && s.buffer == Window(xs, |s.buffer|)
    ensures Smooth(s, x).1.buffer == Window(xs + [x], |s.buffer|)
  {
    var n, b := |s.buffer|, Smooth(s, x).1.buffer;
    forall i | 0 <= i < n ensures b[i] == Window(xs + [x], n)[i] {
      if i < n - 1 {
        assert b[i] == Ring.Lag(xs, |xs| - n + i + 1);
      }
    }
  }

  /** A fresh smoother of size `n` holds the last `n` inputs, with zeros
      before there were enough. */
  lemma {:induction false} SmootherHoldsWindow(n: nat, xs: seq<real>)
    requires n > 0
    ensures Feed(NewSmoother(n), xs).1.buffer == Window(xs, n)
    decreases |xs|
  {
    if |xs| == 0 {
      assert Window(xs, n) == NewSmoother(n).buffer;
    } else {
      var xs0 := xs[..|xs| - 1];
      SmootherHoldsWindow(n, xs0);
      var s1 := Feed(NewSmoother(n), xs0).1;
      assert xs0 + [xs[|xs| - 1]] == xs;
      SmoothSlidesWindow(s1, xs0, xs[|xs| - 1]);
    }
  }

  /** The output of a fresh smoother of size `n` at each sample is the mean
      of the last `n` inputs up to and including that sample. */
  lemma {:induction false} SmootherIsWindowMean(n: nat, xs: seq<real>)
    requires n > 0
    ensures forall t :: 0 <= t < |xs| ==> Feed(NewSmoother(n), xs).0[t] == Mean(Window(xs[..t + 1], n))
    decreases |xs|
  {
    if |xs| > 0 {
      var xs0 := xs[..|xs| - 1];
      SmootherIsWindowMean(n, xs0);
      SmootherHoldsWindow(n, xs);
      var ys := Feed(NewSmoother(n), xs0).0;
      var out := Feed(NewSmoother(n), xs);
      assert out.0 == ys + [Mean(out.1.buffer)];
      assert xs[..|xs|] == xs;
      forall t | 0 <= t < |xs| - 1
        ensures out.0[t] == Mean(Window(xs[..t + 1], n))
      {
        assert xs[..t + 1] == xs0[..t + 1];
      }
    }
  }

  /** Rectified inputs no larger than `m` give a smoothed value between 0 and
      `m`. */
  lemma SmoothBounded(s: PeakSmoother, x: real, m: real)
    requires |s.buffer| > 0
    requires forall i :: 0 <= i < |s.buffer| ==> 0.0 <= s.buffer[i] <= m
    requires 0.0 <= x <= m
    ensures 0.0 <= Smooth(s, x).0 <= m
  {
    var (y, s1) := Smooth(s, x);
    var n := |s1.buffer| as real;
    SumBounds(s1.buffer, m);
    assert y == Sum(s1.buffer) / n;
    DivideBound(Sum(s1.buffer), n, m);
  }

  lemma DivideBound(a: real, n: real, m: real)
    requires n > 0.0 && 0.0 <= a <= n * m
    ensures 0.0 <= a / n <= m
  {
    assert a / n <= (n * m) / n;
  }

  /** Every value in the window is a rectified (non-negative) level. */
  predicate Rectified(s: PeakSmoother)
  {
    forall i :: 0 <= i < |s.buffer| ==> s.buffer[i] >= 0.0
  }

  lemma {:induction false} SumNonneg(s: seq<real>)
    requires forall i :: 0 <= i < |s| ==> s[i] >= 0.0
    ensures Sum(s) >= 0.0
  {
    if |s| > 0 {
      SumNonneg(s[1..]);
    }
  }

  /** Fed rectified values, the smoother stays rectified and its output is
      non-negative. */
  lemma SmoothRectified(s: PeakSmoother, x: real)
    requires |s.buffer| > 0 && Rectified(s) && x >= 0.0
    ensures Rectified(Smooth(s, x).1) && Smooth(s, x).0 >= 0.0
  {
    var (y, s1) := Smooth(s, x);
    SumNonneg(s1.buffer);
    assert y == Sum(s1.buffer) / |s1.buffer| as real;
  }

  // ------------------------------------------------------------ peak follower

  datatype Follower = Follower(
    release: real,
    peak: real,
    hold: real,
    holdCounter: real,
    sampleRate: real,
    smoother: PeakSmoother)

  function NewFollower(release: real, hold: real, sampleRate: real, smoothing: nat): (f: Follower)
    ensures f.peak == 0.0 && f.holdCounter == 0.0
    ensures f.release == release && f.hold == hold && f.sampleRate == sampleRate
    ensures |f.smoother.buffer| == smoothing && AllZero(f.smoother.buffer)
  {
    Follower(release, 0.0, hold, 0.0, sampleRate, NewSmoother(smoothing))
  }

  predicate CanProcess(f: Follower)
  {
    |f.smoother.buffer| > 0 && f.sampleRate != 0.0
  }

  /** The follower only ever puts rectified values into its smoother. */
  lemma ProcessKeepsRectified(f: Follower, x: real)
    requires CanProcess(f) && Rectified(f.smoother)
    ensures Rectified(Process(f, x).1.smoother) && Level(f, x) >= 0.0
  {
    SmoothRectified(f.smoother, Abs(x));
  }

  /** The smoothed, rectified input for one sample. */
  function Level(f: Follower, x: real): real
    requires CanProcess(f)
  {
    Smooth(f.smoother, Abs(x)).0
  }

  /** One sample: a level above the peak becomes the peak and restarts the
      hold; otherwise the hold counts down one sample period and, once it is
      negative, the peak falls by `release` per second. The new peak is
      returned. There is no floor at zero. */
  function Process(f: Follower, x: real): (r: (real, Follower))
    requires CanProcess(f)
    ensures CanProcess(r.1) && r.0 == r.1.peak
    ensures r.1 == f.(peak := r.1.peak, holdCounter := r.1.holdCounter, smoother := Smooth(f.smoother, Abs(x)).1)
    ensures Abs(Level(f, x)) > f.peak ==> r.1.peak == Level(f, x) && r.1.holdCounter == f.hold
    ensures Abs(Level(f, x)) <= f.peak ==> r.1.holdCounter == f.holdCounter - 1.0 / f.sampleRate
    ensures Abs(Level(f, x)) <= f.peak && r.1.holdCounter < 0.0 ==> r.1.peak == f.peak - f.release / f.sampleRate
    ensures Abs(Level(f, x)) <= f.peak && r.1.holdCounter >= 0.0 ==> r.1.peak == f.peak
  {
    var (level, smoother) := Smooth(f.smoother, Abs(x));
    var f1 := f.(smoother := smoother);
    var f2 :=
      if Abs(level) > f1.peak then f1.(peak := level, holdCounter := f1.hold)
      else
        var counter := f1.holdCounter - 1.0 / f1.sampleRate;
        if counter < 0.0 then f1.(holdCounter := counter, peak := f1.peak - f1.release / f1.sampleRate)
        else f1.(holdCounter := counter);
    (f2.peak, f2)
  }

  /** Only the sample rate changes. */
  function SetSampleRate(f: Follower, sampleRate: real): (r: Follower)
    ensures r.sampleRate == sampleRate
    ensures r.(sampleRate := f.sampleRate) == f
  {
    f.(sampleRate := sampleRate)
  }

  /** The peak never lags the level by more than one sample's release. */
  lemma PeakTracksLevel(f: Follower, x: real)
    requires CanProcess(f) && f.sampleRate > 0.0 && f.release >= 0.0
    ensures Process(f, x).0 >= Level(f, x) - f.release / f.sampleRate
  {
    assert f.release / f.sampleRate >= 0.0;
  }

  /** Nothing keeps the peak at or above zero: a fresh follower with release
      1, no hold, rate 1 and a one-sample window, fed silence, reports -1. */
  lemma NoLowerClamp(f: Follower, x: real)
    requires f == NewFollower(1.0, 0.0, 1.0, 1) && x == 0.0
    ensures Process(f, x).0 == -1.0
  {
    assert Level(f, x) == 0.0;
  }

  function Follow(f: Follower, xs: seq<real>): (r: (seq<real>, Follower))
    requires CanProcess(f)
    ensures |r.0| == |xs| && CanProcess(r.1)
    decreases |xs|
  {
    if |xs| == 0 then ([], f)
    else
      var (y, f1) := Process(f, xs[0]);
      var (ys, f2) := Follow(f1, xs[1..]);
      ([y] + ys, f2)
  }

  /** While the hold lasts (both the running counter and a freshly restarted
      one cover the block, one sample period per sample) the peak never
      falls: every output is at least the starting peak and at least the one
      before it. */
  lemma {:induction false} HoldNeverFalls(f: Follower, xs: seq<real>)
    requires CanProcess(f) && Rectified(f.smoother) && f.sampleRate > 0.0
    requires f.holdCounter >= |xs| as real * (1.0 / f.sampleRate)
    requires f.hold >= |xs| as real * (1.0 / f.sampleRate)
    ensures forall i :: 0 <= i < |xs| ==> f.peak <= Follow(f, xs).0[i]
    ensures forall i :: 0 <= i < |xs| - 1 ==> Follow(f, xs).0[i] <= Follow(f, xs).0[i + 1]
    decreases |xs|
  {
    if |xs| > 0 {
      var tick := 1.0 / f.sampleRate;
      var n := |xs| as real;
      assert tick > 0.0;
      var (y, f1) := Process(f, xs[0]);
      ProcessKeepsRectified(f, xs[0]);
      assert (n - 1.0) * tick == n * tick - tick;
      assert n * tick >= tick;
      assert f1.holdCounter >= (n - 1.0) * tick;
      assert f1.peak >= f.peak;
      assert |xs[1..]| as real == n - 1.0;
      HoldNeverFalls(f1, xs[1..]);
    }
  }
}

/**
  Properties of the delay engine over sequences of calls: the jump lists never
  change, which heads stay in bounds, and the unit tests' expected values.
 */
module DelayEngineFacts {
  import opened DelayEngine
  import Ring

  /** No public operation edits a jump list. */
  lemma {:induction false} RunKeepsJumps(e: Engine, ops: seq<Op>)
    requires Run(e, ops).Some?
    ensures Run(e, ops).value.readJumps == e.readJumps
    ensures Run(e, ops).value.writeJumps == e.writeJumps
    decreases |ops|
  {
    if |ops| > 0 {
      var e1 := Apply(e, ops[0]).value;
      RunKeepsJumps(e1, ops[1..]);
    }
  }

  /** Every state reachable from `New(size)` still holds the constructor's
      jump lists, whatever the buffer has been resized to. */
  lemma ReachableJumpsAreInitial(size: nat, ops: seq<Op>)
    requires Run(New(size), ops).Some?
    ensures Run(New(size), ops).value.readJumps == [Jump(size, 0)]
    ensures Run(New(size), ops).value.writeJumps == [Jump(size, 0)]
  {
    RunKeepsJumps(New(size), ops);
  }

  /** With the default jumps the read head never leaves the buffer. */
  lemma PopKeepsReadHeadInBounds(e: Engine)
    requires WrapJumps(e) && e.readHead < |e.buffer|
    ensures Pop(e).1.readHead < |e.buffer|
    ensures WrapJumps(Pop(e).1)
  {
  }

  /** With the default jumps the write jump never fires (it checks the index
      before advancing, and that index is below the trigger), so writing at
      the last slot leaves the write head AT the capacity, and another write
      without repositioning would be out of bounds. */
  lemma WriteAtLastSlotLeavesHeadAtCapacity(e: Engine, x: real, y: real)
    requires WrapJumps(e) && |e.buffer| > 0 && e.writeHead == |e.buffer| - 1
    ensures Write(e, x).writeHead == |e.buffer|
    ensures Apply(Write(e, x), WriteOp(y)).None?
  {
  }

  /** The read head stays below `trigger` as long as its only jump is
      (`trigger` -> 0) and the buffer holds at least `trigger` slots. */
  predicate ReadBounded(e: Engine, trigger: nat)
  {
    e.readJumps == [Jump(trigger, 0)] && e.readHead < trigger <= |e.buffer|
  }

  lemma PopKeepsReadBounded(e: Engine, trigger: nat)
    requires ReadBounded(e, trigger)
    ensures ReadBounded(Pop(e).1, trigger)
  {
  }

  /** Growing the buffer keeps the read head bounded by the old size, since
      the stale trigger is still within the new buffer. */
  lemma GrowKeepsReadBounded(e: Engine, trigger: nat, n: nat)
    requires ReadBounded(e, trigger) && n >= trigger
    ensures ReadBounded(SetBufferSize(e, n), trigger)
  {
  }

  /** Shrinking the buffer leaves the stale trigger out of reach: a capacity-10
      engine resized to 5 pops five times and then its read head sits at 5,
      so the next pop is out of bounds. */
  lemma ShrinkStrandsReadHead()
    ensures var r := Run(New(10), [SetSize(5), PopOp, PopOp, PopOp, PopOp, PopOp]);
            && r.Some? && r.value.readHead == 5 && |r.value.buffer| == 5
            && Apply(r.value, PopOp).None?
  {
    var e0 := SetBufferSize(New(10), 5);
    assert e0.readHead == 0 && e0.readJumps == [Jump(10, 0)];
    var e1 := Pop(e0).1;
    var e2 := Pop(e1).1;
    var e3 := Pop(e2).1;
    var e4 := Pop(e3).1;
    var e5 := Pop(e4).1;
    assert e5.readHead == 5;
  }

  /** Popping `k` samples, collecting them in order: the `i`-th is the slot
      `i` places past the read head, wrapping around the buffer. */
  function PopMany(e: Engine, k: nat): (r: (seq<real>, Engine))
    requires WrapJumps(e) && e.readHead < |e.buffer|
    ensures |r.0| == k && WrapJumps(r.1) && r.1.readHead < |r.1.buffer|
    ensures r.1.buffer == e.buffer
    ensures forall i :: 0 <= i < k ==> r.0[i] == e.buffer[(e.readHead + i) % |e.buffer|]
    ensures r.1.readHead == (e.readHead + k) % |e.buffer|
    decreases k
  {
    if k == 0 then
      Ring.ModUnique(e.readHead, 0, e.readHead, |e.buffer|);
      ([], e)
    else
      PopKeepsReadHeadInBounds(e);
      var (x, e1) := Pop(e);
      var (xs, e2) := PopMany(e1, k - 1);
      PopManyShift(e.buffer, e.readHead, e1.readHead, x, xs);
      Ring.ModAddLeft(e.readHead + 1, k - 1, |e.buffer|);
      ([x] + xs, e2)
  }

  /** The step of `PopMany`: prepending the sample under the head to the
      samples read from the next slot gives the samples read from the head. */
  lemma PopManyShift(b: seq<real>, h: nat, h1: nat, x: real, xs: seq<real>)
    requires h < |b| && h1 == (h + 1) % |b| && x == b[h]
    requires forall i :: 0 <= i < |xs| ==> xs[i] == b[(h1 + i) % |b|]
    ensures forall i :: 0 <= i < |xs| + 1 ==> ([x] + xs)[i] == b[(h + i) % |b|]
  {
    Ring.ModUnique(h, 0, h, |b|);
    forall i | 1 <= i < |xs| + 1 ensures ([x] + xs)[i] == b[(h + i) % |b|] {
      assert ([x] + xs)[i] == xs[i - 1];
      Ring.ModAddLeft(h + 1, i - 1, |b|);
    }
  }

  /** Writing a sequence of samples one after the other: they land in
      consecutive slots from the write head, and every other slot keeps its
      sample. */
  function WriteMany(e: Engine, xs: seq<real>): (r: Engine)
    requires WrapJumps(e) && e.writeHead + |xs| <= |e.buffer|
    ensures WrapJumps(r) && r.readHead == e.readHead
    ensures |r.buffer| == |e.buffer| && r.writeHead == e.writeHead + |xs|
    ensures forall i :: 0 <= i < |xs| ==> r.buffer[e.writeHead + i] == xs[i]
    ensures forall j :: 0 <= j < |e.buffer| && !(e.writeHead <= j < e.writeHead + |xs|) ==>
              r.buffer[j] == e.buffer[j]
    decreases |xs|
  {
    if |xs| == 0 then e
    else
      var e1 := Write(e, xs[0]);
      var r := WriteMany(e1, xs[1..]);
      assert forall i :: 1 <= i < |xs| ==> r.buffer[e.writeHead + i] == xs[i] by {
        forall i | 1 <= i < |xs| ensures r.buffer[e.writeHead + i] == xs[i] {
          assert e.writeHead + i == e1.writeHead + (i - 1);
          assert xs[1..][i - 1] == xs[i];
        }
      }
      r
  }

  /** First in, first out: samples written from the read head's slot come
      back, in order, from as many pops. */
  lemma {:induction false} WriteThenPop(e: Engine, xs: seq<real>)
    requires WrapJumps(e) && e.readHead == e.writeHead && e.writeHead + |xs| <= |e.buffer|
    requires e.readHead < |e.buffer|
    ensures PopMany(WriteMany(e, xs), |xs|).0 == xs
  {
    var w := WriteMany(e, xs);
    var out := PopMany(w, |xs|).0;
    forall i | 0 <= i < |xs| ensures out[i] == xs[i] {
      Ring.ModUnique(e.readHead + i, 0, e.readHead + i, |e.buffer|);
    }
  }

  /** Filling the whole buffer from slot 0 and popping once more than its
      capacity returns the samples and then wraps to the first again. */
  lemma FullBufferWraps(e: Engine, xs: seq<real>)
    requires WrapJumps(e) && e.readHead == 0 && e.writeHead == 0
    requires |xs| == |e.buffer| > 0
    ensures PopMany(WriteMany(e, xs), |xs| + 1).0 == xs + [xs[0]]
  {
    var n := |xs|;
    var w := WriteMany(e, xs);
    assert forall j :: 0 <= j < n ==> w.buffer[0 + j] == xs[j];
    WrappedReads(w.buffer, xs, PopMany(w, n + 1).0);
  }

  /** Reading `n + 1` slots from the start of a buffer holding exactly `xs`
      gives `xs` followed by its first value again. */
  lemma WrappedReads(b: seq<real>, xs: seq<real>, out: seq<real>)
    requires |b| == |xs| > 0 && |out| == |xs| + 1
    requires forall j :: 0 <= j < |xs| ==> b[0 + j] == xs[j]
    requires forall i :: 0 <= i < |xs| + 1 ==> out[i] == b[(0 + i) % |b|]
    ensures out == xs + [xs[0]]
  {
    var n := |xs|;
    forall i | 0 <= i < n + 1 ensures out[i] == (xs + [xs[0]])[i] {
      if i < n {
        Ring.ModUnique(i, 0, i, n);
      } else {
        Ring.ModUnique(n, 1, 0, n);
      }
    }
  }

  /** The unit test `check_sample_inout`: write 1..5 into a capacity-5 engine,
      then six pops give 1, 2, 3, 4, 5 and wrap to 1. */
  lemma CapacityFiveInOut()
    ensures PopMany(WriteMany(New(5), [1.0, 2.0, 3.0, 4.0, 5.0]), 6).0
            == [1.0, 2.0, 3.0, 4.0, 5.0, 1.0]
  {
    FullBufferWraps(New(5), [1.0, 2.0, 3.0, 4.0, 5.0]);
  }

  /** In the same test the write head ends at 5, the capacity. */
  lemma CapacityFiveWriteHead()
    ensures WriteMany(New(5), [1.0, 2.0, 3.0, 4.0, 5.0]).writeHead == 5
  {
  }

  /** The unit test `init`: a fresh engine first pops silence and holds
      44100 slots. */
  lemma FreshEnginePopsSilence()
    ensures Pop(New(44100)).0 == 0.0
    ensures |New(44100).buffer| == 44100
  {
  }
}

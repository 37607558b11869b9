/**
  The circular delay engine: one channel's sample buffer with independent
  read and write heads. Each head carries a list of jumps; a jump whose
  trigger equals a head's index relocates that head to the jump's target.
  The default list holds the single jump (capacity -> 0), i.e. wrap-around.

  The read head checks its jumps AFTER advancing, the write head BEFORE
  advancing. With the default jumps the read head therefore wraps, while the
  write head can land on the capacity itself.
 */
module DelayEngine {
  import opened Numeric
  import Ring

  /** A head relocation: a head arriving at `trigger` moves to `target`. */
  datatype Jump = Jump(trigger: nat, target: nat)

  datatype Engine = Engine(
    buffer: seq<real>,
    readJumps: seq<Jump>,
    writeJumps: seq<Jump>,
    writeHead: nat,
    readHead: nat)

  /** The plain wrap-around jump list for a buffer of `size` slots. */
  function WrapAround(size: nat): seq<Jump>
  {
    [Jump(size, 0)]
  }

  /** Both heads use the wrap-around jump at the buffer's current length. */
  predicate WrapJumps(e: Engine)
  {
    e.readJumps == WrapAround(|e.buffer|) && e.writeJumps == WrapAround(|e.buffer|)
  }

  function New(size: nat): (e: Engine)
    ensures |e.buffer| == size && AllZero(e.buffer)
    ensures e.readHead == 0 && e.writeHead == 0
    ensures e.readJumps == [Jump(size, 0)] && e.writeJumps == [Jump(size, 0)]
  {
    Engine(Zeros(size), WrapAround(size), WrapAround(size), 0, 0)
  }

  /** `k` is the position of the first jump in `jumps` triggered by `index`. */
  predicate FirstTriggered(index: nat, jumps: seq<Jump>, k: nat)
  {
    && k < |jumps|
    && jumps[k].trigger == index
    && forall m :: 0 <= m < k ==> jumps[m].trigger != index
  }

  /** At most one position is the first triggered one. */
  lemma FirstTriggeredUnique(index: nat, jumps: seq<Jump>, k1: nat, k2: nat)
    requires FirstTriggered(index, jumps, k1) && FirstTriggered(index, jumps, k2)
    ensures k1 == k2
  {
    assert !(k1 < k2) by { assert jumps[k1].trigger == index; }
    assert !(k2 < k1) by { assert jumps[k2].trigger == index; }
  }

  /** The first jump in list order whose trigger equals `index`, if any. */
  function CheckJumps(index: nat, jumps: seq<Jump>): (r: Option<Jump>)
    ensures r.None? <==> forall k :: 0 <= k < |jumps| ==> jumps[k].trigger != index
    ensures r.Some? ==> exists k: nat :: FirstTriggered(index, jumps, k) && jumps[k] == r.value
    decreases |jumps|
  {
    if |jumps| == 0 then None
    else if jumps[0].trigger == index then
      assert FirstTriggered(index, jumps, 0);
      Some(jumps[0])
    else
      var r := CheckJumps(index, jumps[1..]);
      if r.Some? then
        var k: nat :| FirstTriggered(index, jumps[1..], k) && jumps[1..][k] == r.value;
        assert FirstTriggered(index, jumps, k + 1);
        r
      else
        r
  }

  /** Where a head at `index` ends up once its jump list has been consulted. */
  function Relocate(index: nat, jumps: seq<Jump>): (r: nat)
    ensures r == index || exists k :: 0 <= k < |jumps| && jumps[k].trigger == index && jumps[k].target == r
    ensures jumps == [Jump(index, 0)] ==> r == 0
    ensures (forall k :: 0 <= k < |jumps| ==> jumps[k].trigger != index) ==> r == index
    ensures forall k: nat :: FirstTriggered(index, jumps, k) ==> r == jumps[k].target
  {
    match CheckJumps(index, jumps)
    case Some(j) =>
      assert forall k: nat :: FirstTriggered(index, jumps, k) ==> jumps[k] == j by {
        var m: nat :| FirstTriggered(index, jumps, m) && jumps[m] == j;
        forall k: nat | FirstTriggered(index, jumps, k) ensures jumps[k] == j {
          FirstTriggeredUnique(index, jumps, k, m);
        }
      }
      j.target
    case None => index
  }

  /** Reads the sample under the read head, then advances the head by one and
      lets the read jumps relocate the advanced index. */
  function Pop(e: Engine): (r: (real, Engine))
    requires e.readHead < |e.buffer|
    ensures r.0 == e.buffer[e.readHead]
    ensures r.1 == e.(readHead := Relocate(e.readHead + 1, e.readJumps))
    ensures e.readJumps == WrapAround(|e.buffer|) ==> r.1.readHead == (e.readHead + 1) % |e.buffer|
  {
    var advanced := e.readHead + 1;
    assert advanced < |e.buffer| ==> advanced % |e.buffer| == advanced by {
      if advanced < |e.buffer| { Ring.ModUnique(advanced, 0, advanced, |e.buffer|); }
    }
    assert advanced == |e.buffer| ==> advanced % |e.buffer| == 0 by {
      if advanced == |e.buffer| { Ring.ModUnique(advanced, 1, 0, |e.buffer|); }
    }
    (e.buffer[e.readHead], e.(readHead := Relocate(advanced, e.readJumps)))
  }

  /** Stores a sample under the write head, lets the write jumps relocate the
      CURRENT index, and only then advances by one. */
  function Write(e: Engine, x: real): (r: Engine)
    requires e.writeHead < |e.buffer|
    ensures |r.buffer| == |e.buffer| && r.buffer[e.writeHead] == x
    ensures forall i :: 0 <= i < |e.buffer| && i != e.writeHead ==> r.buffer[i] == e.buffer[i]
    ensures r.readHead == e.readHead && r.readJumps == e.readJumps && r.writeJumps == e.writeJumps
    ensures r.writeHead == Relocate(e.writeHead, e.writeJumps) + 1
    ensures e.writeJumps == WrapAround(|e.buffer|) ==> r.writeHead == e.writeHead + 1
  {
    Engine(e.buffer[e.writeHead := x], e.readJumps, e.writeJumps,
           Relocate(e.writeHead, e.writeJumps) + 1, e.readHead)
  }

  /** Places the write head `d` slots ahead of the read head, modulo the
      capacity; the rest of the engine is untouched. */
  function SetDelayAmount(e: Engine, d: nat): (r: Engine)
    requires |e.buffer| > 0
    ensures r.writeHead < |r.buffer|
    ensures (r.writeHead - e.readHead - d) % |e.buffer| == 0
    ensures r == e.(writeHead := r.writeHead)
  {
    var w := (e.readHead + d) % |e.buffer|;
    Ring.DivMod(e.readHead + d, |e.buffer|);
    Ring.ModUnique(w - e.readHead - d, -((e.readHead + d) / |e.buffer|), 0, |e.buffer|);
    e.(writeHead := w)
  }

  /** Replaces the buffer by `n` zeros and reduces both heads modulo `n`; the
      jump lists keep their old triggers. */
  function SetBufferSize(e: Engine, n: nat): (r: Engine)
    requires n > 0
    ensures |r.buffer| == n && AllZero(r.buffer)
    ensures r.readHead < n && r.writeHead < n
    ensures e.readHead < n ==> r.readHead == e.readHead
    ensures e.writeHead < n ==> r.writeHead == e.writeHead
    ensures r.readHead == e.readHead % n && r.writeHead == e.writeHead % n
    ensures r.readJumps == e.readJumps && r.writeJumps == e.writeJumps
  {
    assert e.readHead < n ==> e.readHead % n == e.readHead by {
      if e.readHead < n { Ring.ModUnique(e.readHead, 0, e.readHead, n); }
    }
    assert e.writeHead < n ==> e.writeHead % n == e.writeHead by {
      if e.writeHead < n { Ring.ModUnique(e.writeHead, 0, e.writeHead, n); }
    }
    Engine(Zeros(n), e.readJumps, e.writeJumps, e.writeHead % n, e.readHead % n)
  }

  /** The engine's public operations, for reasoning about call sequences. */
  datatype Op = PopOp | WriteOp(sample: real) | SetDelay(d: nat) | SetSize(n: nat)

  /** One public call; `None` where the source would panic (an index out of
      bounds or a remainder by zero). */
  function Apply(e: Engine, op: Op): (r: Option<Engine>)
    ensures r.Some? ==> r.value.readJumps == e.readJumps && r.value.writeJumps == e.writeJumps
    ensures r.None? <==> match op
      case PopOp => e.readHead >= |e.buffer|
      case WriteOp(_) => e.writeHead >= |e.buffer|
      case SetDelay(_) => |e.buffer| == 0
      case SetSize(n) => n == 0
  {
    match op
    case PopOp => if e.readHead < |e.buffer| then Some(Pop(e).1) else None
    case WriteOp(x) => if e.writeHead < |e.buffer| then Some(Write(e, x)) else None
    case SetDelay(d) => if |e.buffer| > 0 then Some(SetDelayAmount(e, d)) else None
    case SetSize(n) => if n > 0 then Some(SetBufferSize(e, n)) else None
  }

  /** A sequence of public calls, stopping at the first that would panic. */
  function Run(e: Engine, ops: seq<Op>): Option<Engine>
    decreases |ops|
  {
    if |ops| == 0 then Some(e)
    else match Apply(e, ops[0])
      case None => None
      case Some(e1) => Run(e1, ops[1..])
  }
}

/**
  The filter pipeline: an ordered list of registered elements, each a stereo
  pair of mono filters (or a mono filter, which the pipeline skips), through
  which a stereo sample is threaded. Filters are abstract: a state type `S`
  and a step `(S, real) -> (real, S)`. The filter instances live in a bank
  `seq<S>`, and an element names its filters by bank index, so two elements
  (or both sides of one) may share an instance exactly as two shared handles
  to one filter would.
 */
module Pipeline {
  datatype Element = Stereo(leftFilter: nat, rightFilter: nat) | Mono(filter: nat)

  datatype FilterPipeline = FilterPipeline(registered: seq<Element>, order: seq<nat>)

  /** One call of a filter's `process`: which instance, what went in, what
      came out. */
  datatype Call = Call(filter: nat, input: real, output: real)

  /** The result of threading one stereo sample through a list of elements. */
  datatype Outcome<S> = Outcome(left: real, right: real, bank: seq<S>, calls: seq<Call>)

  datatype Side = LeftSide | RightSide

  predicate ElementFits(e: Element, n: nat)
  {
    match e
    case Stereo(a, b) => a < n && b < n
    case Mono(f) => f < n
  }

  /** Every element names instances of a bank of `n` filters. */
  predicate Fits(es: seq<Element>, n: nat)
  {
    forall e :: e in es ==> ElementFits(e, n)
  }

  /** The order is the registration order and covers every element. */
  predicate Inv(p: FilterPipeline)
  {
    |p.order| == |p.registered| && forall i :: 0 <= i < |p.order| ==> p.order[i] == i
  }

  predicate WellFormed(p: FilterPipeline, n: nat)
  {
    (forall i :: 0 <= i < |p.order| ==> p.order[i] < |p.registered|) && Fits(p.registered, n)
  }

  function New(): (p: FilterPipeline)
    ensures Inv(p) && forall n: nat :: WellFormed(p, n)
    ensures |p.registered| == 0
  {
    FilterPipeline([], [])
  }

  /** Appends the pair and schedules it last. */
  function RegisterStereoPair(p: FilterPipeline, a: nat, b: nat): (q: FilterPipeline)
    ensures q.registered == p.registered + [Stereo(a, b)]
    ensures q.order == p.order + [|q.registered| - 1]
    ensures Inv(p) ==> Inv(q)
    ensures forall n: nat :: WellFormed(p, n) && a < n && b < n ==> WellFormed(q, n)
  {
    var registered := p.registered + [Stereo(a, b)];
    FilterPipeline(registered, p.order + [|registered| - 1])
  }

  /** The elements in the order they are visited. */
  function Slots(p: FilterPipeline): (es: seq<Element>)
    requires forall i :: 0 <= i < |p.order| ==> p.order[i] < |p.registered|
    ensures |es| == |p.order|
    ensures forall i :: 0 <= i < |es| ==> es[i] == p.registered[p.order[i]]
  {
    seq(|p.order|, i requires 0 <= i < |p.order| => p.registered[p.order[i]])
  }

  /** Threads `l` and `r` through the elements in turn: a stereo element runs
      its left filter on `l`, then its right filter on `r`; a mono element is
      skipped. */
  function Run<S>(es: seq<Element>, bank: seq<S>, step: (S, real) -> (real, S), l: real, r: real)
    : (o: Outcome<S>)
    requires Fits(es, |bank|)
    ensures |o.bank| == |bank|
    decreases |es|
  {
    if |es| == 0 then Outcome(l, r, bank, [])
    else
      assert es[0] in es;
      match es[0]
      case Mono(_) => Run(es[1..], bank, step, l, r)
      case Stereo(a, b) =>
        var (l1, sa) := step(bank[a], l);
        var bank1 := bank[a := sa];
        var (r1, sb) := step(bank1[b], r);
        var o := Run(es[1..], bank1[b := sb], step, l1, r1);
        o.(calls := [Call(a, l, l1), Call(b, r, r1)] + o.calls)
  }

  function ProcessStereo<S>(p: FilterPipeline, bank: seq<S>, step: (S, real) -> (real, S), l: real, r: real)
    : (o: Outcome<S>)
    requires WellFormed(p, |bank|)
    ensures |o.bank| == |bank|
  {
    var es := Slots(p);
    assert Fits(es, |bank|) by {
      forall e | e in es ensures ElementFits(e, |bank|) {
        var i :| 0 <= i < |es| && es[i] == e;
        assert p.registered[p.order[i]] in p.registered;
      }
    }
    Run(es, bank, step, l, r)
  }

  /** A new pipeline passes both channels through untouched and calls no
      filter. */
  lemma NewIsIdentity<S>(bank: seq<S>, step: (S, real) -> (real, S), l: real, r: real)
    ensures ProcessStereo(New(), bank, step, l, r) == Outcome(l, r, bank, [])
  {
  }

  /** Under the invariant, elements are visited in registration order. */
  lemma VisitsInRegistrationOrder(p: FilterPipeline)
    requires Inv(p)
    ensures Slots(p) == p.registered
  {
  }

  /** Threading a concatenation is threading the first part and then the
      second from where the first left off. */
  lemma {:induction false} RunAppend<S>(es1: seq<Element>, es2: seq<Element>, bank: seq<S>,
                                        step: (S, real) -> (real, S), l: real, r: real)
    requires Fits(es1 + es2, |bank|)
    ensures Fits(es1, |bank|) && Fits(es2, |bank|)
    ensures var o1 := Run(es1, bank, step, l, r);
            var o2 := Run(es2, o1.bank, step, o1.left, o1.right);
            Run(es1 + es2, bank, step, l, r) == o2.(calls := o1.calls + o2.calls)
    decreases |es1|
  {
    assert forall e :: e in es1 ==> e in es1 + es2;
    assert forall e :: e in es2 ==> e in es1 + es2;
    if |es1| > 0 {
      assert (es1 + es2)[1..] == es1[1..] + es2;
      assert es1[0] in es1;
      match es1[0]
      case Mono(_) =>
        RunAppend(es1[1..], es2, bank, step, l, r);
      case Stereo(a, b) =>
        var (l1, sa) := step(bank[a], l);
        var bank1 := bank[a := sa];
        var (r1, sb) := step(bank1[b], r);
        RunAppend(es1[1..], es2, bank1[b := sb], step, l1, r1);
    } else {
      assert es1 + es2 == es2;
    }
  }

  /** Registering a pair and processing is processing as before, then running
      the new pair on the result. */
  lemma RegisterRunsLast<S>(p: FilterPipeline, a: nat, b: nat, bank: seq<S>,
                            step: (S, real) -> (real, S), l: real, r: real)
    requires Inv(p) && WellFormed(p, |bank|) && a < |bank| && b < |bank|
    ensures var o1 := ProcessStereo(p, bank, step, l, r);
            var o2 := Run([Stereo(a, b)], o1.bank, step, o1.left, o1.right);
            ProcessStereo(RegisterStereoPair(p, a, b), bank, step, l, r) == o2.(calls := o1.calls + o2.calls)
  {
    var q := RegisterStereoPair(p, a, b);
    VisitsInRegistrationOrder(p);
    VisitsInRegistrationOrder(q);
    RunAppend(p.registered, [Stereo(a, b)], bank, step, l, r);
  }

  /** The stereo elements, in order: exactly the stereo members of the list,
      none added; the order is kept, as `DropMonoAppend` and
      `DropMonoKeepsStereo` state. */
  function DropMono(es: seq<Element>): (ds: seq<Element>)
    ensures forall e :: e in ds <==> e in es && e.Stereo?
    ensures |ds| <= |es|
    ensures |ds| == |es| <==> forall i :: 0 <= i < |es| ==> es[i].Stereo?
  {
    if |es| == 0 then []
    else
      assert forall e :: e in es <==> e == es[0] || e in es[1..];
      if es[0].Mono? then DropMono(es[1..])
      else [es[0]] + DropMono(es[1..])
  }

  /** Dropping mono elements distributes over concatenation, so the stereo
      elements of a prefix come before those of the rest. */
  lemma {:induction false} DropMonoAppend(es1: seq<Element>, es2: seq<Element>)
    ensures DropMono(es1 + es2) == DropMono(es1) + DropMono(es2)
    decreases |es1|
  {
    if |es1| > 0 {
      assert (es1 + es2)[1..] == es1[1..] + es2;
      DropMonoAppend(es1[1..], es2);
    } else {
      assert es1 + es2 == es2;
    }
  }

  /** A list of stereo elements only is kept whole and in order; a single
      mono element is dropped. */
  lemma DropMonoKeepsStereo(es: seq<Element>, m: nat)
    ensures (forall i :: 0 <= i < |es| ==> es[i].Stereo?) ==> DropMono(es) == es
    ensures DropMono([Mono(m)]) == []
  {
    if forall i :: 0 <= i < |es| ==> es[i].Stereo? {
      AllStereoKept(es);
    }
  }

  lemma {:induction false} AllStereoKept(es: seq<Element>)
    requires forall i :: 0 <= i < |es| ==> es[i].Stereo?
    ensures DropMono(es) == es
    decreases |es|
  {
    if |es| > 0 {
      AllStereoKept(es[1..]);
      assert [es[0]] + es[1..] == es;
    }
  }

  /** Mono elements change nothing: removing them all gives the same outputs,
      the same filter states and the same calls. */
  lemma {:induction false} MonoIsNoOp<S>(es: seq<Element>, bank: seq<S>, step: (S, real) -> (real, S),
                                         l: real, r: real)
    requires Fits(es, |bank|)
    ensures Fits(DropMono(es), |bank|)
    ensures Run(DropMono(es), bank, step, l, r) == Run(es, bank, step, l, r)
    decreases |es|
  {
    if |es| > 0 {
      assert es[0] in es;
      match es[0]
      case Mono(_) =>
        MonoIsNoOp(es[1..], bank, step, l, r);
      case Stereo(a, b) =>
        var (l1, sa) := step(bank[a], l);
        var bank1 := bank[a := sa];
        var (r1, sb) := step(bank1[b], r);
        MonoIsNoOp(es[1..], bank1[b := sb], step, l1, r1);
        assert DropMono(es)[1..] == DropMono(es[1..]);
    }
  }

  /** The calls come in pairs, one pair per stereo element in order: its left
      filter, then its right filter. */
  lemma {:induction false} CallsPairUp<S>(es: seq<Element>, bank: seq<S>,
                                          step: (S, real) -> (real, S), l: real, r: real)
    requires Fits(es, |bank|)
    ensures |Run(es, bank, step, l, r).calls| == 2 * |DropMono(es)|
    ensures forall k :: 0 <= k < |DropMono(es)| ==>
              && Run(es, bank, step, l, r).calls[2 * k].filter == DropMono(es)[k].leftFilter
              && Run(es, bank, step, l, r).calls[2 * k + 1].filter == DropMono(es)[k].rightFilter
    decreases |es|
  {
    if |es| > 0 {
      assert es[0] in es;
      match es[0]
      case Mono(_) =>
        CallsPairUp(es[1..], bank, step, l, r);
      case Stereo(a, b) =>
        var (l1, sa) := step(bank[a], l);
        var bank1 := bank[a := sa];
        var (r1, sb) := step(bank1[b], r);
        var rest := Run(es[1..], bank1[b := sb], step, l1, r1);
        CallsPairUp(es[1..], bank1[b := sb], step, l1, r1);
        var o := Run(es, bank, step, l, r);
        var ds, ds' := DropMono(es), DropMono(es[1..]);
        assert ds == [es[0]] + ds';
        assert o.calls == [Call(a, l, l1), Call(b, r, r1)] + rest.calls;
        forall k | 1 <= k < |ds|
          ensures o.calls[2 * k].filter == ds[k].leftFilter
          ensures o.calls[2 * k + 1].filter == ds[k].rightFilter
        {
          assert o.calls[2 * k] == rest.calls[2 * (k - 1)];
          assert o.calls[2 * k + 1] == rest.calls[2 * (k - 1) + 1];
          assert ds[k] == ds'[k - 1];
        }
    }
  }

  /** The left value is threaded through the left calls: the first gets `l`,
      each next one gets the previous one's output, and the last one's output
      is the left result; likewise on the right. With no stereo element both
      values pass through. */
  lemma {:induction false} CallsThread<S>(es: seq<Element>, bank: seq<S>,
                                          step: (S, real) -> (real, S), l: real, r: real)
    requires Fits(es, |bank|)
    ensures var o := Run(es, bank, step, l, r);
            var n := |o.calls| / 2;
            && |o.calls| % 2 == 0
            && (n == 0 ==> o.left == l && o.right == r)
            && (n > 0 ==> o.calls[0].input == l && o.calls[1].input == r)
            && (n > 0 ==> o.left == o.calls[2 * n - 2].output && o.right == o.calls[2 * n - 1].output)
            && (forall k :: 0 <= k < n - 1 ==>
                  o.calls[2 * k + 2].input == o.calls[2 * k].output &&
                  o.calls[2 * k + 3].input == o.calls[2 * k + 1].output)
    decreases |es|
  {
    if |es| > 0 {
      assert es[0] in es;
      match es[0]
      case Mono(_) =>
        CallsThread(es[1..], bank, step, l, r);
      case Stereo(a, b) =>
        var (l1, sa) := step(bank[a], l);
        var bank1 := bank[a := sa];
        var (r1, sb) := step(bank1[b], r);
        var rest := Run(es[1..], bank1[b := sb], step, l1, r1);
        CallsThread(es[1..], bank1[b := sb], step, l1, r1);
        var o := Run(es, bank, step, l, r);
        assert o.calls == [Call(a, l, l1), Call(b, r, r1)] + rest.calls;
        assert o.left == rest.left && o.right == rest.right;
        var n, m := |o.calls| / 2, |rest.calls| / 2;
        assert n == m + 1;
        forall k | 0 <= k < n - 1
          ensures o.calls[2 * k + 2].input == o.calls[2 * k].output
          ensures o.calls[2 * k + 3].input == o.calls[2 * k + 1].output
        {
          assert o.calls[2 * k + 2] == rest.calls[2 * k];
          assert o.calls[2 * k + 3] == rest.calls[2 * k + 1];
          if k > 0 {
            assert o.calls[2 * k] == rest.calls[2 * (k - 1)];
            assert o.calls[2 * k + 1] == rest.calls[2 * (k - 1) + 1];
          }
        }
        if m > 0 {
          assert o.calls[2 * n - 2] == rest.calls[2 * m - 2];
          assert o.calls[2 * n - 1] == rest.calls[2 * m - 1];
        }
    }
  }

  // ------------------------------------------------------ channel separation

  /** The filter a stereo element runs on one side. */
  function Pick(e: Element, side: Side): nat
    requires e.Stereo?
  {
    if side == LeftSide then e.leftFilter else e.rightFilter
  }

  /** The instances a list of elements runs on one side. */
  function Ids(es: seq<Element>, side: Side): (ids: set<nat>)
    ensures forall i :: i in ids ==> exists e :: e in es && e.Stereo? && Pick(e, side) == i
  {
    if |es| == 0 then {}
    else
      assert forall e :: e in es[1..] ==> e in es;
      (if es[0].Stereo? then {Pick(es[0], side)} else {}) + Ids(es[1..], side)
  }

  /** Reference behaviour of one side alone: the side's filters, in element
      order, each fed the previous one's output. */
  function Chain<S>(es: seq<Element>, side: Side, bank: seq<S>, step: (S, real) -> (real, S), x: real)
    : (o: (real, seq<S>))
    requires Fits(es, |bank|)
    ensures |o.1| == |bank|
    decreases |es|
  {
    if |es| == 0 then (x, bank)
    else
      assert es[0] in es;
      if es[0].Mono? then Chain(es[1..], side, bank, step, x)
      else
        var i := Pick(es[0], side);
        var (y, s) := step(bank[i], x);
        Chain(es[1..], side, bank[i := s], step, y)
  }

  /** A side's chain depends only on the instances that side runs. */
  lemma {:induction false} ChainFrame<S>(es: seq<Element>, side: Side, b1: seq<S>, b2: seq<S>,
                                         step: (S, real) -> (real, S), x: real)
    requires |b1| == |b2| && Fits(es, |b1|)
    requires forall i :: i in Ids(es, side) ==> b1[i] == b2[i]
    ensures Chain(es, side, b1, step, x).0 == Chain(es, side, b2, step, x).0
    decreases |es|
  {
    if |es| > 0 {
      assert es[0] in es;
      if es[0].Mono? {
        ChainFrame(es[1..], side, b1, b2, step, x);
      } else {
        var i := Pick(es[0], side);
        var (y, s) := step(b1[i], x);
        ChainFrame(es[1..], side, b1[i := s], b2[i := s], step, y);
      }
    }
  }

  /** No instance is run on both sides. */
  predicate SidesDisjoint(es: seq<Element>)
  {
    Ids(es, LeftSide) !! Ids(es, RightSide)
  }

  /** When no instance serves both sides, each output of the pipeline is that
      side's chain alone: the left result is the left input through the left
      filters in order, whatever happens on the right, and vice versa. */
  lemma {:induction false} SidesAreChains<S>(es: seq<Element>, bank: seq<S>, step: (S, real) -> (real, S),
                                             l: real, r: real)
    requires Fits(es, |bank|) && SidesDisjoint(es)
    ensures Run(es, bank, step, l, r).left == Chain(es, LeftSide, bank, step, l).0
    ensures Run(es, bank, step, l, r).right == Chain(es, RightSide, bank, step, r).0
    decreases |es|
  {
    if |es| > 0 {
      assert es[0] in es;
      var rest := es[1..];
      assert Ids(rest, LeftSide) <= Ids(es, LeftSide) && Ids(rest, RightSide) <= Ids(es, RightSide);
      match es[0]
      case Mono(_) =>
        SidesAreChains(rest, bank, step, l, r);
      case Stereo(a, b) =>
        assert a in Ids(es, LeftSide) && b in Ids(es, RightSide);
        var (l1, sa) := step(bank[a], l);
        var bank1 := bank[a := sa];
        assert bank1[b] == bank[b];
        var (r1, sb) := step(bank1[b], r);
        var bank2 := bank1[b := sb];
        SidesAreChains(rest, bank2, step, l1, r1);
        ChainFrame(rest, LeftSide, bank2, bank[a := sa], step, l1);
        ChainFrame(rest, RightSide, bank2, bank[b := sb], step, r1);
    }
  }

  /** Channel independence: with no instance on both sides, the left output
      is fixed by the left input and the left instances' states; the right
      input and the right instances play no part. */
  lemma LeftIndependentOfRight<S>(es: seq<Element>, b1: seq<S>, b2: seq<S>, step: (S, real) -> (real, S),
                                  l: real, r1: real, r2: real)
    requires |b1| == |b2| && Fits(es, |b1|) && SidesDisjoint(es)
    requires forall i :: i in Ids(es, LeftSide) ==> b1[i] == b2[i]
    ensures Run(es, b1, step, l, r1).left == Run(es, b2, step, l, r2).left
  {
    SidesAreChains(es, b1, step, l, r1);
    SidesAreChains(es, b2, step, l, r2);
    ChainFrame(es, LeftSide, b1, b2, step, l);
  }

  lemma RightIndependentOfLeft<S>(es: seq<Element>, b1: seq<S>, b2: seq<S>, step: (S, real) -> (real, S),
                                  l1: real, l2: real, r: real)
    requires |b1| == |b2| && Fits(es, |b1|) && SidesDisjoint(es)
    requires forall i :: i in Ids(es, RightSide) ==> b1[i] == b2[i]
    ensures Run(es, b1, step, l1, r).right == Run(es, b2, step, l2, r).right
  {
    SidesAreChains(es, b1, step, l1, r);
    SidesAreChains(es, b2, step, l2, r);
    ChainFrame(es, RightSide, b1, b2, step, r);
  }
}

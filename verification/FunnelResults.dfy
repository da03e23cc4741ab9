/**
 What the funnel guarantees in every interleaving of any number of pushers with
 the one consumer.
 */
module FunnelResults {
  import opened FunnelModel
  import opened FunnelProof

  // ---------------------------------------------------------------- the schedule alone

  /** The arguments of the pushes that thread t began in this schedule, in program order. */
  function Begun(s: State, xs: seq<Action>, t: Tid): seq<nat> {
    if xs == [] then Calls(s.h, t)
    else
      var ys, x := xs[..|xs| - 1], xs[|xs| - 1];
      Begun(s, ys, t) + if x.PushBegin? && x.t == t && Enabled(Run(s, ys).m, x) then [x.v] else []
  }

  lemma {:induction false} RecordedCalls(s: State, xs: seq<Action>, t: Tid)
    ensures Calls(Run(s, xs).h, t) == Begun(s, xs, t)
  {
    if xs != [] { RecordedCalls(s, xs[..|xs| - 1], t); }
  }

  /** The values whose swaps were made by thread t, in order. */
  function By(values: seq<nat>, owner: seq<Tid>, t: Tid): seq<nat>
    requires |values| <= |owner|
  {
    if values == [] then []
    else
      var n := |values| - 1;
      By(values[..n], owner, t) + if owner[n] == t then [values[n]] else []
  }

  lemma {:induction false} ByExtend(values: seq<nat>, owner: seq<Tid>, u: Tid, t: Tid)
    requires |values| <= |owner|
    ensures By(values, owner + [u], t) == By(values, owner, t)
  {
    if values != [] { ByExtend(values[..|values| - 1], owner, u, t); }
  }

  lemma {:induction false} ByPrefix(values: seq<nat>, owner: seq<Tid>, n: nat, t: Tid)
    requires n <= |values| <= |owner|
    ensures By(values[..n], owner, t) <= By(values, owner, t)
    decreases |values|
  {
    if n == |values| {
      assert values[..n] == values;
    } else {
      ByPrefix(values[..|values| - 1], owner, n, t);
      assert values[..|values| - 1][..n] == values[..n];
    }
  }

  /** Thread t has begun a push that is still to swap its node in. */
  predicate Pending(pc: PushPc) {
    pc.HasNode? || pc.Cleared?
  }

  /** The values swapped in by thread t are the arguments of its pushes, save one that is still to be swapped in. */
  ghost predicate OrderedAt(s: State, t: Tid) {
    && |s.h.order| == |s.h.owner|
    && var done := By(s.h.order, s.h.owner, t);
       if Pending(Pc(s.m, t)) then Calls(s.h, t) == done + [Latest(s.h, t)] else Calls(s.h, t) == done
  }

  lemma StepOrdered(s: State, x: Action, t: Tid)
    requires OrderedAt(s, t)
    ensures OrderedAt(Step(s, x), t)
  {
    var s' := Step(s, x);
    if Enabled(s.m, x) && x.PushSwap? {
      assert s'.h.order[..|s.h.order|] == s.h.order;
      ByExtend(s.h.order, s.h.owner, x.t, t);
    }
  }

  lemma {:induction false} RunOrdered(a: Addr, xs: seq<Action>, t: Tid)
    ensures OrderedAt(Run(Init(a), xs), t)
  {
    hide OrderedAt, Step;
    if xs == [] {
      assert OrderedAt(Init(a), t) by { InitOrdered(a, t); }
    } else {
      RunOrdered(a, xs[..|xs| - 1], t);
      StepOrdered(Run(Init(a), xs[..|xs| - 1]), xs[|xs| - 1], t);
    }
  }

  lemma InitOrdered(a: Addr, t: Tid)
    ensures OrderedAt(Init(a), t)
  {
  }

  // ---------------------------------------------------------------- results

  /**
   Values are popped in the order of the tail swaps, each exactly once, and no access
   ever hits freed memory. The values popped that stem from one thread are the
   arguments of its pushes, in program order; the values swapped in by it lack at
   most the argument of the push it is in.
   */
  lemma PoppedIsPrefix(a: Addr, xs: seq<Action>, t: Tid)
    requires a != 0
    ensures var s := Run(Init(a), xs); s.h.popped <= s.h.order && |s.h.order| == |s.h.owner| && !s.m.fault
    ensures var s := Run(Init(a), xs);
      By(s.h.popped, s.h.owner, t) <= By(s.h.order, s.h.owner, t) <= Begun(Init(a), xs, t)
    ensures var s := Run(Init(a), xs);
      |Begun(Init(a), xs, t)| - |By(s.h.order, s.h.owner, t)| == if Pending(Pc(s.m, t)) then 1 else 0
  {
    InitInv(a);
    RunInv(Init(a), xs);
    RunOrdered(a, xs, t);
    RecordedCalls(Init(a), xs, t);
    var s := Run(Init(a), xs);
    hide Run, LinksOk, GapsOk, PrivateOk, HeapOk, By, Begun;
    assert s.h.popped == s.h.order[..|s.h.popped|];
    ByPrefix(s.h.order, s.h.owner, |s.h.popped|, t);
  }

  /** The queue that the funnel stands for: what was swapped in and not yet returned. */
  ghost function Queue(s: State): seq<nat>
    requires |s.h.popped| <= |s.h.order|
  {
    s.h.order[|s.h.popped|..]
  }

  /**
   The funnel refines an atomic queue: a tail swap appends the argument of the push, a
   finished pop removes the oldest value and returns it, and every other access leaves
   the queue as it is.
   */
  lemma RefinesQueue(a: Addr, xs: seq<Action>, x: Action)
    requires a != 0 && Enabled(Run(Init(a), xs).m, x)
    ensures var s, s' := Run(Init(a), xs), Step(Run(Init(a), xs), x);
      && |s.h.popped| <= |s.h.order| && |s'.h.popped| <= |s'.h.order|
      && (x.PushSwap? ==>
            Begun(Init(a), xs, x.t) != [] &&
            Queue(s') == Queue(s) + [Begun(Init(a), xs, x.t)[|Begun(Init(a), xs, x.t)| - 1]])
      && (x.PopFree? ==> Queue(s) != [] && s.m.pop.value == Queue(s)[0] && Queue(s') == Queue(s)[1..])
      && (!x.PushSwap? && !x.PopFree? ==> Queue(s') == Queue(s))
  {
    InitInv(a);
    RunInv(Init(a), xs);
    StepQueue(Run(Init(a), xs), x);
    if x.PushSwap? {
      RecordedCalls(Init(a), xs, x.t);
      RunOrdered(a, xs, x.t);
    }
    hide Run, Inv, By, Begun, Step;
  }

  lemma StepQueue(s: State, x: Action)
    requires Inv(s) && Enabled(s.m, x)
    ensures var s' := Step(s, x);
      && |s.h.popped| <= |s.h.order| && |s'.h.popped| <= |s'.h.order|
      && (x.PushSwap? ==> Queue(s') == Queue(s) + [Latest(s.h, x.t)])
      && (x.PopFree? ==> Queue(s) != [] && s.m.pop.value == Queue(s)[0] && Queue(s') == Queue(s)[1..])
      && (!x.PushSwap? && !x.PopFree? ==> Queue(s') == Queue(s))
  {
    PoppedWithin(s);
    if x.PopFree? { OldestHeld(s); }
    hide Inv, Effect;
  }

  lemma OldestHeld(s: State)
    requires Inv(s) && s.m.pop.HasValue?
    ensures |s.h.popped| < |s.h.order| && s.m.pop.value == s.h.order[|s.h.popped|] != 0
  {
    assert s.h.chain[0] == s.m.head;
  }

  lemma PoppedWithin(s: State)
    requires Inv(s)
    ensures s.h.popped <= s.h.order
  {
  }

  /** A pop that returns a value returns the oldest value not yet popped. */
  lemma PopReturnsOldest(a: Addr, xs: seq<Action>)
    requires a != 0 && Run(Init(a), xs).m.pop.HasValue?
    ensures var s := Run(Init(a), xs);
            |s.h.popped| < |s.h.order| && s.m.pop.value == s.h.order[|s.h.popped|] != 0
  {
    InitInv(a);
    RunInv(Init(a), xs);
    OldestHeld(Run(Init(a), xs));
  }

  /**
   When a pop reads NULL from head's next, either every value swapped in so far has
   been popped, or exactly one push has swapped out head's node and not linked it yet.
   */
  lemma NullPop(a: Addr, xs: seq<Action>)
    requires a != 0 && Run(Init(a), xs).m.pop.HasHead?
    ensures var s := Run(Init(a), xs);
      && s.m.head in s.m.heap && s.m.pop.head == s.m.head
      && (s.m.heap[s.m.head].next == 0 <==> s.h.popped == s.h.order || (exists t :: Waiting(s.m, t)))
    ensures var s := Run(Init(a), xs); forall t, u :: Waiting(s.m, t) && Waiting(s.m, u) ==> t == u
    ensures var s := Run(Init(a), xs); (exists t :: Waiting(s.m, t)) ==> s.h.popped != s.h.order
  {
    InitInv(a);
    RunInv(Init(a), xs);
    var s := Run(Init(a), xs);
    forall t | Waiting(s.m, t)
      ensures |s.h.owner| > s.h.base && s.h.owner[s.h.base] == t && |s.h.chain| >= 2 && s.m.heap[s.m.head].next == 0
    {
      WaitingIsFirst(s, t);
    }
    if |s.h.chain| >= 2 {
      assert LinkAt(s, 0);
      if s.m.heap[s.m.head].next == 0 { assert Waiting(s.m, s.h.owner[s.h.base]); }
    }
  }

  /** The push that has swapped out head's node and is still to store the link. */
  ghost predicate Waiting(m: Memory, t: Tid) {
    Pc(m, t).Swapped? && Pc(m, t).prev == m.head
  }

  lemma WaitingIsFirst(s: State, t: Tid)
    requires Inv(s) && Waiting(s.m, t)
    ensures t in s.h.ticket && s.h.ticket[t] == s.h.base < |s.h.owner| && s.h.owner[s.h.base] == t
    ensures |s.h.chain| >= 2 && s.m.heap[s.m.head].next == 0
  {
    assert GapAt(s, t);
  }

  /** When a pop frees the old head, no thread, no link and neither end of the queue refers to it any more. */
  lemma FreedIsUnreachable(a: Addr, xs: seq<Action>)
    requires a != 0 && Run(Init(a), xs).m.pop.HasValue?
    ensures var m := Run(Init(a), xs).m; var old_ := m.pop.head;
                                         && old_ in m.heap && m.tail != old_ && m.head != old_
                                         && (forall t :: Pc(m, t).Swapped? ==> Pc(m, t).prev != old_)
                                         && (forall t :: !Pc(m, t).Outside? ==> Pc(m, t).node != old_)
                                         && (forall b :: b in m.heap && b != old_ ==> m.heap[b].next != old_)
  {
    InitInv(a);
    RunInv(Init(a), xs);
    var s := Run(Init(a), xs);
    var old_ := s.m.pop.head;
    forall t | !Pc(s.m, t).Outside?
      ensures Pc(s.m, t).node != old_ && (Pc(s.m, t).Swapped? ==> Pc(s.m, t).prev != old_)
    {
      if Pc(s.m, t).Swapped? {
        assert GapAt(s, t);
      } else {
        assert Private(Pc(s.m, t), Pc(s.m, t).node);
      }
    }
    forall b | b in s.m.heap && b != old_ ensures s.m.heap[b].next != old_ {
      NextStaysInChain(s, b);
    }
  }

  lemma NextStaysInChain(s: State, b: Addr)
    requires Inv(s) && b in s.m.heap && !Detached(s.m.pop, b)
    ensures s.m.heap[b].next == 0 || s.m.heap[b].next in s.h.chain
  {
    if b in s.h.chain {
      var i :| 0 <= i < |s.h.chain| && s.h.chain[i] == b;
      if i < |s.h.chain| - 1 { assert LinkAt(s, i); }
    } else {
      var t :| Private(Pc(s.m, t), b);
    }
  }

  // ---------------------------------------------------------------- nobody waits

  /** A push ends after four accesses of its own thread, whatever the others do. */
  lemma PushNeverWaits(a: Addr, xs: seq<Action>, t: Tid, v: nat, node: Addr)
    requires a != 0
    ensures var s := Run(Init(a), xs); match Pc(s.m, t)
      case Outside => v != 0 && node != 0 && node !in s.m.heap ==>
          Pc(Step(s, PushBegin(t, v, node)).m, t) == HasNode(node)
      case HasNode(n) => Pc(Step(s, PushClear(t)).m, t) == Cleared(n)
      case Cleared(n) => Pc(Step(s, PushSwap(t)).m, t) == Swapped(n, s.m.tail)
      case Swapped(_, _) => Pc(Step(s, PushLink(t)).m, t) == Outside
  {
    InitInv(a);
    RunInv(Init(a), xs);
    PushMoves(Run(Init(a), xs), t, v, node);
  }

  lemma PushMoves(s: State, t: Tid, v: nat, node: Addr)
    requires Inv(s)
    ensures match Pc(s.m, t)
      case Outside => v != 0 && node != 0 && node !in s.m.heap ==>
          Pc(Step(s, PushBegin(t, v, node)).m, t) == HasNode(node)
      case HasNode(n) => Pc(Step(s, PushClear(t)).m, t) == Cleared(n)
      case Cleared(n) => Pc(Step(s, PushSwap(t)).m, t) == Swapped(n, s.m.tail)
      case Swapped(_, _) => Pc(Step(s, PushLink(t)).m, t) == Outside
  {
    if Pc(s.m, t).HasNode? { assert Private(Pc(s.m, t), s.m.push[t].node) && PrivateAt(s, t, s.m.push[t].node); }
    if Pc(s.m, t).Swapped? { assert GapAt(s, t); }
    hide LinksOk, GapsOk, PrivateOk, HeapOk, ValuesOk;
  }

  /** A pop ends after two accesses when it reads NULL, and after five otherwise, whatever the others do. */
  lemma PopNeverWaits(a: Addr, xs: seq<Action>)
    requires a != 0
    ensures var s := Run(Init(a), xs); s.m.head in s.m.heap && match s.m.pop
      case Idle => Step(s, PopReadHead).m.pop == HasHead(s.m.head)
      case HasHead(h) =>
        Step(s, PopReadNext).m.pop == if s.m.heap[s.m.head].next == 0 then Idle else HasNext(h, s.m.heap[s.m.head].next)
      case HasNext(h, n) => Step(s, PopSetHead).m.pop == Moved(h, n)
      case Moved(_, _) => Step(s, PopReadValue).m.pop.HasValue?
      case HasValue(_, _) => Step(s, PopFree).m.pop == Idle
  {
    InitInv(a);
    RunInv(Init(a), xs);
    PopMoves(Run(Init(a), xs));
  }

  lemma PopMoves(s: State)
    requires Inv(s)
    ensures s.m.head in s.m.heap && match s.m.pop
      case Idle => Step(s, PopReadHead).m.pop == HasHead(s.m.head)
      case HasHead(h) =>
        Step(s, PopReadNext).m.pop == if s.m.heap[s.m.head].next == 0 then Idle else HasNext(h, s.m.heap[s.m.head].next)
      case HasNext(h, n) => Step(s, PopSetHead).m.pop == Moved(h, n)
      case Moved(_, _) => Step(s, PopReadValue).m.pop.HasValue?
      case HasValue(_, _) => Step(s, PopFree).m.pop == Idle
  {
    hide LinksOk, GapsOk, PrivateOk, HeapOk, ValuesOk;
  }

  /** With nothing in a gap and a value waiting, the head is linked. */
  lemma HeadReady(s: State)
    requires Inv(s) && (s.m.pop.Idle? || s.m.pop.HasHead?) && |s.h.popped| < |s.h.order|
    requires forall t :: !Pc(s.m, t).Swapped?
    ensures s.m.head in s.m.heap && s.m.heap[s.m.head].next != 0
  {
    assert LinkAt(s, 0);
  }
}

/**
 hfunnel.c itself: the two functions as code on shared fields, and the schedule of
 accesses that each call stands for.
 */
module Funnel {
  import opened FunnelModel
  import opened FunnelProof

  /** The accesses of one hfunnel_push by thread t, with the node at address a. */
  function PushAccesses(t: Tid, v: nat, a: Addr): seq<Action> {
    [PushBegin(t, v, a), PushClear(t), PushSwap(t), PushLink(t)]
  }

  /** The accesses of one hfunnel_pop that finds a node, or of one that does not. */
  function PopAccesses(found: bool): seq<Action> {
    if found then [PopReadHead, PopReadNext, PopSetHead, PopReadValue, PopFree] else [PopReadHead, PopReadNext]
  }

  lemma RunSnoc(s: State, xs: seq<Action>, x: Action)
    ensures Run(s, xs + [x]) == Step(Run(s, xs), x)
  {
    assert (xs + [x])[..|xs|] == xs;
  }

  lemma RunTwo(s: State, w: Action, x: Action)
    ensures Run(s, [w, x]) == Step(Step(s, w), x)
  {
    RunSnoc(s, [], w);
    RunSnoc(s, [w], x);
    assert [] + [w] == [w] && [w] + [x] == [w, x];
  }

  lemma RunFour(s: State, w: Action, x: Action, y: Action, z: Action)
    ensures Run(s, [w, x, y, z]) == Step(Step(Step(Step(s, w), x), y), z)
  {
    RunTwo(s, w, x);
    RunSnoc(s, [w, x], y);
    RunSnoc(s, [w, x, y], z);
    assert [w, x] + [y] == [w, x, y] && [w, x, y] + [z] == [w, x, y, z];
  }

  /** One whole push, undisturbed. */
  lemma PushCall(s: State, t: Tid, v: nat, a: Addr) returns (s': State)
    requires Inv(s) && Pc(s.m, t) == Outside && v != 0 && a != 0 && a !in s.m.heap
    ensures s' == Run(s, PushAccesses(t, v, a))
    ensures s.m.tail in s.m.heap
    ensures s'.m == Memory(s.m.head, a, s.m.heap[a := Node(0, v)][s.m.tail := s.m.heap[s.m.tail].(next := a)],
                           s.m.push[t := Outside], s.m.pop, false)
    ensures s'.h.order == s.h.order + [v] && s'.h.popped == s.h.popped
  {
    hide Run, LinksOk, GapsOk, PrivateOk, ValuesOk, PopOk, HeapOk;
    RunFour(s, PushBegin(t, v, a), PushClear(t), PushSwap(t), PushLink(t));
    var s1 := Step(s, PushBegin(t, v, a));
    var s2 := Step(s1, PushClear(t));
    assert s2.m.heap == s.m.heap[a := Node(0, v)];
    var s3 := Step(s2, PushSwap(t));
    s' := Step(s3, PushLink(t));
    assert s'.m.push == s.m.push[t := Outside];
  }

  /** One whole pop that finds a node, undisturbed. */
  lemma PopCall(s: State) returns (s': State)
    requires Inv(s) && s.m.pop == Idle && s.m.head in s.m.heap && s.m.heap[s.m.head].next != 0
    ensures s' == Run(s, PopAccesses(true))
    ensures var next := s.m.heap[s.m.head].next;
            && next in s.m.heap
            && s'.m == Memory(next, s.m.tail, s.m.heap - {s.m.head}, s.m.push, Idle, false)
            && s'.h.order == s.h.order && s'.h.popped == s.h.popped + [s.m.heap[next].value]
            && |s.h.popped| < |s.h.order| && s.m.heap[next].value == s.h.order[|s.h.popped|] != 0
  {
    hide Run;
    RunFour(s, PopReadHead, PopReadNext, PopSetHead, PopReadValue);
    RunSnoc(s, [PopReadHead, PopReadNext, PopSetHead, PopReadValue], PopFree);
    assert PopAccesses(true) == [PopReadHead, PopReadNext, PopSetHead, PopReadValue] + [PopFree];
    HeadLinked(s);
    hide LinksOk, GapsOk, PrivateOk, HeapOk;
    var s1 := Step(s, PopReadHead);
    var s2 := Step(s1, PopReadNext);
    var s3 := Step(s2, PopSetHead);
    var s4 := Step(s3, PopReadValue);
    s' := Step(s4, PopFree);
  }

  /** With no push between its swap and its link and a value waiting, one undisturbed pop returns exactly that value. */
  lemma QuietPop(a: Addr, xs: seq<Action>)
    requires a != 0
    requires var s := Run(Init(a), xs); s.m.pop.Idle? && |s.h.popped| < |s.h.order| && forall t :: !Pc(s.m, t).Swapped?
    ensures var s := Run(Init(a), xs); var s' := Run(s, PopAccesses(true));
                                       s'.h.popped == s.h.popped + [s.h.order[|s.h.popped|]] && s'.m.pop.Idle?
  {
    InitInv(a);
    RunInv(Init(a), xs);
    var s := Run(Init(a), xs);
    assert LinkAt(s, 0);
    hide Run, LinksOk, GapsOk, PrivateOk, HeapOk, PopAccesses;
    var s' := PopCall(s);
  }

  /** One pop that reads NULL, undisturbed. */
  lemma PopNullCall(s: State) returns (s': State)
    requires Inv(s) && s.m.pop == Idle && s.m.head in s.m.heap && s.m.heap[s.m.head].next == 0
    ensures s' == Run(s, PopAccesses(false)) && s'.m == s.m && s'.h == s.h.(nulls := s.h.nulls + 1)
  {
    hide Run;
    RunTwo(s, PopReadHead, PopReadNext);
    s' := Step(Step(s, PopReadHead), PopReadNext);
  }

  class Funnel {
    var headPtr: Addr
    var tailPtr: Addr
    var nodes: map<Addr, Node>     // allocated nodes
    ghost var push: map<Tid, PushPc>
    ghost var pop: PopPc
    ghost var history: History

    ghost function Now(): State
      reads this
    {
      State(Memory(headPtr, tailPtr, nodes, push, pop, false), history)
    }

    /** hfunnel_new, with the stub node at address a. */
    constructor (a: Addr)
      requires a != 0
      ensures Now() == Init(a) && Inv(Now())
    {
      headPtr, tailPtr, nodes := a, a, map[a := Node(0, 0)];
      push, pop, history := map[], Idle, Init(a).h;
      new;
      InitInv(a);
    }

    /** hfunnel_push, run without interruption while other pushes may be suspended anywhere. */
    method Push(ghost t: Tid, value: nat, a: Addr)
      requires Inv(Now()) && Pc(Now().m, t) == Outside && value != 0 && a != 0 && a !in nodes
      modifies this
      ensures Inv(Now()) && Now() == Run(old(Now()), PushAccesses(t, value, a))
      ensures history.order == old(history.order) + [value] && history.popped == old(history.popped)
    {
      hide Inv, Run;
      ghost var s' := PushCall(Now(), t, value, a);
      RunInv(Now(), PushAccesses(t, value, a));
      nodes := nodes[a := Node(0, value)];
      nodes := nodes[a := nodes[a].(next := 0)];
      var prev := tailPtr;
      tailPtr := a;
      nodes := nodes[prev := nodes[prev].(next := a)];
      push, history := s'.m.push, s'.h;
      assert Now().m.heap == s'.m.heap;
    }

    /** hfunnel_pop, run without interruption while pushes may be suspended anywhere: NULL, or the oldest value. */
    method Pop() returns (value: nat)
      requires Inv(Now()) && pop == Idle
      modifies this
      ensures Inv(Now()) && pop == Idle && history.order == old(history.order)
      ensures Now() == Run(old(Now()), PopAccesses(value != 0))
      ensures value == 0 ==> history.popped == old(history.popped)
      ensures value != 0 ==> |old(history.popped)| < |history.order| && value == history.order[|old(history.popped)|]
      ensures value != 0 ==> history.popped == old(history.popped) + [value]
    {
      HeadAllocated(Now());
      hide Inv, Run;
      var head := headPtr;
      var next := nodes[head].next;
      if next != 0 {
        ghost var s' := PopCall(Now());
        RunInv(Now(), PopAccesses(true));
        headPtr := next;
        value := nodes[next].value;
        nodes := nodes - {head};
        pop, history := s'.m.pop, s'.h;
      } else {
        ghost var s' := PopNullCall(Now());
        RunInv(Now(), PopAccesses(false));
        value := 0;
        history := s'.h;
      }
    }
  }

  lemma HeadAllocated(s: State)
    requires Inv(s)
    ensures s.m.head in s.m.heap
  {
  }
}

/** Every access keeps the invariant of the funnel. */
module FunnelProof {
  import opened FunnelModel

  lemma InitInv(a: Addr)
    requires a != 0
    ensures Inv(Init(a))
  {
  }

  // ---------------------------------------------------------------- what an access leaves alone

  ghost predicate SameChain(s: State, s': State) {
    && s'.h.chain == s.h.chain && s'.h.owner == s.h.owner && s'.h.base == s.h.base
    && s'.h.ticket == s.h.ticket && s'.h.order == s.h.order
  }

  ghost predicate SameNexts(s: State, s': State)
    requires ChainOk(s) && ChainOk(s') && SameChain(s, s')
  {
    forall i :: 0 <= i < |s.h.chain| ==> s'.m.heap[s.h.chain[i]].next == s.m.heap[s.h.chain[i]].next
  }

  ghost predicate SameSwapped(s: State, s': State) {
    forall t {:trigger Pc(s.m, t)} {:trigger Pc(s'.m, t)} ::
      Pc(s.m, t).Swapped? || Pc(s'.m, t).Swapped? ==> Pc(s'.m, t) == Pc(s.m, t)
  }

  /** An access that changes neither the chain, nor a link in it, nor a push in flight keeps links and gaps. */
  lemma LinksFrame(s: State, s': State)
    requires ChainOk(s) && LinksOk(s) && GapsOk(s) && ChainOk(s') && SameChain(s, s') && SameNexts(s, s')
    requires SameSwapped(s, s')
    ensures LinksOk(s') && GapsOk(s')
  {
    forall i | 0 <= i < |s'.h.chain| - 1 ensures LinkAt(s', i) {
      assert LinkAt(s, i);
    }
    forall t | Pc(s'.m, t).Swapped? ensures GapAt(s', t) {
      assert GapAt(s, t);
    }
  }

  /** An access by the consumer leaves every push where it is. */
  lemma PrivateFrame(s: State, s': State)
    requires PrivateOk(s) && s'.m.push == s.m.push && s'.h.calls == s.h.calls
    requires forall t, a :: Private(Pc(s.m, t), a) ==>
      a in s'.m.heap && s'.m.heap[a] == s.m.heap[a] && a !in s'.h.chain && !Detached(s'.m.pop, a)
    ensures PrivateOk(s')
  {
    forall t, a | Private(Pc(s'.m, t), a) ensures PrivateAt(s', t, a) {
      assert Private(Pc(s.m, t), a) && PrivateAt(s, t, a);
      assert s'.m.heap[a] == s.m.heap[a];
    }
    forall t, u, a | Private(Pc(s'.m, t), a) && Private(Pc(s'.m, u), a) ensures t == u {
      assert Private(Pc(s.m, t), a) && Private(Pc(s.m, u), a);
    }
  }

  lemma HeapFrame(s: State, s': State)
    requires HeapOk(s) && s'.m.push == s.m.push && s'.m.heap.Keys <= s.m.heap.Keys
    requires forall a :: a in s.h.chain || Detached(s.m.pop, a) ==>
      a in s'.h.chain || Detached(s'.m.pop, a) || a !in s'.m.heap
    ensures HeapOk(s')
  {
    forall a | a in s'.m.heap ensures a in s'.h.chain || Detached(s'.m.pop, a) || exists t :: Private(Pc(s'.m, t), a) {
      if t :| Private(Pc(s.m, t), a) {
        assert Private(Pc(s'.m, t), a);
      }
    }
  }

  // ---------------------------------------------------------------- the consumer

  lemma PopReadHeadInv(s: State)
    requires Inv(s) && Enabled(s.m, PopReadHead)
    ensures Inv(Step(s, PopReadHead))
  {
    var s' := Step(s, PopReadHead);
    LinksFrame(s, s');
    PrivateFrame(s, s');
    HeapFrame(s, s');
  }

  lemma PopReadNextRest(s: State)
    requires Inv(s) && Enabled(s.m, PopReadNext)
    ensures var s' := Step(s, PopReadNext);
      ChainOk(s') && ValuesOk(s') && PopOk(s') && SameChain(s, s') && s'.m.heap == s.m.heap && s'.m.push == s.m.push
    ensures var s' := Step(s, PopReadNext); !s'.m.fault && s'.h.calls == s.h.calls
  {
    if s.m.heap[s.m.head].next != 0 { HeadLinked(s); }
    hide LinksOk, GapsOk, PrivateOk, HeapOk;
  }

  lemma PopReadNextInv(s: State)
    requires Inv(s) && Enabled(s.m, PopReadNext)
    ensures Inv(Step(s, PopReadNext))
  {
    hide LinksOk, GapsOk, PrivateOk, HeapOk, ValuesOk;
    var s' := Step(s, PopReadNext);
    PopReadNextRest(s);
    LinksFrame(s, s');
    PrivateFrame(s, s') by { PrivateFacts(s); }
    HeapFrame(s, s');
  }

  lemma PrivateFacts(s: State)
    requires PrivateOk(s)
    ensures forall t, a :: Private(Pc(s.m, t), a) ==> PrivateAt(s, t, a)
  {
  }

  /** A non-NULL link out of the head leads to the second node of the chain. */
  lemma HeadLinked(s: State)
    requires Inv(s) && s.m.heap[s.m.head].next != 0
    ensures |s.h.chain| >= 2 && s.m.heap[s.m.head].next == s.h.chain[1]
  {
    assert |s.h.chain| >= 2 ==> LinkAt(s, 0);
  }

  lemma PopSetHeadLinks(s: State)
    requires Inv(s) && Enabled(s.m, PopSetHead)
    ensures ChainOk(Step(s, PopSetHead)) && LinksOk(Step(s, PopSetHead))
  {
    hide GapsOk, PrivateOk, HeapOk, ValuesOk;
    var s' := Step(s, PopSetHead);
    forall i | 0 <= i < |s'.h.chain| - 1 ensures LinkAt(s', i) {
      assert LinkAt(s, i + 1);
    }
  }

  lemma PopSetHeadGaps(s: State)
    requires Inv(s) && Enabled(s.m, PopSetHead)
    ensures ChainOk(Step(s, PopSetHead)) && GapsOk(Step(s, PopSetHead))
  {
    var s' := Step(s, PopSetHead);
    forall t | Pc(s'.m, t).Swapped? ensures GapAt(s', t) {
      PopSetHeadGap(s, t);
    }
  }

  lemma PopSetHeadGap(s: State, t: Tid)
    requires Inv(s) && Enabled(s.m, PopSetHead) && Pc(s.m, t).Swapped?
    ensures ChainOk(Step(s, PopSetHead)) && GapAt(Step(s, PopSetHead), t)
  {
    hide LinksOk, PrivateOk, ValuesOk, HeapOk, GapsOk;
    var s' := Step(s, PopSetHead);
    assert GapAt(s, t) by { GapOf(s, t); }
    var i := s.h.ticket[t] - s.h.base;
    assert i != 0;
    assert s'.h.chain[i - 1] == s.h.chain[i] && s'.h.chain[i] == s.h.chain[i + 1];
  }

  lemma GapOf(s: State, t: Tid)
    requires Inv(s) && Pc(s.m, t).Swapped?
    ensures GapAt(s, t)
  {
  }

  lemma PopSetHeadRest(s: State)
    requires Inv(s) && Enabled(s.m, PopSetHead)
    ensures var s' := Step(s, PopSetHead); ChainOk(s') && ValuesOk(s') && PopOk(s') && !s'.m.fault && 0 !in s'.m.heap
  {
    hide LinksOk, PrivateOk, HeapOk, GapsOk;
  }

  lemma PopSetHeadInv(s: State)
    requires Inv(s) && Enabled(s.m, PopSetHead)
    ensures Inv(Step(s, PopSetHead))
  {
    hide LinksOk, HeapOk, GapsOk, ValuesOk;
    var s' := Step(s, PopSetHead);
    PopSetHeadLinks(s);
    PopSetHeadGaps(s);
    PopSetHeadRest(s);
    PrivateFrame(s, s');
    HeapFrame(s, s');
  }

  lemma PopReadValueInv(s: State)
    requires Inv(s) && Enabled(s.m, PopReadValue)
    ensures Inv(Step(s, PopReadValue))
  {
    var s' := Step(s, PopReadValue);
    LinksFrame(s, s');
    PrivateFrame(s, s');
    HeapFrame(s, s');
  }

  lemma PopFreeInv(s: State)
    requires Inv(s) && Enabled(s.m, PopFree)
    ensures Inv(Step(s, PopFree))
  {
    var s' := Step(s, PopFree);
    LinksFrame(s, s');
    PrivateFrame(s, s');
    HeapFrame(s, s');
    hide LinksOk, GapsOk, PrivateOk, HeapOk;
  }

  // ---------------------------------------------------------------- the producers

  lemma PushBeginHeap(s: State, t: Tid, v: nat, a: Addr)
    requires Inv(s) && Enabled(s.m, PushBegin(t, v, a))
    ensures HeapOk(Step(s, PushBegin(t, v, a)))
  {
    hide LinksOk, GapsOk, ValuesOk, PrivateOk;
    var s' := Step(s, PushBegin(t, v, a));
    forall b | b in s'.m.heap ensures b in s'.h.chain || Detached(s'.m.pop, b) || exists u :: Private(Pc(s'.m, u), b) {
      if b == a {
        assert Private(Pc(s'.m, t), a);
      } else if u :| Private(Pc(s.m, u), b) {
        assert Private(Pc(s'.m, u), b);
      }
    }
  }

  lemma PushBeginPrivate(s: State, t: Tid, v: nat, a: Addr)
    requires Inv(s) && Enabled(s.m, PushBegin(t, v, a))
    ensures PrivateOk(Step(s, PushBegin(t, v, a)))
  {
    hide LinksOk, GapsOk, ValuesOk, HeapOk;
    var s' := Step(s, PushBegin(t, v, a));
    assert Latest(s'.h, t) == v && forall u :: u != t ==> Latest(s'.h, u) == Latest(s.h, u);
    hide Latest;
    assert PrivateAt(s', t, a);
    forall u, b | Private(Pc(s'.m, u), b)
      ensures if u == t then b == a else Private(Pc(s.m, u), b) && PrivateAt(s', u, b)
    {
      if u != t { assert PrivateAt(s, u, b); }
    }
  }

  lemma PushBeginInv(s: State, t: Tid, v: nat, a: Addr)
    requires Inv(s) && Enabled(s.m, PushBegin(t, v, a))
    ensures Inv(Step(s, PushBegin(t, v, a)))
  {
    LinksFrame(s, Step(s, PushBegin(t, v, a)));
    PushBeginPrivate(s, t, v, a);
    PushBeginHeap(s, t, v, a);
  }

  lemma PushClearPrivate(s: State, t: Tid)
    requires Inv(s) && Enabled(s.m, PushClear(t))
    ensures PrivateOk(Step(s, PushClear(t))) && HeapOk(Step(s, PushClear(t)))
  {
    var s' := Step(s, PushClear(t));
    assert Private(Pc(s.m, t), s.m.push[t].node);
    assert forall u, b :: Private(Pc(s'.m, u), b) <==> Private(Pc(s.m, u), b);
  }

  lemma PushClearLinks(s: State, t: Tid)
    requires Inv(s) && Enabled(s.m, PushClear(t))
    ensures ChainOk(Step(s, PushClear(t))) && LinksOk(Step(s, PushClear(t))) && GapsOk(Step(s, PushClear(t)))
  {
    assert Private(Pc(s.m, t), s.m.push[t].node);
    hide HeapOk, ValuesOk;
    LinksFrame(s, Step(s, PushClear(t)));
  }

  lemma PushClearInv(s: State, t: Tid)
    requires Inv(s) && Enabled(s.m, PushClear(t))
    ensures Inv(Step(s, PushClear(t)))
  {
    assert Private(Pc(s.m, t), s.m.push[t].node);
    PushClearLinks(s, t);
    PushClearPrivate(s, t);
    hide LinksOk, GapsOk, HeapOk;
  }

  lemma PushSwapChain(s: State, t: Tid)
    requires Inv(s) && Enabled(s.m, PushSwap(t))
    ensures ChainOk(Step(s, PushSwap(t))) && LinksOk(Step(s, PushSwap(t)))
  {
    var s' := Step(s, PushSwap(t));
    assert Private(Pc(s.m, t), s.m.push[t].node);
    forall i | 0 <= i < |s'.h.chain| - 1 ensures LinkAt(s', i) {
      if i < |s.h.chain| - 1 { assert LinkAt(s, i); }
    }
  }

  lemma PushSwapGaps(s: State, t: Tid)
    requires Inv(s) && Enabled(s.m, PushSwap(t)) && ChainOk(Step(s, PushSwap(t)))
    ensures GapsOk(Step(s, PushSwap(t)))
  {
    hide HeapOk, ValuesOk;
    var s' := Step(s, PushSwap(t));
    forall u | Pc(s'.m, u).Swapped? ensures GapAt(s', u) {
      if u != t { assert GapAt(s, u); }
    }
  }

  lemma PushSwapPrivate(s: State, t: Tid)
    requires Inv(s) && Enabled(s.m, PushSwap(t)) && ChainOk(Step(s, PushSwap(t)))
    ensures PrivateOk(Step(s, PushSwap(t))) && HeapOk(Step(s, PushSwap(t)))
  {
    var s', n := Step(s, PushSwap(t)), s.m.push[t].node;
    assert Private(Pc(s.m, t), n);
    assert forall u, b :: Private(Pc(s'.m, u), b) <==> u != t && Private(Pc(s.m, u), b);
  }

  lemma PushSwapInv(s: State, t: Tid)
    requires Inv(s) && Enabled(s.m, PushSwap(t))
    ensures Inv(Step(s, PushSwap(t)))
  {
    hide LinksOk, GapsOk, HeapOk, PrivateOk, ChainOk, ValuesOk, PopOk;
    PushSwapChain(s, t);
    PushSwapGaps(s, t);
    PushSwapPrivate(s, t);
    PushSwapRest(s, t);
  }

  lemma PushSwapRest(s: State, t: Tid)
    requires Inv(s) && Enabled(s.m, PushSwap(t)) && ChainOk(Step(s, PushSwap(t)))
    ensures ValuesOk(Step(s, PushSwap(t))) && PopOk(Step(s, PushSwap(t)))
    ensures !Step(s, PushSwap(t)).m.fault && 0 !in Step(s, PushSwap(t)).m.heap
  {
    assert Private(Pc(s.m, t), s.m.push[t].node);
    hide LinksOk, GapsOk, HeapOk;
  }

  lemma PushLinkLinks(s: State, t: Tid)
    requires Inv(s) && Enabled(s.m, PushLink(t))
    ensures !Step(s, PushLink(t)).m.fault && ChainOk(Step(s, PushLink(t))) && LinksOk(Step(s, PushLink(t)))
  {
    var s' := Step(s, PushLink(t));
    assert GapAt(s, t);
    forall i | 0 <= i < |s'.h.chain| - 1 ensures LinkAt(s', i) {
      assert LinkAt(s, i);
    }
  }

  lemma PushLinkGaps(s: State, t: Tid)
    requires Inv(s) && Enabled(s.m, PushLink(t)) && ChainOk(Step(s, PushLink(t)))
    ensures GapsOk(Step(s, PushLink(t)))
  {
    hide LinksOk, PrivateOk, ValuesOk, HeapOk, GapsOk;
    var s' := Step(s, PushLink(t));
    forall u | Pc(s'.m, u).Swapped? ensures GapAt(s', u) {
      PushLinkGap(s, t, u);
    }
    assert GapsOk(s') by { GapsAre(s'); }
  }

  lemma GapsAre(s: State)
    requires ChainOk(s) && forall u :: Pc(s.m, u).Swapped? ==> GapAt(s, u)
    ensures GapsOk(s)
  {
  }

  lemma PushLinkGap(s: State, t: Tid, u: Tid)
    requires Inv(s) && Enabled(s.m, PushLink(t)) && ChainOk(Step(s, PushLink(t)))
    requires Pc(Step(s, PushLink(t)).m, u).Swapped?
    ensures GapAt(Step(s, PushLink(t)), u)
  {
    hide LinksOk, PrivateOk, ValuesOk, HeapOk, GapsOk;
    GapOf(s, t);
    GapOf(s, u);
  }

  lemma PushLinkPrivate(s: State, t: Tid)
    requires Inv(s) && Enabled(s.m, PushLink(t))
    ensures PrivateOk(Step(s, PushLink(t))) && HeapOk(Step(s, PushLink(t)))
  {
    var s' := Step(s, PushLink(t));
    assert GapAt(s, t);
    assert forall u, b :: Private(Pc(s'.m, u), b) <==> Private(Pc(s.m, u), b);
  }

  lemma PushLinkInv(s: State, t: Tid)
    requires Inv(s) && Enabled(s.m, PushLink(t))
    ensures Inv(Step(s, PushLink(t)))
  {
    PushLinkLinks(s, t);
    PushLinkGaps(s, t);
    PushLinkPrivate(s, t);
    GapOf(s, t);
    hide LinksOk, GapsOk, HeapOk, PrivateOk;
  }

  lemma StepInv(s: State, x: Action)
    requires Inv(s)
    ensures Inv(Step(s, x))
  {
    if Enabled(s.m, x) {
      match x
      case PushBegin(t, v, a) => PushBeginInv(s, t, v, a);
      case PushClear(t) => PushClearInv(s, t);
      case PushSwap(t) => PushSwapInv(s, t);
      case PushLink(t) => PushLinkInv(s, t);
      case PopReadHead => PopReadHeadInv(s);
      case PopReadNext => PopReadNextInv(s);
      case PopSetHead => PopSetHeadInv(s);
      case PopReadValue => PopReadValueInv(s);
      case PopFree => PopFreeInv(s);
    }
  }

  lemma {:induction false} RunInv(s: State, xs: seq<Action>)
    requires Inv(s)
    ensures Inv(Run(s, xs))
  {
    if xs != [] {
      RunInv(s, xs[..|xs| - 1]);
      StepInv(Run(s, xs[..|xs| - 1]), xs[|xs| - 1]);
    }
  }
}

/** Every access keeps the invariant of the ring, and what follows for its users. */
module RingProof {
  import opened RingModel

  lemma InitInv(data: seq<nat>)
    requires |data| > 0
    ensures Inv(Init(data))
  {
  }

  lemma SlotsFrame(s: State, s': State)
    requires CountersOk(s) && ItemsOk(s) && CountersOk(s')
    requires s'.m.data == s.m.data && s'.h.pushed == s.h.pushed && s'.h.popped == s.h.popped
    ensures ItemsOk(s')
  {
    forall k: nat | |s'.h.popped| <= k < |s'.h.pushed| ensures SlotHolds(s', k) {
      assert SlotHolds(s, k);
    }
  }

  lemma PushBeginInv(s: State, item: nat)
    requires Inv(s) && Enabled(s.m, PushBegin(item))
    ensures Inv(Step(s, PushBegin(item)))
  {
    var n, T := |s.m.data|, |s.h.pushed|;
    NextIndex(T, n);
    WrapIndex(s.h.seenPopped, n);
    if T + 1 < s.h.seenPopped + n { Residues(s.h.seenPopped, T + 1, n); }
    SlotsFrame(s, Step(s, PushBegin(item)));
  }

  lemma PushRefreshInv(s: State)
    requires Inv(s) && Enabled(s.m, PushRefresh)
    ensures Inv(Step(s, PushRefresh))
  {
    FullIff(s);
    SlotsFrame(s, Step(s, PushRefresh));
  }

  /** The producer's fresh comparison: next equals head exactly when the ring is full. */
  lemma FullIff(s: State)
    requires Inv(s) && s.m.prod.ProdRefresh?
    ensures s.m.prod.next == s.m.head <==> |s.h.pushed| - |s.h.popped| == |s.m.data| - 1
  {
    var n, T, H := |s.m.data|, |s.h.pushed|, |s.h.popped|;
    WrapIndex(H, n);
    if T + 1 < H + n { Residues(H, T + 1, n); }
  }

  /** A slot being written belongs to no live item and is not the slot being read. */
  lemma WriteSlotIsDead(s: State)
    requires Inv(s) && s.m.prod.ProdWrite?
    ensures forall k: nat :: |s.h.popped| <= k < |s.h.pushed| ==> k % |s.m.data| != s.m.prod.tail
    ensures s.m.cons.ConsRead? ==> s.m.cons.head != s.m.prod.tail
  {
    var n, T := |s.m.data|, |s.h.pushed|;
    forall k: nat | |s.h.popped| <= k < T ensures k % n != s.m.prod.tail {
      Residues(k, T, n);
    }
    if s.m.cons.ConsRead? { Residues(|s.h.popped|, T, n); }
  }

  lemma PushWriteInv(s: State)
    requires Inv(s) && Enabled(s.m, PushWrite)
    ensures Inv(Step(s, PushWrite))
  {
    var s' := Step(s, PushWrite);
    WriteSlotIsDead(s);
    forall k: nat | |s'.h.popped| <= k < |s'.h.pushed| ensures SlotHolds(s', k) {
      assert SlotHolds(s, k);
    }
  }

  lemma PushPublishInv(s: State)
    requires Inv(s) && Enabled(s.m, PushPublish)
    ensures Inv(Step(s, PushPublish))
  {
    var s' := Step(s, PushPublish);
    forall k: nat | |s'.h.popped| <= k < |s'.h.pushed| ensures SlotHolds(s', k) {
      if k < |s.h.pushed| { assert SlotHolds(s, k); }
    }
  }

  lemma PopBeginInv(s: State)
    requires Inv(s) && Enabled(s.m, PopBegin)
    ensures Inv(Step(s, PopBegin))
  {
    Residues(|s.h.popped|, s.h.seenPushed, |s.m.data|);
    SlotsFrame(s, Step(s, PopBegin));
  }

  /** The consumer's fresh comparison: head equals tail exactly when the ring is empty. */
  lemma EmptyIff(s: State)
    requires Inv(s)
    ensures s.m.head == s.m.tail <==> |s.h.pushed| == |s.h.popped|
  {
    Residues(|s.h.popped|, |s.h.pushed|, |s.m.data|);
  }

  lemma PopRefreshInv(s: State)
    requires Inv(s) && Enabled(s.m, PopRefresh)
    ensures Inv(Step(s, PopRefresh))
  {
    EmptyIff(s);
    SlotsFrame(s, Step(s, PopRefresh));
  }

  lemma PopReadInv(s: State)
    requires Inv(s) && Enabled(s.m, PopRead)
    ensures Inv(Step(s, PopRead))
  {
    assert SlotHolds(s, |s.h.popped|);
    SlotsFrame(s, Step(s, PopRead));
  }

  lemma PopPublishInv(s: State)
    requires Inv(s) && Enabled(s.m, PopPublish)
    ensures Inv(Step(s, PopPublish))
  {
    var s' := Step(s, PopPublish);
    NextIndex(|s.h.popped|, |s.m.data|);
    forall k: nat | |s'.h.popped| <= k < |s'.h.pushed| ensures SlotHolds(s', k) {
      assert SlotHolds(s, k);
    }
  }

  lemma StepInv(s: State, x: Action)
    requires Inv(s)
    ensures Inv(Step(s, x))
  {
    if Enabled(s.m, x) {
      match x
      case PushBegin(item) => PushBeginInv(s, item);
      case PushRefresh => PushRefreshInv(s);
      case PushWrite => PushWriteInv(s);
      case PushPublish => PushPublishInv(s);
      case PopBegin => PopBeginInv(s);
      case PopRefresh => PopRefreshInv(s);
      case PopRead => PopReadInv(s);
      case PopPublish => PopPublishInv(s);
    }
  }

  lemma {:induction false} RunInv(s: State, xs: seq<Action>)
    requires Inv(s)
    ensures Inv(Run(s, xs))
  {
    if xs != [] {
      RunInv(s, xs[..|xs| - 1]);
      StepInv(Run(s, xs[..|xs| - 1]), xs[|xs| - 1]);
    }
  }

  // ---------------------------------------------------------------- results

  /** The record of pushes is what the schedule says. */
  lemma {:induction false} RecordedArguments(s: State, xs: seq<Action>)
    ensures Run(s, xs).h.arg == LatestArgument(s, xs) && Run(s, xs).h.pushed == Accepted(s, xs)
  {
    if xs != [] { RecordedArguments(s, xs[..|xs| - 1]); }
  }

  /**
   First in, first out, under every interleaving: the items popped are a prefix of
   the arguments of the pushes that took effect, and at most size - 1 items are ever
   inside.
   */
  lemma Fifo(data: seq<nat>, xs: seq<Action>)
    requires |data| > 0
    ensures var s := Run(Init(data), xs);
            s.h.popped <= Accepted(Init(data), xs) && |Accepted(Init(data), xs)| - |s.h.popped| <= |s.m.data| - 1
    ensures |Run(Init(data), xs).m.data| == |data| && Run(Init(data), xs).h.pushed == Accepted(Init(data), xs)
    ensures forall k: nat :: |Run(Init(data), xs).h.popped| <= k < |Run(Init(data), xs).h.pushed| ==>
      SlotHolds(Run(Init(data), xs), k)
  {
    InitInv(data);
    RunInv(Init(data), xs);
    RunSize(Init(data), xs);
    RecordedArguments(Init(data), xs);
  }

  lemma {:induction false} RunSize(s: State, xs: seq<Action>)
    ensures |Run(s, xs).m.data| == |s.m.data|
  {
    if xs != [] { RunSize(s, xs[..|xs| - 1]); }
  }

  /** A push fails exactly when the ring is full at the moment the producer reads the head index. */
  lemma PushFailsWhenFull(data: seq<nat>, xs: seq<Action>)
    requires |data| > 0
    requires var s := Run(Init(data), xs); Enabled(s.m, PushRefresh)
    ensures var s := Run(Init(data), xs);
            Step(s, PushRefresh).m.prod.ProdIdle? <==> |s.h.pushed| - |s.h.popped| == |s.m.data| - 1
  {
    InitInv(data);
    RunInv(Init(data), xs);
    FullIff(Run(Init(data), xs));
  }

  /** A pop fails exactly when the ring is empty at the moment the consumer reads the tail index. */
  lemma PopFailsWhenEmpty(data: seq<nat>, xs: seq<Action>)
    requires |data| > 0
    requires var s := Run(Init(data), xs); Enabled(s.m, PopRefresh)
    ensures var s := Run(Init(data), xs);
            Step(s, PopRefresh).m.cons.ConsIdle? <==> s.h.popped == s.h.pushed
  {
    InitInv(data);
    RunInv(Init(data), xs);
    EmptyIff(Run(Init(data), xs));
  }

  /** The producer writes only where nobody reads. */
  lemma NoSlotRace(data: seq<nat>, xs: seq<Action>)
    requires |data| > 0 && Run(Init(data), xs).m.prod.ProdWrite?
    ensures |Run(Init(data), xs).m.data| > 0
    ensures var s := Run(Init(data), xs);
      forall k: nat :: |s.h.popped| <= k < |s.h.pushed| ==> k % |s.m.data| != s.m.prod.tail
    ensures var s := Run(Init(data), xs); s.m.cons.ConsRead? ==> s.m.cons.head != s.m.prod.tail
  {
    InitInv(data);
    RunInv(Init(data), xs);
    WriteSlotIsDead(Run(Init(data), xs));
  }

  /** Neither side waits for the other: every access of a push or a pop is ready when its turn comes. */
  lemma NobodyWaits(data: seq<nat>, xs: seq<Action>, item: nat)
    requires |data| > 0
    ensures var s := Run(Init(data), xs); match s.m.prod
      case ProdIdle => var p := Step(s, PushBegin(item)).m.prod; (p.ProdWrite? || p.ProdRefresh?) && p.item == item
      case ProdRefresh(_, _, _) => !Step(s, PushRefresh).m.prod.ProdRefresh?
      case ProdWrite(_, _, _) => Step(s, PushWrite).m.prod.ProdPublish?
      case ProdPublish(_, _) =>
        Step(s, PushPublish).m.prod.ProdIdle? && |Step(s, PushPublish).h.pushed| == |s.h.pushed| + 1
    ensures var s := Run(Init(data), xs); match s.m.cons
      case ConsIdle => var c := Step(s, PopBegin).m.cons; c.ConsRead? || c.ConsRefresh?
      case ConsRefresh(_) => !Step(s, PopRefresh).m.cons.ConsRefresh?
      case ConsRead(_) => Step(s, PopRead).m.cons.ConsPublish?
      case ConsPublish(_, i) => Step(s, PopPublish).m.cons.ConsIdle? && Step(s, PopPublish).h.popped == s.h.popped + [i]
  {
    InitInv(data);
    RunInv(Init(data), xs);
    hide Run;
    Moves(Run(Init(data), xs), item);
  }

  lemma Moves(s: State, item: nat)
    requires Inv(s)
    ensures match s.m.prod
      case ProdIdle => var p := Step(s, PushBegin(item)).m.prod; (p.ProdWrite? || p.ProdRefresh?) && p.item == item
      case ProdRefresh(_, _, _) => !Step(s, PushRefresh).m.prod.ProdRefresh?
      case ProdWrite(_, _, _) => Step(s, PushWrite).m.prod.ProdPublish?
      case ProdPublish(_, _) =>
        Step(s, PushPublish).m.prod.ProdIdle? && |Step(s, PushPublish).h.pushed| == |s.h.pushed| + 1
    ensures match s.m.cons
      case ConsIdle => var c := Step(s, PopBegin).m.cons; c.ConsRead? || c.ConsRefresh?
      case ConsRefresh(_) => !Step(s, PopRefresh).m.cons.ConsRefresh?
      case ConsRead(_) => Step(s, PopRead).m.cons.ConsPublish?
      case ConsPublish(_, i) => Step(s, PopPublish).m.cons.ConsIdle? && Step(s, PopPublish).h.popped == s.h.popped + [i]
  {
    IndicesInside(s);
    hide CountersOk, ItemsOk;
  }

  lemma IndicesInside(s: State)
    requires Inv(s)
    ensures WellSized(s.m)
    ensures s.m.prod.ProdWrite? ==> s.m.prod.tail < |s.m.data|
    ensures s.m.prod.ProdPublish? ==> s.m.prod.next < |s.m.data|
    ensures s.m.cons.ConsRead? ==> s.m.cons.head < |s.m.data|
  {
  }
}

/** Every frame array in memory is being filled for some socket or waits in a mailbox: nothing leaks. */
module FloodMemory {
  import opened SockCodec
  import opened FloodModel
  import opened FloodInv
  import opened FloodHandlers
  import opened FloodLanding
  import opened FloodDelivery
  import opened FloodResults
  import opened FloodCalls
  import M = Mailboxes
  import opened MailboxResults

  ghost predicate Used(st: State, p: Place) {
    (exists s :: Builds(st, s, p)) || (exists P, k: nat :: Queued(st.w, P, k, p))
  }

  ghost predicate NoLeak(st: State) {
    forall p :: p in st.w.heap ==> Used(st, p)
  }

  /** Steps that allocate nothing and leave every frame array to its user. */
  lemma Kept(st: State, st': State)
    requires NoLeak(st) && forall p :: p in st'.w.heap ==> p in st.w.heap
    requires forall s, p :: Builds(st, s, p) ==> Builds(st', s, p)
    requires st'.w.queues == st.w.queues
    ensures NoLeak(st')
  {
    hide Builds;
    forall p | p in st'.w.heap ensures Used(st', p) {
      assert Used(st, p);
      if s :| Builds(st, s, p) {
      } else {
        var P, k: nat :| Queued(st.w, P, k, p);
        assert Queued(st'.w, P, k, p);
      }
    }
  }

  lemma TakeFacts(st: State, s: Place)
    requires Inv(st) && Enabled(st.w, Take(s))
    ensures var st' := Step(st, Take(s)); var N := Mail(s, st.w.socks[s]);
      && st'.w.heap.Keys == st.w.heap.Keys - {Place(N.node, st.w.queues[N][0])}
      && st'.w.queues == st.w.queues[N := st.w.queues[N][1..]]
      && forall u, p :: Builds(st, u, p) ==> Builds(st', u, p)
  {
    var N := Mail(s, st.w.socks[s]);
    assert Queued(st.w, N, 0, Place(N.node, st.w.queues[N][0]));
    hide SocksOk, BoxesOk, OrdersOk, Config;
  }

  lemma TakeNoLeak(st: State, s: Place)
    requires Inv(st) && NoLeak(st) && Enabled(st.w, Take(s))
    ensures NoLeak(Step(st, Take(s)))
  {
    var N, st' := Mail(s, st.w.socks[s]), Step(st, Take(s));
    TakeFacts(st, s);
    TakeNonEmpty(st.w, s);
    hide Inv, Step, Enabled, Builds;
    forall p | p in st'.w.heap ensures Used(st', p) {
      assert Used(st, p);
      if u :| Builds(st, u, p) {
        assert Builds(st', u, p);
      } else {
        var P, k: nat :| Queued(st.w, P, k, p);
        if P == N {
          assert k > 0;
          assert Queued(st'.w, P, k - 1, p);
        } else {
          assert Queued(st'.w, P, k, p);
        }
      }
    }
  }

  /** What a delivery to s does to what is built. */
  ghost predicate BuildsElse(st: State, st': State, s: Place) {
    forall u, p :: u != s && Builds(st, u, p) ==> Builds(st', u, p)
  }

  lemma OthersBuild(st: State, x: Action)
    requires Inv(st) && Enabled(st.w, x) && x.Deliver?
    ensures BuildsElse(st, Step(st, x), x.s)
  {
    assert SockAt(st, x.s);
    NamesCell(st.w.heap, st.w.queues.Keys, x.s, st.w.socks[x.s], st.h.tracks[x.s], x.m);
    DeliveryConcernsOne(st, x);
    hide Inv, Step, Enabled, CellOf;
  }

  /** Where the message being built for s, and the array that a delivery allocates, end up. */
  lemma OwnArray(st: State, x: Action)
    requires Inv(st) && Enabled(st.w, x) && x.Deliver?
    ensures var st' := Step(st, x);
      && (forall p :: Builds(st, x.s, p) ==> Used(st', p))
      && (x.m.PictureReq? ==> Used(st', Place(x.m.to, x.a)))
  {
    hide Inv, Step, Enabled, Used, Builds;
    if M.Pushes(x.m) { Landing(st, x.s, x.m, x.a); } else { NotLanding(st, x.s, x.m, x.a); }
  }

  lemma BoxExists(st: State, s: Place, m: Msg, a: nat)
    requires Inv(st) && Enabled(st.w, Deliver(s, m, a)) && M.Pushes(m)
    ensures M.Box(m) in st.w.queues && s in st.h.tracks
    ensures forall p :: Builds(st, s, p) ==> m.TerminateReq? && p == Place(m.to, m.frames)
    ensures M.Box(m).node == m.to
  {
    hide SockOk, HeapOk, BoxesOk, OrdersOk, Config;
    assert SockAt(st, s);
    var heap, boxes, k, t := st.w.heap, st.w.queues.Keys, st.w.socks[s], st.h.tracks[s];
    if m.PictureReq? { PictureOrigin(heap, boxes, s, k, t, m); } else { TerminateSock(heap, boxes, s, k, t, m); }
    hide Parse;
  }

  lemma Landing(st: State, s: Place, m: Msg, a: nat)
    requires Inv(st) && Enabled(st.w, Deliver(s, m, a)) && M.Pushes(m)
    ensures var st' := Step(st, Deliver(s, m, a));
      && (forall p :: Builds(st, s, p) ==> Used(st', p)) && (m.PictureReq? ==> Used(st', Place(m.to, a)))
  {
    BoxExists(st, s, m, a);
    StepQueues(st, Deliver(s, m, a));
    hide Inv, Step, Enabled, M.Pushes, Builds;
    var st', P := Step(st, Deliver(s, m, a)), M.Box(m);
    assert Queued(st'.w, P, |st.w.queues[P]|, Place(m.to, M.Value(m, a)));
    hide M.Box;
  }

  lemma NotLanding(st: State, s: Place, m: Msg, a: nat)
    requires Inv(st) && Enabled(st.w, Deliver(s, m, a)) && !M.Pushes(m)
    ensures var st' := Step(st, Deliver(s, m, a));
      && (forall p :: Builds(st, s, p) ==> Used(st', p)) && (m.PictureReq? ==> Used(st', Place(m.to, a)))
  {
    hide SockOk, HeapOk, BoxesOk, OrdersOk, Config, Splice, BlankFrames, PacketOf, LetterFits;
    assert SockAt(st, s);
    var heap, boxes, k, t := st.w.heap, st.w.queues.Keys, st.w.socks[s], st.h.tracks[s];
    var st' := Step(st, Deliver(s, m, a));
    match m
    case PictureReq(_, _, _) =>
      PictureOrigin(heap, boxes, s, k, t, m);
      hide Parse;
      assert Builds(st', s, Place(m.to, a));
    case FragmentReq(_, _, _, _, _, _, _) =>
      FragmentSock(heap, boxes, s, k, t, m);
      assert forall p :: Builds(st, s, p) ==> Builds(st', s, p);
    case ConnectReq(_, _, _, _) =>
      ConnectSock(heap, boxes, s, k, t, m, 0);
    case SetCell(_, _, _) =>
      SetReplySock(heap, boxes, s, k, t, m);
      assert forall p :: Builds(st, s, p) ==> Builds(st', s, p);
    case AddCell(_, _, _) =>
      AddReplySock(heap, boxes, s, k, t, m);
      assert forall p :: Builds(st, s, p) ==> Builds(st', s, p);
    case TerminateReq(_, _, _, _, _) =>
  }

  lemma DeliverNoLeak(st: State, x: Action)
    requires Inv(st) && NoLeak(st) && Enabled(st.w, x) && x.Deliver?
    ensures NoLeak(Step(st, x))
  {
    var st' := Step(st, x);
    OthersBuild(st, x);
    OwnArray(st, x);
    StepQueues(st, x);
    QueuesGrow(st, x);
    hide Inv, Step, Enabled, Builds;
    forall p | p in st'.w.heap ensures Used(st', p) {
      if p in st.w.heap {
        assert Used(st, p);
        if u :| Builds(st, u, p) {
          if u != x.s { assert Builds(st', u, p); }
        } else {
          var P, k: nat :| Queued(st.w, P, k, p);
          assert Queued(st'.w, P, k, p);
        }
      }
    }
  }

  lemma QueuesGrow(st: State, x: Action)
    requires Inv(st) && Enabled(st.w, x) && x.Deliver?
    ensures forall P :: P in st.w.queues ==> P in Step(st, x).w.queues && st.w.queues[P] <= Step(st, x).w.queues[P]
  {
    StepQueues(st, x);
    StepSocks(st, x);
    if M.Pushes(x.m) { BoxExists(st, x.s, x.m, x.a); }
    hide Inv, Step, Enabled, M.Pushes, M.Box, M.Value;
  }

  lemma OtherNoLeak(st: State, x: Action)
    requires Inv(st) && NoLeak(st) && Enabled(st.w, x) && !x.Deliver? && !x.Take?
    ensures NoLeak(Step(st, x))
  {
    StepQueues(st, x);
    OwnBuilds(st, x);
    hide Inv, Step, Enabled, Builds;
    Kept(st, Step(st, x));
  }

  lemma OwnBuilds(st: State, x: Action)
    requires Inv(st) && Enabled(st.w, x) && !x.Deliver? && !x.Take?
    ensures forall s, p :: Builds(st, s, p) ==> Builds(Step(st, x), s, p)
  {
    if x.Send? {
      NothingBuilt(st, x.s);
    }
    hide Inv, PacketOf, LetterFits;
  }

  lemma NothingBuilt(st: State, s: Place)
    requires Inv(st) && s in st.w.socks && st.w.socks[s].pc == Idle
    ensures s in st.h.tracks && st.h.tracks[s].building == 0
  {
    hide HeapOk, BoxesOk, OrdersOk, Config;
    assert SockAt(st, s);
  }

  lemma {:induction false} NothingLeaks(st0: State, xs: seq<Action>)
    requires Start(st0)
    ensures NoLeak(Run(st0, xs))
  {
    if xs != [] {
      var ys, x := xs[..|xs| - 1], xs[|xs| - 1];
      NothingLeaks(st0, ys);
      Reached(st0, ys);
      hide Inv, NoLeak, Step, Enabled, Start;
      var st := Run(st0, ys);
      if Enabled(st.w, x) {
        if x.Deliver? { DeliverNoLeak(st, x); } else if x.Take? { TakeNoLeak(st, x.s); } else { OtherNoLeak(st, x); }
      } else {
        StepIdle(st, x);
      }
    }
  }

  lemma StepIdle(st: State, x: Action)
    requires !Enabled(st.w, x)
    ensures Step(st, x) == st
  {
  }
}

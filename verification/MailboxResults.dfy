/** The funnels refine the atomic mailboxes of the protocol, so all that was proved of the protocol holds with them. */
module MailboxResults {
  import opened Picture
  import opened SockCodec
  import opened FloodModel
  import opened FloodInv
  import opened FloodResults
  import opened FloodReceipt
  import opened FloodProgress
  import F = FunnelModel
  import FP = FunnelProof
  import FR = FunnelResults
  import opened Mailboxes

  // ---------------------------------------------------------------- one funnel

  /** What an access does to the queue. */
  ghost function After(b: F.State, q: seq<nat>, y: F.Action): seq<nat> {
    if y.PushSwap? then q + [F.Latest(b.h, y.t)] else if y.PopFree? && q != [] then q[1..] else q
  }

  lemma FunnelStep(b: F.State, q: seq<nat>, y: F.Action)
    requires FunnelOk(b, q) && F.Enabled(b.m, y)
    ensures FunnelOk(F.Step(b, y), After(b, q, y))
    ensures y.PopFree? ==> q != [] && b.m.pop.value == q[0]
  {
    FP.StepInv(b, y);
    FR.StepQueue(b, y);
    hide F.Inv, F.Step;
  }

  predicate ByThread(y: F.Action, t: F.Tid) {
    (y.PushBegin? || y.PushClear? || y.PushSwap? || y.PushLink?) && y.t == t
  }

  lemma OtherThread(b: F.State, y: F.Action, t: F.Tid)
    requires F.Enabled(b.m, y) && !ByThread(y, t)
    ensures F.Pc(F.Step(b, y).m, t) == F.Pc(b.m, t) && F.Latest(F.Step(b, y).h, t) == F.Latest(b.h, t)
  {
  }

  /** The thread that makes the access, where memory is in order. */
  lemma OwnThread(b: F.State, y: F.Action, t: F.Tid)
    requires F.Inv(b) && F.Enabled(b.m, y) && ByThread(y, t)
    ensures var b' := F.Step(b, y);
      && (y.PushBegin? ==> FR.Pending(F.Pc(b'.m, t)) && F.Latest(b'.h, t) == y.v)
      && (y.PushClear? ==> FR.Pending(F.Pc(b'.m, t)) && F.Latest(b'.h, t) == F.Latest(b.h, t))
      && (y.PushSwap? ==> F.Pc(b'.m, t).Swapped?)
  {
    if y.PushClear? { assert F.Private(F.Pc(b.m, t), b.m.push[t].node); }
    hide F.LinksOk, F.GapsOk, F.HeapOk, F.ValuesOk;
  }

  // ---------------------------------------------------------------- the protocol around a landing

  lemma PostKeepsQueues()
    ensures forall w, p, m :: Post(w, p, m).queues == w.queues && Post(w, p, m).heap == w.heap
    ensures forall w, p, a :: Enqueue(w, p, a).heap == w.heap
  {
  }

  lemma HandleKeepsQueues(w: World, m: Msg, a: nat)
    ensures !Pushes(m) ==> Handle(w, m, a).queues == w.queues
    ensures Pushes(m) && Box(m) in w.queues ==>
      Handle(w, m, a).queues == w.queues[Box(m) := w.queues[Box(m)] + [Value(m, a)]]
    ensures forall p :: p in Handle(w, m, a).heap ==> p in w.heap || (m.PictureReq? && p == Place(m.to, a))
  {
    PostKeepsQueues();
    hide Post, Parse, Splice, BlankFrames;
  }

  /** Only landings and receipts touch a mailbox, and only picture requests allocate. */
  lemma StepQueues(st: State, x: Action)
    requires Enabled(st.w, x)
    ensures !x.Take? && (x.Deliver? ==> !Pushes(x.m)) ==> Step(st, x).w.queues == st.w.queues
    ensures x.Deliver? && Pushes(x.m) && Box(x.m) in st.w.queues ==>
      Step(st, x).w.queues == st.w.queues[Box(x.m) := st.w.queues[Box(x.m)] + [Value(x.m, x.a)]]
    ensures forall p :: p in Step(st, x).w.heap ==>
      p in st.w.heap || (x.Deliver? && x.m.PictureReq? && p == Place(x.m.to, x.a))
  {
    if x.Deliver? {
      HandleKeepsQueues(Drop(st.w, x.s, x.m), x.m, x.a);
      hide Handle, Pushes, Box, Value;
    } else {
      hide PacketOf, LetterFits;
    }
  }

  /** A sender whose message is about to land waits. */
  lemma SenderWaits(heap: Heap, boxes: set<Place>, s: Place, k: Sock, t: Track, m: Msg)
    requires SockOk(heap, boxes, s, k, t) && m in k.wire && Pushes(m)
    ensures k.cell == 0 && (k.pc.AwaitAck? || k.pc.AwaitFrames? || k.pc.AwaitTerm?)
  {
    hide PacketOf, LetterFits, LetterFrames, Tiled, Shape, Payloads, Parse;
  }

  lemma SenderStays(st: State, x: Action, s: Place, m: Msg, a: nat)
    requires Inv(st) && Enabled(st.w, x) && Enabled(st.w, Deliver(s, m, a)) && Pushes(m) && (x.Deliver? ==> x.s != s)
    ensures st.w.socks[s].pc != Idle && !Works(x, s)
  {
    hide SockOk, HeapOk, BoxesOk, OrdersOk, Config, Parse;
    assert SockAt(st, s);
    SenderWaits(st.w.heap, st.w.queues.Keys, s, st.w.socks[s], st.h.tracks[s], m);
  }

  /** No other step gets in the way of a landing. */
  lemma StillReady(st: State, x: Action, s: Place, m: Msg, a: nat)
    requires Inv(st) && Enabled(st.w, x) && Enabled(st.w, Deliver(s, m, a)) && Pushes(m)
    requires x.Deliver? ==> x.s != s && (x.m.PictureReq? && m.PictureReq? ==> Place(x.m.to, x.a) != Place(m.to, a))
    ensures Enabled(Step(st, x).w, Deliver(s, m, a))
  {
    hide Inv, Works, Step;
    SenderStays(st, x, s, m, a);
    OthersKeep(st, s, x);
    StepQueues(st, x);
    hide Pushes, Box, Value;
  }

  // ---------------------------------------------------------------- the handlers

  /** What an access y to funnel M and a new state of the protocol leave of the handler of u. */
  lemma OtherLanding(n: Net, u: Place, M: Place, y: F.Action, flow: State)
    requires u in n.landing && LandingOk(n.flow, n.boxes, u, n.landing[u]) && M in n.boxes && F.Enabled(n.boxes[M].m, y)
    requires Box(n.landing[u].m) == M ==> !ByThread(y, n.landing[u].t)
    requires !n.landing[u].swapped ==> Enabled(flow.w, Deliver(u, n.landing[u].m, n.landing[u].a))
    ensures LandingOk(flow, Access(n, M, y), u, n.landing[u])
  {
    if Box(n.landing[u].m) == M { OtherThread(n.boxes[M], y, n.landing[u].t); }
    hide F.Step, Enabled, F.Enabled, Pushes, Box, Value;
  }

  /** The same for all handlers but the one of s, whose thread makes the access. */
  lemma OtherLandings(n: Net, s: Place, M: Place, y: F.Action, flow: State)
    requires LandingsOk(n) && M in n.boxes && F.Enabled(n.boxes[M].m, y)
    requires forall u :: u in n.landing && u != s ==>
      && (Pushes(n.landing[u].m) && Box(n.landing[u].m) == M ==> !ByThread(y, n.landing[u].t))
      && (!n.landing[u].swapped ==> Enabled(flow.w, Deliver(u, n.landing[u].m, n.landing[u].a)))
    ensures forall u :: u in n.landing && u != s ==> LandingOk(flow, Access(n, M, y), u, n.landing[u])
  {
    forall u | u in n.landing && u != s ensures LandingOk(flow, Access(n, M, y), u, n.landing[u]) {
      assert LandingOk(n.flow, n.boxes, u, n.landing[u]);
      assert Pushes(n.landing[u].m);
      hide LandingOk, Enabled, F.Enabled, Box, Pushes;
      OtherLanding(n, u, M, y, flow);
    }
  }

  lemma AccessFunnels(n: Net, M: Place, y: F.Action, flow: State)
    requires FunnelsOk(n) && M in n.boxes && F.Enabled(n.boxes[M].m, y)
    requires flow.w.queues == n.flow.w.queues[M := After(n.boxes[M], n.flow.w.queues[M], y)]
    ensures FunnelsOk(Net(flow, Access(n, M, y), n.landing))
  {
    hide FunnelOk, After, F.Step, F.Enabled;
    assert FunnelOk(n.boxes[M], n.flow.w.queues[M]);
    FunnelStep(n.boxes[M], n.flow.w.queues[M], y);
    var n' := Net(flow, Access(n, M, y), n.landing);
    forall N | N in n'.boxes ensures FunnelOk(n'.boxes[N], n'.flow.w.queues[N]) {
      assert N in n.boxes;
    }
  }

  lemma ReadyNow(n: Net, u: Place)
    requires LandingsOk(n) && u in n.landing
    ensures !n.landing[u].swapped ==> Enabled(n.flow.w, Deliver(u, n.landing[u].m, n.landing[u].a))
    ensures Pushes(n.landing[u].m) && Box(n.landing[u].m) in n.boxes
  {
    assert LandingOk(n.flow, n.boxes, u, n.landing[u]);
    hide Enabled, Pushes, Box;
  }

  // ---------------------------------------------------------------- every move keeps the invariant

  lemma FlowLandings(n: Net, x: Action)
    requires NetOk(n) && CanMove(n, Flow(x))
    ensures LandingsOk(Moved(n, Flow(x)))
  {
    var n' := Moved(n, Flow(x));
    forall s | s in n'.landing ensures LandingOk(n'.flow, n'.boxes, s, n'.landing[s]) {
      var l := n.landing[s];
      ReadyNow(n, s);
      assert LandingOk(n.flow, n.boxes, s, l);
      if !l.swapped { StillReady(n.flow, x, s, l.m, l.a); }
      hide Inv, Step, Enabled, FunnelsOk, Apart, Pushes, Box, Value;
    }
  }

  lemma FlowOk(n: Net, x: Action)
    requires NetOk(n) && CanMove(n, Flow(x))
    ensures NetOk(Moved(n, Flow(x)))
  {
    FlowLandings(n, x);
    hide LandingsOk, LandingOk, FunnelOk, Apart;
    StepInv(n.flow, x);
    StepQueues(n.flow, x);
    hide Inv, Step, Pushes, Box, Value;
  }

  lemma BeginApart(n: Net, s: Place, m: Msg, a: nat, t: F.Tid)
    requires Apart(n.landing) && s !in n.landing && Pushes(m) && Allocates(n, m, a)
    requires forall u :: u in n.landing ==>
      Pushes(n.landing[u].m) && (Box(n.landing[u].m) == Box(m) ==> n.landing[u].t != t)
    ensures Apart(n.landing[s := Landing(m, a, t, false)])
  {
    hide Box, Pushes;
  }

  /** A thread that begins a push is in no other handler. */
  lemma NewThread(n: Net, M: Place, y: F.Action)
    requires LandingsOk(n) && M in n.boxes && y.PushBegin? && F.Enabled(n.boxes[M].m, y)
    ensures forall u :: u in n.landing ==>
      Pushes(n.landing[u].m) && (Box(n.landing[u].m) == M ==> n.landing[u].t != y.t)
  {
    hide Enabled, Pushes, Box;
    forall u | u in n.landing ensures Pushes(n.landing[u].m) && (Box(n.landing[u].m) == M ==> n.landing[u].t != y.t) {
      assert LandingOk(n.flow, n.boxes, u, n.landing[u]);
    }
  }

  lemma BeginLandings(n: Net, s: Place, m: Msg, a: nat, y: F.Action)
    requires LandingsOk(n) && s !in n.landing && Enabled(n.flow.w, Deliver(s, m, a)) && Pushes(m) && Box(m) in n.boxes
    requires y.PushBegin? && y.v == Value(m, a) && F.Inv(n.boxes[Box(m)]) && F.Enabled(n.boxes[Box(m)].m, y)
    ensures LandingsOk(n.(boxes := Access(n, Box(m), y), landing := n.landing[s := Landing(m, a, y.t, false)]))
  {
    hide Enabled, Pushes, Box, Value;
    NewThread(n, Box(m), y);
    OwnThread(n.boxes[Box(m)], y, y.t);
    hide F.Enabled, F.Inv, F.Step;
    forall u | u in n.landing && u != s
      ensures !n.landing[u].swapped ==> Enabled(n.flow.w, Deliver(u, n.landing[u].m, n.landing[u].a))
    {
      ReadyNow(n, u);
    }
    OtherLandings(n, s, Box(m), y, n.flow);
    var boxes, l := Access(n, Box(m), y), Landing(m, a, y.t, false);
    assert LandingOk(n.flow, boxes, s, l);
    hide LandingOk;
    var n' := n.(boxes := boxes, landing := n.landing[s := l]);
    forall u | u in n'.landing ensures LandingOk(n'.flow, n'.boxes, u, n'.landing[u]) {
      if u != s { assert u in n.landing && n'.landing[u] == n.landing[u]; }
    }
  }

  /** A funnel in order. */
  lemma FunnelInv(n: Net, M: Place)
    requires FunnelsOk(n) && M in n.boxes
    ensures F.Inv(n.boxes[M]) && M in n.flow.w.queues && FunnelOk(n.boxes[M], n.flow.w.queues[M])
  {
    hide F.Inv;
  }

  lemma BeginOk(n: Net, s: Place, m: Msg, a: nat, t: F.Tid, node: nat)
    requires NetOk(n) && CanMove(n, LandBegin(s, m, a, t, node))
    ensures NetOk(Moved(n, LandBegin(s, m, a, t, node)))
  {
    hide Inv, Enabled, LandingsOk, FunnelsOk, F.Inv, F.Enabled, Apart, Allocates;
    var M, y := Box(m), F.PushBegin(t, Value(m, a), node);
    FunnelInv(n, M);
    NewThread(n, M, y);
    BeginLandings(n, s, m, a, y);
    BeginApart(n, s, m, a, t);
    hide Pushes, Box, Value;
    assert n.flow.w.queues[M := n.flow.w.queues[M]] == n.flow.w.queues;
    AccessFunnels(n, M, y, n.flow);
    FunnelsOnly(Net(n.flow, Access(n, M, y), n.landing), n.landing[s := Landing(m, a, t, false)]);
  }

  /** The funnels do not depend on the handlers. */
  lemma FunnelsOnly(n: Net, landing: map<Place, Landing>)
    requires FunnelsOk(n)
    ensures FunnelsOk(n.(landing := landing))
  {
    hide FunnelOk;
  }

  /** The other handlers, when the handler of s makes an access. */
  lemma HandlerAccess(n: Net, s: Place, y: F.Action, flow: State)
    requires LandingsOk(n) && Apart(n.landing) && s in n.landing && At(n, s, y)
    requires y == F.PushClear(n.landing[s].t) || y == F.PushSwap(n.landing[s].t) || y == F.PushLink(n.landing[s].t)
    requires forall u :: u in n.landing && u != s && !n.landing[u].swapped ==>
      Enabled(flow.w, Deliver(u, n.landing[u].m, n.landing[u].a))
    ensures forall u :: u in n.landing && u != s ==> LandingOk(flow, Access(n, Box(n.landing[s].m), y), u, n.landing[u])
  {
    hide Enabled, F.Enabled, Pushes, Box;
    forall u | u in n.landing && u != s
      ensures Pushes(n.landing[u].m) && Box(n.landing[u].m) == Box(n.landing[s].m) ==> !ByThread(y, n.landing[u].t)
    {
      ReadyNow(n, u);
    }
    OtherLandings(n, s, Box(n.landing[s].m), y, flow);
  }

  lemma AllReady(n: Net)
    requires LandingsOk(n)
    ensures forall u :: u in n.landing && !n.landing[u].swapped ==>
      Enabled(n.flow.w, Deliver(u, n.landing[u].m, n.landing[u].a))
  {
    hide Enabled;
    forall u | u in n.landing && !n.landing[u].swapped
      ensures Enabled(n.flow.w, Deliver(u, n.landing[u].m, n.landing[u].a))
    {
      ReadyNow(n, u);
    }
  }

  lemma ClearOk(n: Net, s: Place)
    requires NetOk(n) && CanMove(n, LandClear(s))
    ensures NetOk(Moved(n, LandClear(s)))
  {
    hide Inv, Enabled, FunnelsOk, F.Inv, F.Enabled, Pushes, Box, Value;
    var l := n.landing[s];
    var M, y := Box(l.m), F.PushClear(l.t);
    FunnelInv(n, M);
    AllReady(n);
    HandlerAccess(n, s, y, n.flow);
    assert LandingOk(n.flow, n.boxes, s, l);
    NotSwapped(n.boxes[M], y, l.t);
    OwnThread(n.boxes[M], y, l.t);
    hide F.Step, Apart;
    assert LandingOk(n.flow, Access(n, M, y), s, l);
    hide LandingOk;
    assert n.flow.w.queues[M := n.flow.w.queues[M]] == n.flow.w.queues;
    AccessFunnels(n, M, y, n.flow);
  }

  lemma NotSwapped(b: F.State, y: F.Action, t: F.Tid)
    requires F.Enabled(b.m, y) && (y == F.PushClear(t) || y == F.PushSwap(t))
    ensures !F.Pc(b.m, t).Swapped?
  {
  }

  lemma LinkOk(n: Net, s: Place)
    requires NetOk(n) && CanMove(n, LandLink(s))
    ensures NetOk(Moved(n, LandLink(s)))
  {
    hide Inv, Enabled, FunnelsOk, F.Inv, F.Enabled, Pushes, Box, Value, F.Step;
    var l := n.landing[s];
    var M, y := Box(l.m), F.PushLink(l.t);
    FunnelInv(n, M);
    AllReady(n);
    HandlerAccess(n, s, y, n.flow);
    hide LandingOk;
    assert n.flow.w.queues[M := n.flow.w.queues[M]] == n.flow.w.queues;
    AccessFunnels(n, M, y, n.flow);
    FunnelsOnly(Net(n.flow, Access(n, M, y), n.landing), n.landing - {s});
  }

  /** The swap: the message lands, in the funnel and in the protocol at once. */
  lemma SwapOk(n: Net, s: Place)
    requires NetOk(n) && CanMove(n, LandSwap(s))
    ensures NetOk(Moved(n, LandSwap(s)))
  {
    hide Inv, Enabled, FunnelsOk, F.Inv, F.Enabled, Pushes, Box, Value, Step;
    var l := n.landing[s];
    var M, y, x := Box(l.m), F.PushSwap(l.t), Deliver(s, l.m, l.a);
    SwapReady(n, s);
    FunnelInv(n, M);
    SwapLeaves(n, s);
    StepInv(n.flow, x);
    SwapQueues(n.flow, s, l.m, l.a);
    HandlerAccess(n, s, y, Step(n.flow, x));
    OwnThread(n.boxes[M], y, l.t);
    hide F.Step;
    var boxes, l' := Access(n, M, y), l.(swapped := true);
    assert LandingOk(Step(n.flow, x), boxes, s, l');
    hide LandingOk;
    AccessFunnels(n, M, y, Step(n.flow, x));
    FunnelsOnly(Net(Step(n.flow, x), boxes, n.landing), n.landing[s := l']);
  }

  /** At its swap a handler holds its message's address, and the protocol is ready to deliver the message. */
  lemma SwapReady(n: Net, s: Place)
    requires LandingsOk(n) && CanMove(n, LandSwap(s))
    ensures !n.landing[s].swapped && Pushes(n.landing[s].m) && Box(n.landing[s].m) in n.boxes
    ensures Enabled(n.flow.w, Deliver(s, n.landing[s].m, n.landing[s].a))
    ensures F.Latest(n.boxes[Box(n.landing[s].m)].h, n.landing[s].t) == Value(n.landing[s].m, n.landing[s].a)
  {
    hide Enabled, Pushes, Box, Value;
    assert LandingOk(n.flow, n.boxes, s, n.landing[s]);
  }

  lemma SwapQueues(st: State, s: Place, m: Msg, a: nat)
    requires Enabled(st.w, Deliver(s, m, a)) && Pushes(m) && Box(m) in st.w.queues
    ensures Step(st, Deliver(s, m, a)).w.queues == st.w.queues[Box(m) := st.w.queues[Box(m)] + [Value(m, a)]]
  {
    StepQueues(st, Deliver(s, m, a));
  }

  /** The landing of s leaves the other handlers ready. */
  lemma SwapLeaves(n: Net, s: Place)
    requires NetOk(n) && s in n.landing && !n.landing[s].swapped
    requires Enabled(n.flow.w, Deliver(s, n.landing[s].m, n.landing[s].a))
    ensures forall u :: u in n.landing && u != s && !n.landing[u].swapped ==>
      Enabled(Step(n.flow, Deliver(s, n.landing[s].m, n.landing[s].a)).w, Deliver(u, n.landing[u].m, n.landing[u].a))
  {
    hide Inv, Enabled, Step, Pushes, Box;
    var x := Deliver(s, n.landing[s].m, n.landing[s].a);
    forall u | u in n.landing && u != s && !n.landing[u].swapped
      ensures Enabled(Step(n.flow, x).w, Deliver(u, n.landing[u].m, n.landing[u].a))
    {
      ReadyNow(n, u);
      ReadyNow(n, s);
      StillReady(n.flow, x, u, n.landing[u].m, n.landing[u].a);
    }
  }

  /** The mailbox that the thread of s reads. */
  function Own(n: Net, s: Place): Place
    requires s in n.flow.w.socks
  {
    Mail(s, n.flow.w.socks[s])
  }

  /** When a pop ends, the protocol is ready for the receipt, of the same frame array. */
  ghost predicate SameReceipt(n: Net, s: Place) {
    && Enabled(n.flow.w, Take(s)) && Own(n, s) in n.boxes && n.boxes[Own(n, s)].m.pop.HasValue?
    && n.boxes[Own(n, s)].m.pop.value == n.flow.w.queues[Own(n, s)][0]
  }

  lemma PopSame(n: Net, s: Place)
    requires FunnelsOk(n) && CanMove(n, Pop(s, F.PopFree))
    ensures SameReceipt(n, s)
  {
    hide F.Inv;
    FunnelInv(n, Own(n, s));
    FunnelStep(n.boxes[Own(n, s)], n.flow.w.queues[Own(n, s)], F.PopFree);
  }

  lemma TakeQueues(st: State, s: Place)
    requires Inv(st) && Enabled(st.w, Take(s))
    ensures var M := Mail(s, st.w.socks[s]); Step(st, Take(s)).w.queues == st.w.queues[M := st.w.queues[M][1..]]
  {
    var M := Mail(s, st.w.socks[s]);
    assert Queued(st.w, M, 0, Place(M.node, st.w.queues[M][0]));
    hide SocksOk, BoxesOk, OrdersOk;
  }

  lemma TakeLeaves(n: Net, s: Place)
    requires NetOk(n) && Enabled(n.flow.w, Take(s))
    ensures forall u :: u in n.landing && !n.landing[u].swapped ==>
      Enabled(Step(n.flow, Take(s)).w, Deliver(u, n.landing[u].m, n.landing[u].a))
  {
    hide Inv, Enabled, Step, Pushes, Box;
    forall u | u in n.landing && !n.landing[u].swapped
      ensures Enabled(Step(n.flow, Take(s)).w, Deliver(u, n.landing[u].m, n.landing[u].a))
    {
      ReadyNow(n, u);
      StillReady(n.flow, Take(s), u, n.landing[u].m, n.landing[u].a);
    }
  }

  /** A pop that goes on: only its funnel changes, and the queue does not. */
  lemma PopOnOk(n: Net, s: Place, y: F.Action)
    requires NetOk(n) && CanMove(n, Pop(s, y)) && !y.PopFree?
    ensures NetOk(Moved(n, Pop(s, y)))
  {
    hide Inv, Enabled, FunnelsOk, F.Inv, F.Enabled, Pushes, Box, Value, F.Step;
    var M := Own(n, s);
    FunnelInv(n, M);
    AllReady(n);
    PopLandings(n, M, y, n.flow);
    assert n.flow.w.queues[M := n.flow.w.queues[M]] == n.flow.w.queues;
    AccessFunnels(n, M, y, n.flow);
  }

  lemma PopLandings(n: Net, M: Place, y: F.Action, flow: State)
    requires LandingsOk(n) && M in n.boxes && PopAction(y) && F.Enabled(n.boxes[M].m, y)
    requires forall u :: u in n.landing && !n.landing[u].swapped ==>
      Enabled(flow.w, Deliver(u, n.landing[u].m, n.landing[u].a))
    ensures LandingsOk(Net(flow, Access(n, M, y), n.landing))
  {
    hide Enabled, F.Enabled, Pushes, Box, Value;
    forall u | u in n.landing ensures LandingOk(flow, Access(n, M, y), u, n.landing[u]) {
      assert LandingOk(n.flow, n.boxes, u, n.landing[u]);
      OtherLanding(n, u, M, y, flow);
    }
    hide LandingOk;
  }

  /** A pop ends: the receipt takes place in the protocol. */
  lemma PopEndOk(n: Net, s: Place)
    requires NetOk(n) && CanMove(n, Pop(s, F.PopFree))
    ensures NetOk(Moved(n, Pop(s, F.PopFree)))
  {
    hide Inv, FunnelsOk, F.Inv, F.Enabled, Pushes, Box, Value, F.Step, Step, Enabled;
    var M := Own(n, s);
    FunnelInv(n, M);
    PopSame(n, s);
    var q := n.flow.w.queues[M];
    assert q != [] by { TakeNonEmpty(n.flow.w, s); }
    hide SameReceipt;
    TakeLeaves(n, s);
    StepInv(n.flow, Take(s));
    TakeQueues(n.flow, s);
    PopLandings(n, M, F.PopFree, Step(n.flow, Take(s)));
    hide LandingOk;
    AccessFunnels(n, M, F.PopFree, Step(n.flow, Take(s)));
  }

  lemma TakeNonEmpty(w: World, s: Place)
    requires Enabled(w, Take(s))
    ensures s in w.socks && Mail(s, w.socks[s]) in w.queues && w.queues[Mail(s, w.socks[s])] != []
  {
  }

  lemma NextOk(n: Net, v: Move)
    requires NetOk(n)
    ensures NetOk(Next(n, v))
  {
    hide NetOk, Moved;
    if CanMove(n, v) {
      match v
      case Flow(x) => FlowOk(n, x);
      case LandBegin(s, m, a, t, node) => BeginOk(n, s, m, a, t, node);
      case LandClear(s) => ClearOk(n, s);
      case LandSwap(s) => SwapOk(n, s);
      case LandLink(s) => LinkOk(n, s);
      case Pop(s, y) => if y.PopFree? { PopEndOk(n, s); } else { PopOnOk(n, s, y); }
    }
  }

  // ---------------------------------------------------------------- whole runs

  /** Idle sockets, empty funnels, no handler at work. */
  ghost predicate Begins(n: Net) {
    && Start(n.flow) && n.boxes.Keys == n.flow.w.queues.Keys && n.landing == map[]
    && forall M :: M in n.boxes ==> NewFunnel(n.boxes[M])
  }

  ghost predicate NewFunnel(b: F.State) {
    exists stub: nat :: stub != 0 && b == F.Init(stub)
  }

  /** The protocol's own beginnings, with a new funnel for each mailbox. */
  lemma BeginsWith(st: State) returns (n: Net)
    requires Start(st)
    ensures n.flow == st && Begins(n)
  {
    n := Net(st, map P | P in st.w.queues :: F.Init(1), map[]);
    hide Start;
    forall P | P in n.boxes ensures NewFunnel(n.boxes[P]) {
      assert n.boxes[P] == F.Init(1);
    }
  }

  lemma NewFunnelOk(b: F.State)
    requires NewFunnel(b)
    ensures FunnelOk(b, [])
  {
    var stub: nat :| stub != 0 && b == F.Init(stub);
    FP.InitInv(stub);
  }

  lemma BeginsOk(n: Net)
    requires Begins(n)
    ensures NetOk(n)
  {
    StartInv(n.flow);
    hide Inv, FunnelOk, NewFunnel, Config;
    forall M | M in n.boxes ensures FunnelOk(n.boxes[M], n.flow.w.queues[M]) {
      NewFunnelOk(n.boxes[M]);
    }
  }

  lemma {:induction false} MovesOk(n0: Net, vs: seq<Move>)
    requires Begins(n0)
    ensures NetOk(Moves(n0, vs))
  {
    hide NetOk, Next, Begins;
    if vs == [] {
      BeginsOk(n0);
    } else {
      MovesOk(n0, vs[..|vs| - 1]);
      NextOk(Moves(n0, vs[..|vs| - 1]), vs[|vs| - 1]);
    }
  }

  /** The step of the protocol that a move stands for, if any. */
  function Shadow(n: Net, v: Move): seq<Action> {
    if !CanMove(n, v) then []
    else
      match v
      case Flow(x) => [x]
      case LandSwap(s) => [Deliver(s, n.landing[s].m, n.landing[s].a)]
      case Pop(s, y) => if y.PopFree? then [Take(s)] else []
      case _ => []
  }

  /** The schedule of the protocol with atomic mailboxes that a run of this machine goes through. */
  function Shadows(n0: Net, vs: seq<Move>): seq<Action> {
    if vs == [] then [] else Shadows(n0, vs[..|vs| - 1]) + Shadow(Moves(n0, vs[..|vs| - 1]), vs[|vs| - 1])
  }

  lemma RunMore(st: State, xs: seq<Action>, x: Action)
    ensures Run(st, xs + [x]) == Step(Run(st, xs), x)
  {
    hide Step;
    assert (xs + [x])[..|xs|] == xs;
  }

  lemma NextShadow(n: Net, v: Move)
    ensures Shadow(n, v) == [] ==> Next(n, v).flow == n.flow
    ensures Shadow(n, v) != [] ==> |Shadow(n, v)| == 1 && Next(n, v).flow == Step(n.flow, Shadow(n, v)[0])
  {
    hide Step, F.Step, Enabled, F.Enabled, Pushes, Box, Value;
  }

  lemma {:induction false} FlowIsRun(n0: Net, vs: seq<Move>)
    ensures Moves(n0, vs).flow == Run(n0.flow, Shadows(n0, vs))
  {
    hide Next, Step, Shadow;
    if vs != [] {
      var ys, v := vs[..|vs| - 1], vs[|vs| - 1];
      FlowIsRun(n0, ys);
      var n := Moves(n0, ys);
      NextShadow(n, v);
      if Shadow(n, v) == [] {
        assert Shadows(n0, ys) + [] == Shadows(n0, ys);
      } else {
        RunMore(n0.flow, Shadows(n0, ys), Shadow(n, v)[0]);
        assert Shadow(n, v) == [Shadow(n, v)[0]];
      }
    }
  }

  /**
   Refinement. Every run with funnels is a run of the protocol with atomic mailboxes,
   in which the step that a move stands for is always ready. At every moment each
   funnel holds exactly what the atomic mailbox holds, and no access to it touches
   freed memory. When a pop ends, it returns the frame array that the receipt takes.
   */
  lemma Refines(n0: Net, vs: seq<Move>, v: Move)
    requires Begins(n0) && CanMove(Moves(n0, vs), v)
    ensures var n := Moves(n0, vs); n.flow == Run(n0.flow, Shadows(n0, vs))
    ensures var n := Moves(n0, vs);
      n.boxes.Keys == n.flow.w.queues.Keys && forall M :: M in n.boxes ==> HoldsSame(n.boxes[M], n.flow.w.queues[M])
    ensures var n := Moves(n0, vs); forall x :: x in Shadow(n, v) ==> Enabled(n.flow.w, x)
    ensures var n := Moves(n0, vs); v.Pop? && v.y.PopFree? ==> SameReceipt(n, v.s)
  {
    FlowIsRun(n0, vs);
    MovesOk(n0, vs);
    hide Moves, Shadows, Begins;
    var n := Moves(n0, vs);
    FunnelsSame(n);
    ShadowReady(n, v);
  }

  ghost predicate HoldsSame(b: F.State, q: seq<nat>) {
    |b.h.popped| <= |b.h.order| && FR.Queue(b) == q && !b.m.fault
  }

  lemma FunnelsSame(n: Net)
    requires FunnelsOk(n)
    ensures n.boxes.Keys == n.flow.w.queues.Keys
    ensures forall M :: M in n.boxes ==> HoldsSame(n.boxes[M], n.flow.w.queues[M])
  {
    forall M | M in n.boxes ensures HoldsSame(n.boxes[M], n.flow.w.queues[M]) {
      FunnelInv(n, M);
    }
  }

  lemma ShadowReady(n: Net, v: Move)
    requires NetOk(n) && CanMove(n, v)
    ensures forall x :: x in Shadow(n, v) ==> Enabled(n.flow.w, x)
    ensures v.Pop? && v.y.PopFree? ==> SameReceipt(n, v.s)
  {
    hide Inv, FunnelsOk, LandingsOk, Apart, F.Enabled, Enabled, Pushes, Box, Value;
    match v
    case LandSwap(s) => SwapReady(n, s);
    case Pop(s, y) => if y.PopFree? { PopSame(n, s); }
    case _ =>
  }

  /** Through funnels, too, whatever a socket receives was sent to it and decodes to what was sent. */
  lemma ReceiptThroughFunnels(n0: Net, vs: seq<Move>, M: Place, k: nat) returns (s: Place, j: nat)
    requires Begins(n0) && M in Moves(n0, vs).flow.h.logs && k < |Moves(n0, vs).flow.h.logs[M].got|
    ensures var st := Moves(n0, vs).flow;
      && s in st.w.socks && s in st.h.tracks && j < |st.h.tracks[s].sent| && st.h.tracks[s].sent[j].dest == M
      && Decodes(st.h.logs[M].got[k], Mail(s, st.w.socks[s]), st.h.tracks[s].sent[j].args)
  {
    FlowIsRun(n0, vs);
    hide Moves, Shadows, Run, Decodes;
    s, j := Receipt(n0.flow, Shadows(n0, vs), M, k);
  }
}

/**
 The other direction of the refinement: whatever the protocol with atomic mailboxes can
 do, it can do with funnels. So what was proved to go through goes through with them.
 */
module MailboxMimics {
  import opened SockCodec
  import opened FloodModel
  import opened FloodInv
  import opened FloodLanding
  import F = FunnelModel
  import FR = FunnelResults
  import M = Mailboxes
  import opened MailboxResults

  /** No handler is inside a mailbox, and nobody is inside a pop. */
  ghost predicate Quiet(n: M.Net) {
    n.landing == map[] && forall P :: P in n.boxes ==> Still(n.boxes[P])
  }

  ghost predicate Still(b: F.State) {
    b.m.pop.Idle? && forall t :: F.Pc(b.m, t).Outside?
  }

  lemma MovesOne(n: M.Net, v: M.Move)
    ensures M.Moves(n, [v]) == M.Next(n, v)
  {
    assert [v][..0] == [];
  }

  lemma {:induction false} MovesSplit(n: M.Net, vs: seq<M.Move>, us: seq<M.Move>)
    ensures M.Moves(n, vs + us) == M.Moves(M.Moves(n, vs), us)
    decreases |us|
  {
    hide M.Next;
    if us == [] {
      assert vs + us == vs;
    } else {
      var k := |us| - 1;
      MovesSplit(n, vs, us[..k]);
      assert (vs + us)[..|vs| + k] == vs + us[..k] && (vs + us)[|vs| + k] == us[k];
    }
  }

  lemma MovesMore(n: M.Net, vs: seq<M.Move>, v: M.Move)
    ensures M.Moves(n, vs + [v]) == M.Next(M.Moves(n, vs), v)
  {
    MovesSplit(n, vs, [v]);
    MovesOne(M.Moves(n, vs), v);
  }

  // ---------------------------------------------------------------- a step that touches no mailbox

  lemma MimicFlow(n: M.Net, x: Action) returns (vs: seq<M.Move>)
    requires Quiet(n) && Enabled(n.flow.w, x) && !x.Take? && (x.Deliver? ==> !M.Pushes(x.m))
    ensures M.Moves(n, vs).flow == Step(n.flow, x) && Quiet(M.Moves(n, vs))
  {
    vs := [M.Flow(x)];
    MovesOne(n, M.Flow(x));
    hide Step, Enabled, M.Pushes, M.Moves;
    assert M.CanMove(n, M.Flow(x));
  }

  // ---------------------------------------------------------------- a landing

  lemma {:induction false} FreshNode(used: set<nat>) returns (a: nat)
    ensures a > 0 && a !in used && forall p :: p in used ==> p < a
  {
    if used == {} {
      a := 1;
    } else {
      var p :| p in used;
      a := FreshNode(used - {p});
      if p >= a { a := p + 1; }
      assert used == (used - {p}) + {p};
    }
  }

  /** The funnel after one whole push. */
  function Pushed(b: F.State, t: nat, v: nat, node: nat): F.State {
    F.Step(F.Step(F.Step(F.Step(b, F.PushBegin(t, v, node)), F.PushClear(t)), F.PushSwap(t)), F.PushLink(t))
  }

  lemma PushNext(b: F.State, y: F.Action, t: nat)
    requires F.Inv(b) && ByThread(y, t) && F.Enabled(b.m, y)
    ensures var pc := F.Pc(F.Step(b, y).m, t);
      && (y.PushBegin? ==> pc.HasNode?) && (y.PushClear? ==> pc.Cleared?) && (y.PushSwap? ==> pc.Swapped?)
      && (y.PushLink? ==> pc.Outside?)
  {
    FR.PushMoves(b, t, if y.PushBegin? then y.v else 0, if y.PushBegin? then y.a else 0);
    hide F.Inv, F.Step;
  }

  /** One access of a push: the funnel stays in order, and no other thread moves. */
  lemma PushAccess(b: F.State, q: seq<nat>, y: F.Action, t: nat)
    requires M.FunnelOk(b, q) && ByThread(y, t) && F.Enabled(b.m, y)
    ensures M.FunnelOk(F.Step(b, y), After(b, q, y))
    ensures F.Step(b, y).m.pop == b.m.pop && forall u :: u != t ==> F.Pc(F.Step(b, y).m, u) == F.Pc(b.m, u)
    ensures var pc := F.Pc(F.Step(b, y).m, t);
      && (y.PushBegin? ==> pc.HasNode?) && (y.PushClear? ==> pc.Cleared?) && (y.PushSwap? ==> pc.Swapped?)
      && (y.PushLink? ==> pc.Outside?)
  {
    hide F.Inv, F.Step, F.Enabled;
    FunnelStep(b, q, y);
    OnlyThread(b, y, t);
    PushNext(b, y, t);
  }

  lemma PushQuiet(b: F.State, q: seq<nat>, t: nat, v: nat, node: nat)
    requires M.FunnelOk(b, q) && Still(b) && v != 0 && node != 0 && node !in b.m.heap
    ensures var b1 := F.Step(b, F.PushBegin(t, v, node)); var b2 := F.Step(b1, F.PushClear(t));
      var b3 := F.Step(b2, F.PushSwap(t));
      && F.Enabled(b.m, F.PushBegin(t, v, node)) && F.Enabled(b1.m, F.PushClear(t)) && F.Enabled(b2.m, F.PushSwap(t))
      && F.Enabled(b3.m, F.PushLink(t))
    ensures Still(Pushed(b, t, v, node))
  {
    hide M.FunnelOk, F.Step, After;
    PushAccess(b, q, F.PushBegin(t, v, node), t);
    var b1, q1 := F.Step(b, F.PushBegin(t, v, node)), After(b, q, F.PushBegin(t, v, node));
    PushAccess(b1, q1, F.PushClear(t), t);
    var b2, q2 := F.Step(b1, F.PushClear(t)), After(b1, q1, F.PushClear(t));
    PushAccess(b2, q2, F.PushSwap(t), t);
    var b3, q3 := F.Step(b2, F.PushSwap(t)), After(b2, q2, F.PushSwap(t));
    PushAccess(b3, q3, F.PushLink(t), t);
    var b4 := F.Step(b3, F.PushLink(t));
    assert Pushed(b, t, v, node) == b4;
  }

  lemma OnlyThread(b: F.State, y: F.Action, t: nat)
    requires ByThread(y, t)
    ensures F.Step(b, y).m.pop == b.m.pop && forall u :: u != t ==> F.Pc(F.Step(b, y).m, u) == F.Pc(b.m, u)
  {
  }

  /** A message that lands goes to a mailbox that exists, and its value is an address. */
  lemma LandsSomewhere(st: State, s: Place, m: Msg, a: nat)
    requires Inv(st) && Enabled(st.w, Deliver(s, m, a)) && M.Pushes(m)
    ensures M.Box(m) in st.w.queues && M.Value(m, a) != 0
  {
    hide SockOk, HeapOk, BoxesOk, OrdersOk, Config;
    assert SockAt(st, s);
    var heap, boxes, k, t := st.w.heap, st.w.queues.Keys, st.w.socks[s], st.h.tracks[s];
    if m.PictureReq? { PictureOrigin(heap, boxes, s, k, t, m); } else { TerminateSock(heap, boxes, s, k, t, m); }
    SendingSomewhere(boxes, s, k, t);
    hide Parse;
  }

  lemma SendingSomewhere(boxes: set<Place>, s: Place, k: Sock, t: Track)
    requires Sending(boxes, s, k, t)
    ensures k.dest in boxes
  {
  }

  lemma MimicLanding(n: M.Net, s: Place, m: Msg, a: nat) returns (vs: seq<M.Move>)
    requires M.NetOk(n) && Quiet(n) && Enabled(n.flow.w, Deliver(s, m, a)) && M.Pushes(m)
    ensures M.Moves(n, vs).flow == Step(n.flow, Deliver(s, m, a)) && Quiet(M.Moves(n, vs))
  {
    LandsSomewhere(n.flow, s, m, a);
    hide Inv;
    var P, v := M.Box(m), M.Value(m, a);
    assert P in n.boxes && M.FunnelOk(n.boxes[P], n.flow.w.queues[P]) && Still(n.boxes[P]);
    var node := FreshNode(n.boxes[P].m.heap.Keys);
    PushQuiet(n.boxes[P], n.flow.w.queues[P], 0, v, node);
    vs := LandMoves(n, s, m, a, node);
  }

  lemma LandMoves(n: M.Net, s: Place, m: Msg, a: nat, node: nat) returns (vs: seq<M.Move>)
    requires Quiet(n) && Enabled(n.flow.w, Deliver(s, m, a)) && M.Pushes(m) && M.Box(m) in n.boxes
    requires var b, v := n.boxes[M.Box(m)], M.Value(m, a);
      var b1 := F.Step(b, F.PushBegin(0, v, node)); var b2 := F.Step(b1, F.PushClear(0));
      var b3 := F.Step(b2, F.PushSwap(0));
      && F.Enabled(b.m, F.PushBegin(0, v, node)) && F.Enabled(b1.m, F.PushClear(0)) && F.Enabled(b2.m, F.PushSwap(0))
      && F.Enabled(b3.m, F.PushLink(0)) && Still(Pushed(b, 0, v, node))
    ensures M.Moves(n, vs).flow == Step(n.flow, Deliver(s, m, a)) && Quiet(M.Moves(n, vs))
  {
    hide F.Step, F.Enabled, Enabled, Step, M.Pushes, M.Box, M.Value, Still, M.Moves;
    var P, v, begin := M.Box(m), M.Value(m, a), M.LandBegin(s, m, a, 0, node);
    var l := M.Landing(m, a, 0, false);
    var b := n.boxes[P];
    var b1 := F.Step(b, F.PushBegin(0, v, node));
    var b2 := F.Step(b1, F.PushClear(0));
    var b3 := F.Step(b2, F.PushSwap(0));
    assert M.CanMove(n, begin);
    var n1 := M.Next(n, begin);
    assert n1 == M.Net(n.flow, n.boxes[P := b1], map[s := l]);
    var n2 := M.Next(n1, M.LandClear(s));
    assert M.CanMove(n1, M.LandClear(s)) && n2 == M.Net(n.flow, n.boxes[P := b2], map[s := l]);
    var n3 := M.Next(n2, M.LandSwap(s));
    assert M.CanMove(n2, M.LandSwap(s));
    assert n3 == M.Net(Step(n.flow, Deliver(s, m, a)), n.boxes[P := b3], map[s := l.(swapped := true)]);
    var n4 := M.Next(n3, M.LandLink(s));
    assert M.CanMove(n3, M.LandLink(s)) && n4.flow == Step(n.flow, Deliver(s, m, a)) && n4.landing == map[];
    assert n4.boxes == n.boxes[P := Pushed(b, 0, v, node)];
    hide M.Next;
    vs := [begin];
    MovesOne(n, begin);
    MovesMore(n, vs, M.LandClear(s));
    vs := vs + [M.LandClear(s)];
    MovesMore(n, vs, M.LandSwap(s));
    vs := vs + [M.LandSwap(s)];
    MovesMore(n, vs, M.LandLink(s));
    vs := vs + [M.LandLink(s)];
  }

  // ---------------------------------------------------------------- a receipt

  /** The funnel after one whole pop. */
  function Popped(b: F.State): F.State {
    F.Step(F.Step(F.Step(F.Step(F.Step(b, F.PopReadHead), F.PopReadNext), F.PopSetHead), F.PopReadValue), F.PopFree)
  }

  lemma PopKeepsThreads(b: F.State, y: F.Action)
    requires M.PopAction(y)
    ensures F.Step(b, y).m.push == b.m.push && (!y.PopSetHead? ==> F.Step(b, y).m.head == b.m.head)
    ensures y.PopReadHead? || y.PopReadNext? ==> F.Step(b, y).m.heap == b.m.heap
  {
  }

  /** The accesses of a pop that finds a linked node, one after the other. */
  ghost predicate PopReady(b: F.State, y: F.Action) {
    match y
    case PopReadHead => b.m.pop.Idle?
    case PopReadNext => b.m.pop.HasHead?
    case PopSetHead => b.m.pop.HasNext?
    case PopReadValue => b.m.pop.Moved?
    case PopFree => b.m.pop.HasValue?
    case _ => false
  }

  lemma ReadyEnabled(b: F.State, y: F.Action)
    requires PopReady(b, y)
    ensures F.Enabled(b.m, y) && M.PopAction(y)
  {
  }

  /** Is the head linked? */
  predicate Linked(b: F.State) {
    b.m.head in b.m.heap && b.m.heap[b.m.head].next != 0
  }

  lemma PopNext(b: F.State, y: F.Action)
    requires F.Inv(b) && PopReady(b, y) && !y.PopFree? && (y.PopReadNext? ==> Linked(b))
    ensures PopReady(F.Step(b, y), if y.PopReadHead? then F.PopReadNext else if y.PopReadNext? then F.PopSetHead
                                   else if y.PopSetHead? then F.PopReadValue else F.PopFree)
    ensures F.Step(b, y).m.push == b.m.push && (y.PopReadHead? ==> Linked(F.Step(b, y)) == Linked(b))
  {
    FR.PopMoves(b);
    PopKeepsThreads(b, y);
    hide F.Inv, F.Step;
  }

  /** One access of a pop: the funnel stays in order and holds what it held. */
  lemma PopAccess(b: F.State, q: seq<nat>, y: F.Action)
    requires M.FunnelOk(b, q) && PopReady(b, y) && !y.PopFree? && (y.PopReadNext? ==> Linked(b))
    ensures M.FunnelOk(F.Step(b, y), q) && F.Step(b, y).m.push == b.m.push && F.Enabled(b.m, y)
    ensures PopReady(F.Step(b, y), if y.PopReadHead? then F.PopReadNext else if y.PopReadNext? then F.PopSetHead
                                   else if y.PopSetHead? then F.PopReadValue else F.PopFree)
    ensures y.PopReadHead? ==> Linked(F.Step(b, y)) == Linked(b)
  {
    hide F.Inv, F.Step, F.Enabled, Linked;
    ReadyEnabled(b, y);
    FunnelStep(b, q, y);
    PopNext(b, y);
  }

  lemma StillLinked(b: F.State, q: seq<nat>)
    requires M.FunnelOk(b, q) && Still(b) && q != []
    ensures Linked(b) && PopReady(b, F.PopReadHead)
  {
    FR.HeadReady(b);
    hide F.Inv;
  }

  lemma PopEnds(b: F.State, q: seq<nat>)
    requires M.FunnelOk(b, q) && PopReady(b, F.PopFree)
    ensures F.Step(b, F.PopFree).m.pop.Idle? && F.Step(b, F.PopFree).m.push == b.m.push && F.Enabled(b.m, F.PopFree)
  {
    FR.PopMoves(b);
    PopKeepsThreads(b, F.PopFree);
    hide F.Inv, F.Step;
  }

  lemma PopQuiet(b: F.State, q: seq<nat>)
    requires M.FunnelOk(b, q) && Still(b) && q != []
    ensures var b1 := F.Step(b, F.PopReadHead); var b2 := F.Step(b1, F.PopReadNext); var b3 := F.Step(b2, F.PopSetHead);
      var b4 := F.Step(b3, F.PopReadValue);
      && F.Enabled(b.m, F.PopReadHead) && F.Enabled(b1.m, F.PopReadNext) && F.Enabled(b2.m, F.PopSetHead)
      && F.Enabled(b3.m, F.PopReadValue) && F.Enabled(b4.m, F.PopFree)
    ensures Still(Popped(b))
  {
    hide M.FunnelOk, F.Step, F.Enabled, PopReady, Linked;
    StillLinked(b, q);
    PopAccess(b, q, F.PopReadHead);
    var b1 := F.Step(b, F.PopReadHead);
    PopAccess(b1, q, F.PopReadNext);
    var b2 := F.Step(b1, F.PopReadNext);
    PopAccess(b2, q, F.PopSetHead);
    var b3 := F.Step(b2, F.PopSetHead);
    PopAccess(b3, q, F.PopReadValue);
    var b4 := F.Step(b3, F.PopReadValue);
    PopEnds(b4, q);
    assert Popped(b) == F.Step(b4, F.PopFree);
    SameThreads(b, F.Step(b4, F.PopFree));
  }

  lemma SameThreads(b: F.State, b': F.State)
    requires Still(b) && b'.m.push == b.m.push && b'.m.pop.Idle?
    ensures Still(b')
  {
    forall t ensures F.Pc(b'.m, t).Outside? {
      assert F.Pc(b.m, t).Outside?;
    }
  }

  lemma MimicTake(n: M.Net, s: Place) returns (vs: seq<M.Move>)
    requires M.NetOk(n) && Quiet(n) && Enabled(n.flow.w, Take(s))
    ensures M.Moves(n, vs).flow == Step(n.flow, Take(s)) && Quiet(M.Moves(n, vs))
  {
    hide Inv;
    TakeNonEmpty(n.flow.w, s);
    var P := Own(n, s);
    assert P in n.boxes && M.FunnelOk(n.boxes[P], n.flow.w.queues[P]) && Still(n.boxes[P]);
    PopQuiet(n.boxes[P], n.flow.w.queues[P]);
    vs := TakeMoves(n, s);
  }

  lemma TakeMoves(n: M.Net, s: Place) returns (vs: seq<M.Move>)
    requires Quiet(n) && s in n.flow.w.socks && n.flow.w.socks[s].pc.Idle? && Own(n, s) in n.boxes
    requires var b := n.boxes[Own(n, s)];
      var b1 := F.Step(b, F.PopReadHead); var b2 := F.Step(b1, F.PopReadNext); var b3 := F.Step(b2, F.PopSetHead);
      var b4 := F.Step(b3, F.PopReadValue);
      && F.Enabled(b.m, F.PopReadHead) && F.Enabled(b1.m, F.PopReadNext) && F.Enabled(b2.m, F.PopSetHead)
      && F.Enabled(b3.m, F.PopReadValue) && F.Enabled(b4.m, F.PopFree) && Still(Popped(b))
    ensures M.Moves(n, vs).flow == Step(n.flow, Take(s)) && Quiet(M.Moves(n, vs))
  {
    hide F.Step, F.Enabled, Step, Still, M.Moves;
    var P := Own(n, s);
    var b := n.boxes[P];
    var n1 := M.Next(n, M.Pop(s, F.PopReadHead));
    var b1 := F.Step(b, F.PopReadHead);
    assert n1 == n.(boxes := n.boxes[P := b1]);
    var n2 := M.Next(n1, M.Pop(s, F.PopReadNext));
    var b2 := F.Step(b1, F.PopReadNext);
    assert n2 == n.(boxes := n.boxes[P := b2]);
    var n3 := M.Next(n2, M.Pop(s, F.PopSetHead));
    var b3 := F.Step(b2, F.PopSetHead);
    assert n3 == n.(boxes := n.boxes[P := b3]);
    var n4 := M.Next(n3, M.Pop(s, F.PopReadValue));
    var b4 := F.Step(b3, F.PopReadValue);
    assert n4 == n.(boxes := n.boxes[P := b4]);
    var n5 := M.Next(n4, M.Pop(s, F.PopFree));
    assert n5 == M.Net(Step(n.flow, Take(s)), n.boxes[P := Popped(b)], n.landing);
    hide M.Next;
    vs := [M.Pop(s, F.PopReadHead)];
    MovesOne(n, M.Pop(s, F.PopReadHead));
    MovesMore(n, vs, M.Pop(s, F.PopReadNext));
    vs := vs + [M.Pop(s, F.PopReadNext)];
    MovesMore(n, vs, M.Pop(s, F.PopSetHead));
    vs := vs + [M.Pop(s, F.PopSetHead)];
    MovesMore(n, vs, M.Pop(s, F.PopReadValue));
    vs := vs + [M.Pop(s, F.PopReadValue)];
    MovesMore(n, vs, M.Pop(s, F.PopFree));
    vs := vs + [M.Pop(s, F.PopFree)];
  }

  // ---------------------------------------------------------------- runs

  lemma Mimic(n: M.Net, x: Action) returns (vs: seq<M.Move>)
    requires M.NetOk(n) && Quiet(n)
    ensures M.Moves(n, vs).flow == Step(n.flow, x) && Quiet(M.Moves(n, vs))
  {
    if !Enabled(n.flow.w, x) {
      vs := [];
    } else {
      hide M.NetOk, Quiet, Enabled, Step, M.Moves, M.Pushes;
      if x.Take? {
        vs := MimicTake(n, x.s);
      } else if x.Deliver? && M.Pushes(x.m) {
        vs := MimicLanding(n, x.s, x.m, x.a);
      } else {
        vs := MimicFlow(n, x);
      }
    }
  }

  /** Every run of the protocol with atomic mailboxes is one that it goes through with funnels. */
  lemma {:induction false} Mimics(n0: M.Net, xs: seq<Action>) returns (vs: seq<M.Move>)
    requires Begins(n0)
    ensures M.Moves(n0, vs).flow == Run(n0.flow, xs) && Quiet(M.Moves(n0, vs))
  {
    if xs == [] {
      vs := [];
      QuietBegin(n0);
    } else {
      hide Quiet, Step, Begins, M.Moves, M.NetOk;
      vs := Mimics(n0, xs[..|xs| - 1]);
      MovesOk(n0, vs);
      var us := Mimic(M.Moves(n0, vs), xs[|xs| - 1]);
      MovesSplit(n0, vs, us);
      vs := vs + us;
    }
  }

  lemma QuietBegin(n: M.Net)
    requires Begins(n)
    ensures Quiet(n)
  {
    forall P | P in n.boxes ensures Still(n.boxes[P]) {
      var stub: nat :| stub != 0 && n.boxes[P] == F.Init(stub);
    }
  }
}

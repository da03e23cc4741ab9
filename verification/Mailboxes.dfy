/**
 The protocol with its mailboxes as funnels. A handler that delivers a message runs
 through hfunnel_push access by access before it replies, and a receiver runs through
 hfunnel_pop. Any number of handlers may be inside the push of one mailbox, and a pop
 may find a gap and read NULL.
 */
module Mailboxes {
  import opened SockCodec
  import opened FloodModel
  import opened FloodInv
  import F = FunnelModel
  import FR = FunnelResults

  /** A handler inside hfunnel_push: its message, the address it allocated, its thread. */
  datatype Landing = Landing(m: Msg, a: nat, t: F.Tid, swapped: bool)

  /** flow is the protocol with atomic mailboxes; boxes are the funnels that it really has. */
  datatype Net = Net(flow: State, boxes: map<Place, F.State>, landing: map<Place, Landing>)

  datatype Move =
    | Flow(x: Action)                                          // a step that touches no mailbox
    | LandBegin(s: Place, m: Msg, a: nat, t: F.Tid, node: nat) // a handler up to the node it allocates
    | LandClear(s: Place)
    | LandSwap(s: Place)
    | LandLink(s: Place)                                       // and the reply is sent
    | Pop(s: Place, y: F.Action)                               // one access of hfunnel_pop

  /** The messages whose handlers push to a mailbox. */
  predicate Pushes(m: Msg) {
    m.TerminateReq? || (m.PictureReq? && |m.buf| >= HEADER && Parse(m.buf).payloadCount == 0)
  }

  function Box(m: Msg): Place
    requires Pushes(m)
  {
    match m
    case TerminateReq(_, to, _, mailbox, _) => Place(to, mailbox)
    case PictureReq(_, to, buf) => Place(to, Parse(buf).destMailbox)
  }

  /** The value pushed: the address of the frame array. */
  function Value(m: Msg, a: nat): nat
    requires Pushes(m)
  {
    if m.TerminateReq? then m.frames else a
  }

  /** A handler has allocated the array at p and not pushed it yet. */
  predicate Reserved(landing: map<Place, Landing>, p: Place) {
    exists s :: s in landing && !landing[s].swapped && landing[s].m.PictureReq? &&
                Place(landing[s].m.to, landing[s].a) == p
  }

  predicate PopAction(y: F.Action) {
    y.PopReadHead? || y.PopReadNext? || y.PopSetHead? || y.PopReadValue? || y.PopFree?
  }

  /** The thread of s is inside hfunnel_pop. */
  predicate Popping(n: Net, s: Place) {
    && s in n.flow.w.socks && Mail(s, n.flow.w.socks[s]) in n.boxes
    && n.boxes[Mail(s, n.flow.w.socks[s])].m.pop != F.Idle
  }

  predicate Allocates(n: Net, m: Msg, a: nat) {
    m.PictureReq? ==> !Reserved(n.landing, Place(m.to, a))
  }

  /** Is the handler that works for s at the point of this access? */
  predicate At(n: Net, s: Place, y: F.Action) {
    && s in n.landing && Pushes(n.landing[s].m) && Box(n.landing[s].m) in n.boxes
    && F.Enabled(n.boxes[Box(n.landing[s].m)].m, y)
  }

  predicate CanMove(n: Net, v: Move) {
    match v
    case Flow(x) =>
      && Enabled(n.flow.w, x) && !x.Take?
      && (x.Deliver? ==> x.s !in n.landing && !Pushes(x.m) && Allocates(n, x.m, x.a))
      && (x.Send? || x.Open? ==> !Popping(n, x.s))
    case LandBegin(s, m, a, t, node) =>
      && s !in n.landing && Enabled(n.flow.w, Deliver(s, m, a)) && Pushes(m) && Allocates(n, m, a)
      && Box(m) in n.boxes && F.Enabled(n.boxes[Box(m)].m, F.PushBegin(t, Value(m, a), node))
    case LandClear(s) => s in n.landing && At(n, s, F.PushClear(n.landing[s].t))
    case LandSwap(s) => s in n.landing && At(n, s, F.PushSwap(n.landing[s].t))
    case LandLink(s) => s in n.landing && At(n, s, F.PushLink(n.landing[s].t))
    case Pop(s, y) =>
      && s in n.flow.w.socks && n.flow.w.socks[s].pc.Idle? && Mail(s, n.flow.w.socks[s]) in n.boxes
      && PopAction(y) && F.Enabled(n.boxes[Mail(s, n.flow.w.socks[s])].m, y)
  }

  function Access(n: Net, M: Place, y: F.Action): map<Place, F.State>
    requires M in n.boxes
  {
    n.boxes[M := F.Step(n.boxes[M], y)]
  }

  /** The handler of a landing takes effect in the protocol with its swap, the receipt with the end of its pop. */
  function Moved(n: Net, v: Move): Net
    requires CanMove(n, v)
  {
    match v
    case Flow(x) => n.(flow := Step(n.flow, x))
    case LandBegin(s, m, a, t, node) =>
      n.(boxes := Access(n, Box(m), F.PushBegin(t, Value(m, a), node)),
         landing := n.landing[s := Landing(m, a, t, false)])
    case LandClear(s) => n.(boxes := Access(n, Box(n.landing[s].m), F.PushClear(n.landing[s].t)))
    case LandSwap(s) =>
      var l := n.landing[s];
      Net(Step(n.flow, Deliver(s, l.m, l.a)), Access(n, Box(l.m), F.PushSwap(l.t)), n.landing[s := l.(swapped := true)])
    case LandLink(s) =>
      n.(boxes := Access(n, Box(n.landing[s].m), F.PushLink(n.landing[s].t)), landing := n.landing - {s})
    case Pop(s, y) =>
      Net(if y.PopFree? then Step(n.flow, Take(s)) else n.flow, Access(n, Mail(s, n.flow.w.socks[s]), y), n.landing)
  }

  function Next(n: Net, v: Move): Net {
    if CanMove(n, v) then Moved(n, v) else n
  }

  function Moves(n: Net, vs: seq<Move>): Net {
    if vs == [] then n else Next(Moves(n, vs[..|vs| - 1]), vs[|vs| - 1])
  }

  // ---------------------------------------------------------------- invariant

  /** The funnel is in order, and holds what the atomic mailbox holds. */
  ghost predicate FunnelOk(b: F.State, q: seq<nat>) {
    F.Inv(b) && |b.h.popped| <= |b.h.order| && FR.Queue(b) == q
  }

  ghost predicate FunnelsOk(n: Net) {
    && n.boxes.Keys == n.flow.w.queues.Keys
    && forall M :: M in n.boxes ==> FunnelOk(n.boxes[M], n.flow.w.queues[M])
  }

  /** Where a handler stands, and that the protocol is ready for the effect of its swap. */
  ghost predicate LandingOk(flow: State, boxes: map<Place, F.State>, s: Place, l: Landing) {
    && Pushes(l.m) && Box(l.m) in boxes
    && var b := boxes[Box(l.m)];
       if l.swapped then F.Pc(b.m, l.t).Swapped?
       else
         && FR.Pending(F.Pc(b.m, l.t)) && F.Latest(b.h, l.t) == Value(l.m, l.a)
         && Enabled(flow.w, Deliver(s, l.m, l.a))
  }

  ghost predicate LandingsOk(n: Net) {
    forall s :: s in n.landing ==> LandingOk(n.flow, n.boxes, s, n.landing[s])
  }

  /** Handlers inside one mailbox are different threads, and their arrays are different. */
  ghost predicate Apart(landing: map<Place, Landing>) {
    forall s, u :: s in landing && u in landing && s != u && Pushes(landing[s].m) && Pushes(landing[u].m) ==>
      && (Box(landing[s].m) == Box(landing[u].m) ==> landing[s].t != landing[u].t)
      && (landing[s].m.PictureReq? && landing[u].m.PictureReq? && !landing[s].swapped && !landing[u].swapped ==>
          Place(landing[s].m.to, landing[s].a) != Place(landing[u].m.to, landing[u].a))
  }

  ghost predicate NetOk(n: Net) {
    Inv(n.flow) && FunnelsOk(n) && LandingsOk(n) && Apart(n.landing)
  }
}

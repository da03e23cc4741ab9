/**
 From a client to the server it asked for: the registry as the schedule of binds and
 unbinds determines it, what a connect leaves the client with, and that a message sent
 there reaches the server.
 */
module FloodEnds {
  import opened Picture
  import opened SockCodec
  import opened FloodModel
  import opened FloodInv
  import opened FloodHandlers
  import opened FloodResults
  import opened FloodProgress
  import opened FloodConnect
  import opened FloodCalls

  /** Who holds an endpoint: nobody, a mailbox that held it from the start, or the socket of the latest bind. */
  datatype Bound = Nobody | Before(mailbox: nat) | By(s: Place)

  /** The holder of endpoint e after this schedule, from its binds and unbinds alone. */
  function BoundTo(st0: State, xs: seq<Action>, e: Place): Bound {
    if xs == [] then if e in st0.w.bound then Before(st0.w.bound[e]) else Nobody
    else
      var ys, x := xs[..|xs| - 1], xs[|xs| - 1];
      var b := BoundTo(st0, ys, e);
      if x == Unbind(e.node, e.addr) then Nobody
      else if x.Bind? && Place(x.s.node, x.endpoint) == e && x.s in st0.w.socks && b == Nobody then By(x.s)
      else b
  }

  /** The mailbox of a holder. */
  function MailboxOf(st0: State, b: Bound): nat {
    match b
    case Nobody => 0
    case Before(box) => box
    case By(s) => if s in st0.w.socks then st0.w.socks[s].box else 0
  }

  ghost predicate HolderOk(st0: State, w: World, b: Bound, e: Place) {
    && (b == Nobody <==> e !in w.bound)
    && (b != Nobody ==> w.bound[e] == MailboxOf(st0, b))
    && (b.By? ==> b.s in st0.w.socks && b.s.node == e.node)
  }

  lemma PostKeepsBound()
    ensures forall w, p, m :: Post(w, p, m).bound == w.bound
    ensures forall w, p, a :: Enqueue(w, p, a).bound == w.bound
  {
  }

  lemma HandleKeepsBound(w: World, m: Msg, a: nat)
    ensures Handle(w, m, a).bound == w.bound
  {
    PostKeepsBound();
    hide Post, Enqueue, Parse, Splice, BlankFrames;
  }

  lemma StepHolder(st0: State, st: State, x: Action, b: Bound, b': Bound, e: Place)
    requires SamePlaces(st0.w, st.w) && HolderOk(st0, st.w, b, e)
    requires b' == if x == Unbind(e.node, e.addr) then Nobody
                   else if x.Bind? && Place(x.s.node, x.endpoint) == e && x.s in st0.w.socks && b == Nobody then By(x.s)
                   else b
    ensures HolderOk(st0, Step(st, x).w, b', e)
  {
    if Enabled(st.w, x) {
      if x.Deliver? {
        HandleKeepsBound(Drop(st.w, x.s, x.m), x.m, x.a);
        hide Handle;
      } else {
        hide PacketOf, LetterFits;
      }
    }
  }

  /** The registry is what the binds and unbinds of the schedule say. */
  lemma {:induction false} BoundIs(st0: State, xs: seq<Action>, e: Place)
    requires Start(st0)
    ensures HolderOk(st0, Run(st0, xs).w, BoundTo(st0, xs, e), e)
  {
    hide Step, HolderOk, Start;
    if xs == [] {
      assert HolderOk(st0, st0.w, BoundTo(st0, xs, e), e) by { StartHolder(st0, e); }
    } else {
      var ys, x := xs[..|xs| - 1], xs[|xs| - 1];
      BoundIs(st0, ys, e);
      RunSocks(st0, ys);
      hide Run;
      StepHolder(st0, Run(st0, ys), x, BoundTo(st0, ys, e), BoundTo(st0, xs, e), e);
    }
  }

  lemma StartHolder(st0: State, e: Place)
    ensures HolderOk(st0, st0.w, BoundTo(st0, [], e), e)
  {
  }

  /** The answer of the registry, from the schedule. */
  lemma AnswerIs(st0: State, xs: seq<Action>, e: Place)
    requires Start(st0)
    ensures Answer(Run(st0, xs).w, e) == MailboxOf(st0, BoundTo(st0, xs, e))
    ensures BoundTo(st0, xs, e) != Nobody <==> Answer(Run(st0, xs).w, e) != 0
  {
    BoundIs(st0, xs, e);
    Reached(st0, xs);
    BoundOk(Run(st0, xs), e);
    hide Run, Inv, Start;
  }

  // ---------------------------------------------------------------- connecting

  /** What a connect that got the answer v leaves behind. */
  ghost predicate Connected(k: Sock, k': Sock, node: nat, v: nat) {
    k'.pc == Idle && k'.server == if v != 0 then Place(node, v) else k.server
  }

  /**
   A connect that returns: its own request was handled in some step i since it began,
   and it leaves the client with the mailbox of whoever held the endpoint just before
   that step, by the binds and unbinds up to there. If nobody did, the client keeps
   the server it had.
   */
  lemma ConnectReturns(st0: State, xs: seq<Action>, s: Place) returns (o: nat, i: nat)
    requires Start(st0) && Enabled(Run(st0, xs).w, Opened(s))
    ensures var k := Run(st0, xs).w.socks[s]; var e := Place(k.pc.node, k.pc.endpoint);
      && OpensAt(st0, xs, o, s, k.pc.node, k.pc.endpoint) && o < i < |xs|
      && AnsweredAt(st0, xs, i, s, k.pc.node, k.pc.endpoint, MailboxOf(st0, BoundTo(st0, xs[..i], e)))
      && var b := BoundTo(st0, xs[..i], e);
         s in Run(st0, xs + [Opened(s)]).w.socks
         && var k' := Run(st0, xs + [Opened(s)]).w.socks[s];
            k'.pc == Idle && k'.server == if b == Nobody then k.server else Place(k.pc.node, MailboxOf(st0, b))
  {
    o, i := ConnectAnswer(st0, xs, s);
    var k := Run(st0, xs).w.socks[s];
    AnswerIs(st0, xs[..i], Place(k.pc.node, k.pc.endpoint));
    RunSplit(st0, xs, [Opened(s)]);
    RunOne(Run(st0, xs), Opened(s));
    OpenedStep(Run(st0, xs), s);
    hide Run, Enabled, Step, MailboxOf, BoundTo, Start;
  }

  lemma OpenedStep(st: State, s: Place)
    requires Enabled(st.w, Opened(s))
    ensures s in Step(st, Opened(s)).w.socks
    ensures Connected(st.w.socks[s], Step(st, Opened(s)).w.socks[s], st.w.socks[s].pc.node, st.w.socks[s].cell)
  {
  }

  /** The steps of an undisturbed connect that gets the answer v. */
  function ConnectCall(s: Place, node: nat, endpoint: nat, v: nat): seq<Action> {
    [Open(s, node, endpoint), Deliver(s, ConnectReq(s.node, node, endpoint, s.addr), 0),
     Deliver(s, SetCell(s.node, v, s.addr), 0), Opened(s)]
  }

  lemma RunFour(st: State, w: Action, x: Action, y: Action, z: Action)
    ensures Run(st, [w, x, y, z]) == Step(Step(Step(Step(st, w), x), y), z)
  {
    hide Step;
    RunOne(st, w);
    RunSplit(st, [w], [x]);
    RunOne(Step(st, w), x);
    RunSplit(st, [w, x], [y]);
    RunOne(Step(Step(st, w), x), y);
    RunSplit(st, [w, x, y], [z]);
    RunOne(Step(Step(Step(st, w), x), y), z);
    assert [w] + [x] == [w, x] && [w, x] + [y] == [w, x, y] && [w, x, y] + [z] == [w, x, y, z];
  }

  lemma OpenStep(st: State, s: Place, node: nat, endpoint: nat)
    requires s in st.w.socks && st.w.socks[s].pc == Idle && st.w.socks[s].wire == multiset{}
    ensures var st' := Step(st, Open(s, node, endpoint));
      && st'.h == st.h && st'.w.bound == st.w.bound && s in st'.w.socks
      && st'.w.socks[s] == st.w.socks[s].(cell := NOT_YET, pc := AwaitServer(node, endpoint),
                                          wire := multiset{ConnectReq(s.node, node, endpoint, s.addr)})
  {
  }

  lemma AskStep(st: State, s: Place, node: nat, endpoint: nat)
    requires s in st.w.socks && st.w.socks[s].wire == multiset{ConnectReq(s.node, node, endpoint, s.addr)}
    requires s in st.h.tracks
    ensures var st' := Step(st, Deliver(s, ConnectReq(s.node, node, endpoint, s.addr), 0));
      && st'.h.logs == st.h.logs && st'.w.bound == st.w.bound && s in st'.w.socks
      && st'.w.socks[s] == st.w.socks[s].(wire := multiset{SetCell(s.node, Answer(st.w, Place(node, endpoint)),
          s.addr)})
  {
    var m, r := ConnectReq(s.node, node, endpoint, s.addr),
        SetCell(s.node, Answer(st.w, Place(node, endpoint)), s.addr);
    assert multiset{m} - multiset{m} + multiset{r} == multiset{r};
    assert s == Place(s.node, s.addr);
  }

  lemma ReplyStep(st: State, s: Place, v: nat)
    requires s in st.w.socks && st.w.socks[s].wire == multiset{SetCell(s.node, v, s.addr)}
    ensures var st' := Step(st, Deliver(s, SetCell(s.node, v, s.addr), 0));
      && st'.h.logs == st.h.logs && st'.w.bound == st.w.bound && s in st'.w.socks
      && st'.w.socks[s] == st.w.socks[s].(wire := multiset{}, cell := v)
  {
    var m := SetCell(s.node, v, s.addr);
    assert multiset{m} - multiset{m} == multiset{};
    assert s == Place(s.node, s.addr);
  }

  lemma ConnectSteps(st: State, s: Place, node: nat, endpoint: nat)
    requires Inv(st) && s in st.w.socks && st.w.socks[s].pc == Idle
    ensures var v := Answer(st.w, Place(node, endpoint)); var st' := Run(st, ConnectCall(s, node, endpoint, v));
      && s in st'.w.socks && Connected(st.w.socks[s], st'.w.socks[s], node, v)
      && st'.h.logs == st.h.logs && st'.w.bound == st.w.bound
  {
    var v := Answer(st.w, Place(node, endpoint));
    var w, x, y, z := Open(s, node, endpoint), Deliver(s, ConnectReq(s.node, node, endpoint, s.addr), 0),
                      Deliver(s, SetCell(s.node, v, s.addr), 0), Opened(s);
    RunFour(st, w, x, y, z);
    BoundOk(st, Place(node, endpoint));
    NothingInFlight(st, s);
    OpenStep(st, s, node, endpoint);
    var st1 := Step(st, w);
    assert s in st1.h.tracks && Answer(st1.w, Place(node, endpoint)) == v;
    AskStep(st1, s, node, endpoint);
    var st2 := Step(st1, x);
    ReplyStep(st2, s, v);
    var st3 := Step(st2, y);
    assert Enabled(st3.w, z);
    OpenedStep(st3, s);
    hide Run, Inv;
    OpenedKeeps(st3, s);
  }

  lemma OpenedKeeps(st: State, s: Place)
    ensures Step(st, Opened(s)).h == st.h && Step(st, Opened(s)).w.bound == st.w.bound
  {
  }

  lemma NothingInFlight(st: State, s: Place)
    requires Inv(st) && s in st.w.socks && st.w.socks[s].pc == Idle
    ensures st.w.socks[s].wire == multiset{} && s in st.h.tracks
  {
    hide HeapOk, BoxesOk, OrdersOk, Config;
    assert SockAt(st, s);
  }

  /**
   From any moment at which s is idle, a connect can be run to its end, with the holder
   of that moment as its outcome.
   */
  lemma ConnectGoesThrough(st0: State, xs: seq<Action>, s: Place, node: nat, endpoint: nat) returns (ys: seq<Action>)
    requires Start(st0) && s in Run(st0, xs).w.socks && Run(st0, xs).w.socks[s].pc == Idle
    ensures |ys| > 0 && ys[0] == Open(s, node, endpoint) && forall i :: 0 < i < |ys| ==> Works(ys[i], s)
    ensures var b := BoundTo(st0, xs, Place(node, endpoint)); var st, st' := Run(st0, xs), Run(st0, xs + ys);
      && s in st'.w.socks && st'.w.socks[s].pc == Idle && st'.h.logs == st.h.logs
      && st'.w.socks[s].server == if b == Nobody then st.w.socks[s].server else Place(node, MailboxOf(st0, b))
  {
    var st, e := Run(st0, xs), Place(node, endpoint);
    Reached(st0, xs);
    hide Run, Inv, MailboxOf, BoundTo, Answer, Start, ConnectCall, Works;
    AnswerIs(st0, xs, e);
    ys := ConnectCall(s, node, endpoint, Answer(st.w, e));
    CallWorks(s, node, endpoint, Answer(st.w, e));
    RunSplit(st0, xs, ys);
    ConnectSteps(st, s, node, endpoint);
  }

  lemma CallWorks(s: Place, node: nat, endpoint: nat, v: nat)
    ensures var ys := ConnectCall(s, node, endpoint, v);
      |ys| > 0 && ys[0] == Open(s, node, endpoint) && forall i :: 0 < i < |ys| ==> Works(ys[i], s)
  {
  }

  // ---------------------------------------------------------------- receiving

  /** From any moment at which r is idle and mail is waiting, a receipt takes the oldest message. */
  lemma TakeDelivers(st0: State, xs: seq<Action>, r: Place)
    requires Start(st0) && r in Run(st0, xs).w.socks && Run(st0, xs).w.socks[r].pc == Idle
    requires var M := Mail(r, Run(st0, xs).w.socks[r]);
      M in Run(st0, xs).h.logs && |Run(st0, xs).h.logs[M].got| < |Run(st0, xs).h.logs[M].enq|
    ensures var st, st' := Run(st0, xs), Run(st0, xs + [Take(r)]); var M := Mail(r, st.w.socks[r]);
      M in st'.h.logs && st'.h.logs[M].got == st.h.logs[M].got + [st.h.logs[M].enq[|st.h.logs[M].got|].frames]
  {
    Reached(st0, xs);
    RunSplit(st0, xs, [Take(r)]);
    RunOne(Run(st0, xs), Take(r));
    hide Run;
    TakeStep(Run(st0, xs), r);
  }

  lemma TakeStep(st: State, r: Place)
    requires Inv(st) && r in st.w.socks && st.w.socks[r].pc == Idle
    requires var M := Mail(r, st.w.socks[r]); M in st.h.logs && |st.h.logs[M].got| < |st.h.logs[M].enq|
    ensures var st' := Step(st, Take(r)); var M := Mail(r, st.w.socks[r]);
      M in st'.h.logs && st'.h.logs[M].got == st.h.logs[M].got + [st.h.logs[M].enq[|st.h.logs[M].got|].frames]
  {
    hide SocksOk, HeapOk, OrdersOk, Config;
    var M := Mail(r, st.w.socks[r]);
    assert BoxAt(st, M);
  }

  /**
   End to end. The client s is idle, and the schedule so far leaves the endpoint to the
   socket u. Then s can connect and send, by steps on its own behalf, so that the
   mailbox of u has been given exactly this message, and by s.
   */
  lemma ClientReachesServer(st0: State, xs: seq<Action>, s: Place, u: Place, endpoint: nat, args: seq<Arg>)
    returns (ys: seq<Action>, zs: seq<Action>)
    requires Start(st0) && s in Run(st0, xs).w.socks && Run(st0, xs).w.socks[s].pc == Idle
    requires u in Run(st0, xs).w.socks && BoundTo(st0, xs, Place(u.node, endpoint)) == By(u)
    requires InRange(args) && 40 + |PackAll(args)| + 8 * |Payloads(args)| <= 4000
    ensures |ys| > 0 && ys[0] == Open(s, u.node, endpoint) && forall i :: 0 < i < |ys| ==> Works(ys[i], s)
    ensures forall i :: 0 <= i < |zs| ==> Works(zs[i], s)
    ensures s in Run(st0, xs + ys).w.socks
    ensures var st, mid := Run(st0, xs), Run(st0, xs + ys);
            var st' := Run(st0, xs + ys + [Send(s, mid.w.socks[s].server, args)] + zs);
            var M := Mail(u, st.w.socks[u]);
      && mid.w.socks[s].server == M && M in st.h.logs && M in st'.h.logs
      && st'.h.logs[M].enq == st.h.logs[M].enq + [Entry(s, LetterFrames(s, st.w.socks[s].box, Letter(M, args)))]
  {
    var st, M := Run(st0, xs), Mail(u, Run(st0, xs).w.socks[u]);
    Reached(st0, xs);
    RunSocks(st0, xs);
    ServerMailbox(st, u);
    ys := ConnectGoesThrough(st0, xs, s, u.node, endpoint);
    assert MailboxOf(st0, By(u)) == st.w.socks[u].box;
    RunSocks(st, ys);
    RunSplit(st0, xs, ys);
    var mid := Run(st0, xs + ys);
    hide Run, Inv, LetterFrames, BoundTo, Start, Works;
    zs := SendLands(st0, xs + ys, s, M, args);
  }

  lemma ServerMailbox(st: State, u: Place)
    requires Inv(st) && u in st.w.socks
    ensures Mail(u, st.w.socks[u]) in st.w.queues && Mail(u, st.w.socks[u]) in st.h.logs
    ensures st.w.socks[u].box < 0x1_0000_0000_0000_0000
  {
  }

  // ---------------------------------------------------------------- any order

  /** Whatever is in flight may be handled now, whatever else is in flight. */
  lemma AnyOrder(st0: State, xs: seq<Action>, s: Place, m: Msg, a: nat)
    requires Start(st0) && s in Run(st0, xs).w.socks && m in Run(st0, xs).w.socks[s].wire
    requires a != 0 && Place(m.to, a) !in Run(st0, xs).w.heap
    ensures var st, st' := Run(st0, xs), Run(st0, xs + [Deliver(s, m, a)]);
      s in st'.w.socks && st'.w.socks[s].wire[m] == st.w.socks[s].wire[m] - 1
  {
    Reached(st0, xs);
    RunSplit(st0, xs, [Deliver(s, m, a)]);
    RunOne(Run(st0, xs), Deliver(s, m, a));
    hide Run;
    HandledNow(Run(st0, xs), s, m, a);
  }

  lemma HandledNow(st: State, s: Place, m: Msg, a: nat)
    requires Inv(st) && s in st.w.socks && m in st.w.socks[s].wire && a != 0 && Place(m.to, a) !in st.w.heap
    ensures var st' := Step(st, Deliver(s, m, a));
      s in st'.w.socks && st'.w.socks[s].wire[m] == st.w.socks[s].wire[m] - 1
  {
    hide Inv;
    HandleLoses(Drop(st.w, s, m), m, a, s);
    hide Handle;
  }

  lemma PostAddsOne()
    ensures forall w: World, p, r, s: Place :: s in w.socks ==> s in Post(w, p, r).socks
    ensures forall w: World, p, r, s: Place, m: Msg :: s in w.socks && m != r ==>
      Post(w, p, r).socks[s].wire[m] == w.socks[s].wire[m]
    ensures forall w, p, a :: Enqueue(w, p, a).socks == w.socks
  {
  }

  /** A handler puts nothing but a reply in flight, and a reply puts nothing. */
  lemma HandleLoses(w: World, m: Msg, a: nat, s: Place)
    requires s in w.socks
    ensures s in Handle(w, m, a).socks && Handle(w, m, a).socks[s].wire[m] == w.socks[s].wire[m]
  {
    PostAddsOne();
    hide Post, Enqueue, Parse, Splice, BlankFrames;
  }

  /** A flood does not wait: its next step is ready at every moment, however many fragments are unacknowledged. */
  lemma FloodGoesOn(st: State, s: Place)
    requires s in st.w.socks && st.w.socks[s].pc.Flooding?
    ensures var k := st.w.socks[s];
      if k.pc.i >= |k.frames| then
        var st' := Step(st, EndFlood(s)); s in st'.w.socks && st'.w.socks[s].pc == AwaitCount(k.pc.fp, k.pc.counter)
      else if k.pc.offset >= |k.frames[k.pc.i]| then
        var st' := Step(st, NextFrame(s)); s in st'.w.socks && st'.w.socks[s].pc == k.pc.(i := k.pc.i + 1, offset := 0)
      else
        var st' := Step(st, SendFragment(s));
        s in st'.w.socks && st'.w.socks[s].pc.Flooding? && st'.w.socks[s].pc.counter == k.pc.counter + 1
        && |st'.w.socks[s].wire| == |k.wire| + 1
  {
  }
}

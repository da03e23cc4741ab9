/**
 A send or a connect always returns: every step on its behalf lowers a
 lexicographic measure, no other step changes that measure, and until it returns
 some step on its behalf is ready. This includes messages whose payloads are all
 empty, for which no fragment is sent.
 */
module FloodProgress {
  import opened Picture
  import opened SockCodec
  import opened FloodModel
  import opened FloodInv
  import opened FloodHandlers
  import opened FloodLanding
  import opened FloodDelivery
  import opened FloodResults

  datatype Measure = Measure(rank: nat, unsent: nat, inFlight: nat, requests: int)

  ghost predicate Less(a: Measure, b: Measure) {
    || a.rank < b.rank
    || (a.rank == b.rank && a.unsent < b.unsent)
    || (a.rank == b.rank && a.unsent == b.unsent && a.inFlight < b.inFlight)
    || (a.rank == b.rank && a.unsent == b.unsent && a.inFlight == b.inFlight && 0 <= a.requests < b.requests)
  }

  function Rank(pc: Pc): nat {
    match pc
    case Idle => 0
    case AwaitAck => 1
    case AwaitServer(_, _) => 1
    case AwaitTerm(_) => 1
    case AwaitCount(_, _) => 2
    case Flooding(_, _, _, _) => 3
    case AwaitFrames => 4
  }

  /** Frames and bytes still to be sent from the cursor on. */
  function Unsent(frames: seq<seq<Byte>>, i: nat, offset: nat): nat
    decreases |frames| - i
  {
    if i >= |frames| then 0
    else 1 + (if offset <= |frames[i]| then |frames[i]| - offset else 0) + Unsent(frames, i + 1, 0)
  }

  /** In-flight messages that are not replies. */
  function Requests(s: Place, k: Sock, t: Track): int {
    |k.wire| - k.wire[AddCell(s.node, 1, s.addr)] - k.wire[SetCell(s.node, t.reply, s.addr)]
  }

  function MeasureOf(s: Place, k: Sock, t: Track): Measure {
    Measure(Rank(k.pc), if k.pc.Flooding? then Unsent(k.frames, k.pc.i, k.pc.offset) else 0,
            |k.wire|, Requests(s, k, t))
  }

  function MeasureAt(st: State, s: Place): Measure
    requires s in st.w.socks && s in st.h.tracks
  {
    MeasureOf(s, st.w.socks[s], st.h.tracks[s])
  }

  /** x is a step of the call that s is in, or the delivery of one of its messages. */
  predicate Works(x: Action, s: Place) {
    match x
    case GotAck(u) => u == s
    case GotFrames(u) => u == s
    case SendFragment(u) => u == s
    case NextFrame(u) => u == s
    case EndFlood(u) => u == s
    case GotCount(u) => u == s
    case GotTerm(u) => u == s
    case Opened(u) => u == s
    case Deliver(u, _, _) => u == s
    case _ => false
  }

  // ---------------------------------------------------------------- every step of the call lowers the measure

  lemma OwnLowers(st: State, s: Place, x: Action)
    requires Inv(st) && Enabled(st.w, x) && Works(x, s) && !x.Deliver?
    ensures s in Step(st, x).w.socks && s in Step(st, x).h.tracks && Less(MeasureAt(Step(st, x), s), MeasureAt(st, s))
  {
    assert s in st.h.tracks;
    OwnMoves(st, s, x);
    hide Inv, Requests, Step, Enabled, Works;
    var k, k' := st.w.socks[s], Step(st, x).w.socks[s];
    if Rank(k'.pc) == Rank(k.pc) { CursorMoves(k.frames, k.pc.i, k.pc.offset, k'.pc.i, k'.pc.offset); }
    hide Unsent;
  }

  lemma CursorMoves(frames: seq<seq<Byte>>, i: nat, offset: nat, i': nat, offset': nat)
    requires i < |frames| && ((i' == i + 1 && offset' == 0) || (i' == i && offset < offset' <= |frames[i]|))
    ensures Unsent(frames, i', offset') < Unsent(frames, i, offset)
  {
    UnsentAt(frames, i, offset);
    if i' == i { UnsentAt(frames, i, offset'); }
    hide Unsent;
  }

  /** Outside the flood a step goes on to the next wait; inside, the cursor moves on. */
  lemma OwnMoves(st: State, s: Place, x: Action)
    requires Enabled(st.w, x) && Works(x, s) && !x.Deliver?
    ensures Step(st, x).h == st.h && s in st.w.socks && s in Step(st, x).w.socks
    ensures var k, k' := st.w.socks[s], Step(st, x).w.socks[s];
            && k'.frames == k.frames
            && (Rank(k'.pc) < Rank(k.pc)
                || (k.pc.Flooding? && k'.pc.Flooding? && k.pc.i < |k.frames|
                    && (k'.pc == k.pc.(i := k.pc.i + 1, offset := 0)
                        || (k'.pc.i == k.pc.i && k.pc.offset < k'.pc.offset <= |k.frames[k.pc.i]|))))
  {
  }

  lemma UnsentAt(frames: seq<seq<Byte>>, i: nat, offset: nat)
    requires i < |frames|
    ensures Unsent(frames, i, offset)
      == 1 + (if offset <= |frames[i]| then |frames[i]| - offset else 0) + Unsent(frames, i + 1, 0)
  {
  }

  lemma SetLowers(heap: Heap, boxes: set<Place>, s: Place, k: Sock, t: Track, m: Msg)
    requires SockOk(heap, boxes, s, k, t) && m in k.wire && (m.SetCell? || m.AddCell?)
    ensures Less(MeasureOf(s, k.(wire := k.wire - multiset{m}, cell := if m.SetCell? then m.val else k.cell + 1), t),
           MeasureOf(s, k, t))
  {
    assert |k.wire - multiset{m}| == |k.wire| - 1;
  }

  /** Handling a request puts its reply in its place. */
  lemma ReplyLowers(s: Place, k: Sock, t: Track, m: Msg, k': Sock, t': Track, r: Msg)
    requires m in k.wire && !m.SetCell? && !m.AddCell?
    requires k' == k.(wire := k.wire - multiset{m} + multiset{r})
    requires (r == AddCell(s.node, 1, s.addr) && t'.reply == t.reply)
      || (r == SetCell(s.node, t'.reply, s.addr) && k.wire == multiset{m})
    ensures Less(MeasureOf(s, k', t'), MeasureOf(s, k, t))
  {
    assert |k'.wire| == |k.wire|;
    RepliesFew(s, k', t');
  }

  lemma RepliesFew(s: Place, k: Sock, t: Track)
    ensures Requests(s, k, t) >= 0
  {
    var a, b := AddCell(s.node, 1, s.addr), SetCell(s.node, t.reply, s.addr);
    var rest := k.wire[a := 0][b := 0];
    assert k.wire == rest + multiset{}[a := k.wire[a]] + multiset{}[b := k.wire[b]];
  }

  /** What a lemma below says of one kind of message. */
  ghost predicate Lowers(st: State, st': State, s: Place) {
    && s in st.w.socks && s in st.h.tracks && s in st'.w.socks && s in st'.h.tracks
    && Less(MeasureAt(st', s), MeasureAt(st, s))
  }

  lemma PictureLowers(st: State, s: Place, m: Msg, a: nat)
    requires Inv(st) && Enabled(st.w, Deliver(s, m, a)) && m.PictureReq?
    ensures Lowers(st, Step(st, Deliver(s, m, a)), s)
  {
    hide Less, MeasureOf, SockOk, HeapOk, BoxesOk, OrdersOk, Config, Splice, BlankFrames, PacketOf, LetterFits;
    assert SockAt(st, s);
    PictureOrigin(st.w.heap, st.w.queues.Keys, s, st.w.socks[s], st.h.tracks[s], m);
    hide Parse, SocksOk;
    var st' := Step(st, Deliver(s, m, a));
    ReplyLowers(s, st.w.socks[s], st.h.tracks[s], m, st'.w.socks[s], st'.h.tracks[s],
                SetCell(s.node, st'.h.tracks[s].reply, s.addr));
  }

  lemma FragmentLowers(st: State, s: Place, m: Msg, a: nat)
    requires Inv(st) && Enabled(st.w, Deliver(s, m, a)) && m.FragmentReq?
    ensures Lowers(st, Step(st, Deliver(s, m, a)), s)
  {
    hide Less, MeasureOf, SockOk, HeapOk, BoxesOk, OrdersOk, Config, Splice;
    assert SockAt(st, s);
    FragmentSock(st.w.heap, st.w.queues.Keys, s, st.w.socks[s], st.h.tracks[s], m);
    hide SocksOk;
    var st' := Step(st, Deliver(s, m, a));
    ReplyLowers(s, st.w.socks[s], st.h.tracks[s], m, st'.w.socks[s], st'.h.tracks[s], AddCell(s.node, 1, s.addr));
  }

  lemma TerminateLowers(st: State, s: Place, m: Msg, a: nat)
    requires Inv(st) && Enabled(st.w, Deliver(s, m, a)) && m.TerminateReq?
    ensures Lowers(st, Step(st, Deliver(s, m, a)), s)
  {
    hide Less, MeasureOf, SockOk, HeapOk, BoxesOk, OrdersOk, Config;
    assert SockAt(st, s);
    TerminateSock(st.w.heap, st.w.queues.Keys, s, st.w.socks[s], st.h.tracks[s], m);
    SingleRequest(st.w.heap, st.w.queues.Keys, s, st.w.socks[s], st.h.tracks[s], m);
    hide SocksOk;
    var st' := Step(st, Deliver(s, m, a));
    ReplyLowers(s, st.w.socks[s], st.h.tracks[s], m, st'.w.socks[s], st'.h.tracks[s], SetCell(s.node, 1, s.addr));
  }

  lemma ConnectLowers(st: State, s: Place, m: Msg, a: nat)
    requires Inv(st) && Enabled(st.w, Deliver(s, m, a)) && m.ConnectReq?
    ensures Lowers(st, Step(st, Deliver(s, m, a)), s)
  {
    hide Less, MeasureOf, SockOk, HeapOk, BoxesOk, OrdersOk, Config;
    assert SockAt(st, s);
    ConnectSock(st.w.heap, st.w.queues.Keys, s, st.w.socks[s], st.h.tracks[s], m, 0);
    SingleRequest(st.w.heap, st.w.queues.Keys, s, st.w.socks[s], st.h.tracks[s], m);
    hide SocksOk;
    var st' := Step(st, Deliver(s, m, a));
    ReplyLowers(s, st.w.socks[s], st.h.tracks[s], m, st'.w.socks[s], st'.h.tracks[s],
                SetCell(s.node, st'.h.tracks[s].reply, s.addr));
  }

  lemma RepliesLower(st: State, s: Place, m: Msg, a: nat)
    requires Inv(st) && Enabled(st.w, Deliver(s, m, a)) && (m.SetCell? || m.AddCell?)
    ensures Lowers(st, Step(st, Deliver(s, m, a)), s)
  {
    hide Less, MeasureOf, SockOk, HeapOk, BoxesOk, OrdersOk, Config;
    assert SockAt(st, s);
    var heap, boxes, k, t := st.w.heap, st.w.queues.Keys, st.w.socks[s], st.h.tracks[s];
    if m.SetCell? { SetReplySock(heap, boxes, s, k, t, m); } else { AddReplySock(heap, boxes, s, k, t, m); }
    SetLowers(heap, boxes, s, k, t, m);
    hide SocksOk;
  }

  lemma DeliverLowers(st: State, s: Place, m: Msg, a: nat)
    requires Inv(st) && Enabled(st.w, Deliver(s, m, a))
    ensures Lowers(st, Step(st, Deliver(s, m, a)), s)
  {
    hide Inv, Step, Enabled, Lowers;
    match m
    case PictureReq(_, _, _) => PictureLowers(st, s, m, a);
    case FragmentReq(_, _, _, _, _, _, _) => FragmentLowers(st, s, m, a);
    case TerminateReq(_, _, _, _, _) => TerminateLowers(st, s, m, a);
    case ConnectReq(_, _, _, _) => ConnectLowers(st, s, m, a);
    case _ => RepliesLower(st, s, m, a);
  }

  lemma SingleRequest(heap: Heap, boxes: set<Place>, s: Place, k: Sock, t: Track, m: Msg)
    requires SockOk(heap, boxes, s, k, t) && m in k.wire && (m.TerminateReq? || m.ConnectReq?)
    ensures k.wire == multiset{m}
  {
    hide PacketOf, LetterFits, LetterFrames, Tiled, Shape, Payloads;
  }

  // ---------------------------------------------------------------- no other step matters

  /** A step that is not on behalf of s leaves s and its record as they are. */
  lemma OthersKeep(st: State, s: Place, x: Action)
    requires Inv(st) && s in st.w.socks && (st.w.socks[s].pc != Idle || x.Deliver?) && !Works(x, s)
    ensures s in Step(st, x).w.socks && Step(st, x).w.socks[s] == st.w.socks[s]
    ensures s in st.h.tracks && s in Step(st, x).h.tracks && Step(st, x).h.tracks[s] == st.h.tracks[s]
  {
    assert s in st.h.tracks;
    if Enabled(st.w, x) {
      if x.Deliver? {
        assert SockAt(st, x.s);
        NamesCell(st.w.heap, st.w.queues.Keys, x.s, st.w.socks[x.s], st.h.tracks[x.s], x.m);
        DeliveryConcernsOne(st, x);
      } else {
        ThreadConcernsOne(st.w, st.h, s, x);
      }
    }
    hide Inv, Enabled, Effect, Record, CellOf, SockAt;
  }

  /** A step of a thread touches no other socket. */
  lemma ThreadConcernsOne(w: World, h: History, s: Place, x: Action)
    requires s in w.socks && w.socks[s].pc != Idle && !x.Deliver? && !Works(x, s) && Enabled(w, x) && s in h.tracks
    ensures s in Effect(w, x).socks && Effect(w, x).socks[s] == w.socks[s]
    ensures s in Record(h, w, x).tracks && Record(h, w, x).tracks[s] == h.tracks[s]
  {
    hide PacketOf, LetterFits;
  }

  lemma OthersLeave(st: State, s: Place, x: Action)
    requires Inv(st) && s in st.w.socks && st.w.socks[s].pc != Idle && !Works(x, s)
    ensures s in Step(st, x).w.socks && s in Step(st, x).h.tracks && MeasureAt(Step(st, x), s) == MeasureAt(st, s)
  {
    hide Inv, Step, Works, MeasureOf;
    OthersKeep(st, s, x);
  }

  // ---------------------------------------------------------------- something is always ready

  /** An allocator always has an address left. */
  lemma {:induction false} FreshAddress(used: set<Place>) returns (a: nat)
    ensures a > 0 && forall p :: p in used ==> p.addr < a
  {
    if used == {} {
      a := 1;
    } else {
      var p :| p in used;
      a := FreshAddress(used - {p});
      if p.addr >= a { a := p.addr + 1; }
    }
  }

  lemma AnyMessage(b: multiset<Msg>) returns (m: Msg)
    requires b != multiset{}
    ensures m in b
  {
    m :| m in b;
  }

  /** With nothing in flight, the condition that the thread waits for holds. */
  lemma WaitIsOver(heap: Heap, boxes: set<Place>, s: Place, k: Sock, t: Track)
    requires SockOk(heap, boxes, s, k, t) && k.wire == multiset{}
    ensures k.pc == AwaitAck ==> k.cell != 0
    ensures k.pc == AwaitFrames ==> k.cell != 0
    ensures k.pc.AwaitCount? ==> k.cell == k.pc.counter
    ensures k.pc.AwaitTerm? ==> k.cell > 0
    ensures k.pc.AwaitServer? ==> k.cell != NOT_YET
  {
    hide PacketOf, LetterFits, LetterFrames, Tiled, Shape, Payloads;
  }

  /** Until the call returns, some step on its behalf is ready. */
  lemma SomeStepReady(st: State, s: Place) returns (x: Action)
    requires Inv(st) && s in st.w.socks && st.w.socks[s].pc != Idle
    ensures Works(x, s) && Enabled(st.w, x)
  {
    hide SockOk, HeapOk, BoxesOk, OrdersOk, Config, PacketOf, LetterFits;
    var k := st.w.socks[s];
    if k.wire != multiset{} {
      var m := AnyMessage(k.wire);
      var a := FreshAddress(st.w.heap.Keys);
      x := Deliver(s, m, a);
    } else {
      assert SockAt(st, s);
      WaitIsOver(st.w.heap, st.w.queues.Keys, s, k, st.h.tracks[s]);
      match k.pc
      case AwaitAck => x := GotAck(s);
      case AwaitFrames => x := GotFrames(s);
      case Flooding(_, i, offset, _) =>
        x := if i >= |k.frames| then EndFlood(s) else if offset >= |k.frames[i]| then NextFrame(s) else SendFragment(s);
      case AwaitCount(_, _) => x := GotCount(s);
      case AwaitTerm(_) => x := GotTerm(s);
      case AwaitServer(_, _) => x := Opened(s);
    }
  }

  /**
   From every reachable state in which socket s is inside a send or a connect: a
   step on its behalf is ready, each such step lowers the measure, every other step
   leaves it alone.
   */
  lemma CallsReturn(st0: State, xs: seq<Action>, s: Place, x: Action)
    requires Start(st0) && s in Run(st0, xs).w.socks && Run(st0, xs).w.socks[s].pc != Idle
    ensures exists y :: Works(y, s) && Enabled(Run(st0, xs).w, y)
    ensures s in Run(st0, xs).h.tracks && s in Step(Run(st0, xs), x).w.socks && s in Step(Run(st0, xs), x).h.tracks
    ensures Works(x, s) && Enabled(Run(st0, xs).w, x) ==>
      Less(MeasureAt(Step(Run(st0, xs), x), s), MeasureAt(Run(st0, xs), s))
    ensures !Works(x, s) ==> MeasureAt(Step(Run(st0, xs), x), s) == MeasureAt(Run(st0, xs), s)
  {
    Reached(st0, xs);
    var st := Run(st0, xs);
    assert s in st.h.tracks;
    hide Run, Inv, Less, MeasureOf;
    var y := SomeStepReady(st, s);
    hide Enabled, Works;
    assert Works(y, s) && Enabled(st.w, y);
    if !Works(x, s) {
      OthersLeave(st, s, x);
    } else if Enabled(st.w, x) {
      if x.Deliver? { DeliverLowersAt(st, s, x); } else { OwnLowers(st, s, x); }
    }
  }

  lemma DeliverLowersAt(st: State, s: Place, x: Action)
    requires Inv(st) && Enabled(st.w, x) && Works(x, s) && x.Deliver?
    ensures s in Step(st, x).w.socks && s in Step(st, x).h.tracks && Less(MeasureAt(Step(st, x), s), MeasureAt(st, s))
  {
    hide Inv, Enabled, Step, Less, MeasureOf;
    DeliverLowers(st, s, x.m, x.a);
  }

  lemma {:induction false} RunCons(st: State, x: Action, ys: seq<Action>)
    ensures Run(st, [x] + ys) == Run(Step(st, x), ys)
    decreases |ys|
  {
    hide Step;
    var all := [x] + ys;
    if ys == [] {
      assert all[..0] == [] && all[0] == x;
    } else {
      RunCons(st, x, ys[..|ys| - 1]);
      assert all[..|all| - 1] == [x] + ys[..|ys| - 1];
    }
  }

  /** One step towards the end of the call. */
  lemma LoweringStep(st: State, s: Place) returns (x: Action)
    requires Inv(st) && s in st.w.socks && st.w.socks[s].pc != Idle
    ensures Works(x, s) && Inv(Step(st, x)) && s in st.h.tracks
    ensures s in Step(st, x).w.socks && s in Step(st, x).h.tracks && Less(MeasureAt(Step(st, x), s), MeasureAt(st, s))
  {
    x := SomeStepReady(st, s);
    StepInv(st, x);
    assert s in st.h.tracks;
    hide Inv, Enabled, Step, Less, MeasureOf;
    if x.Deliver? { DeliverLowersAt(st, s, x); } else { OwnLowers(st, s, x); }
  }

  /** So from any reachable state the call can be run to its end, by at most as many steps as the measure allows. */
  lemma {:induction false} CanReturn(st: State, s: Place) returns (ys: seq<Action>)
    requires Inv(st) && s in st.w.socks && s in st.h.tracks
    ensures s in Run(st, ys).w.socks && Run(st, ys).w.socks[s].pc == Idle
    ensures forall i :: 0 <= i < |ys| ==> Works(ys[i], s)
    decreases MeasureAt(st, s).rank, MeasureAt(st, s).unsent, MeasureAt(st, s).inFlight, MeasureAt(st, s).requests
  {
    hide Inv, Enabled, Step, MeasureOf;
    if st.w.socks[s].pc == Idle {
      ys := [];
    } else {
      var x := LoweringStep(st, s);
      var rest := CanReturn(Step(st, x), s);
      RunCons(st, x, rest);
      ys := [x] + rest;
    }
  }
}

/** What the transmission protocol guarantees over every run. */
module FloodResults {
  import opened Picture
  import opened SockCodec
  import opened FloodModel
  import opened FloodInv
  import opened FloodFrame
  import opened FloodSender
  import opened FloodHandlers
  import opened FloodLanding

  // ---------------------------------------------------------------- the invariant over runs

  /** Any number of idle sockets with empty mailboxes, on any nodes. */
  ghost predicate Start(st: State) {
    && Domains(st) && Config(st.w) && st.w.heap == map[]
    && (forall s :: s in st.w.socks ==>
          st.w.socks[s].pc == Idle && st.w.socks[s].wire == multiset{} && st.h.tracks[s] == Track([], 0, 0, 0))
    && (forall M :: M in st.w.queues ==> st.w.queues[M] == [] && st.h.logs[M] == Log([], []))
  }

  /** Newly made sockets with these mailboxes, and nothing else. */
  function Fresh(boxes: map<Place, nat>): State {
    var mails := set s | s in boxes :: Place(s.node, boxes[s]);
    State(World(map s | s in boxes :: Sock(0, Idle, boxes[s], Place(0, 0), [], Place(0, 0), multiset{}),
                map[], map P | P in mails :: [], map[], false),
          History(map s | s in boxes :: Track([], 0, 0, 0), map P | P in mails :: Log([], [])))
  }

  /** They are a place to start from, whatever their number. */
  lemma Starts(boxes: map<Place, nat>)
    requires forall s :: s in boxes ==> s.node < 0x1_0000 && s.addr < 0x1_0000_0000_0000_0000
    requires forall s :: s in boxes ==> 0 != boxes[s] < 0xFFFF_FFFF_FFFF_FFFF
    requires forall s, t :: s in boxes && t in boxes && s != t ==> s.node != t.node || boxes[s] != boxes[t]
    ensures Start(Fresh(boxes)) && Fresh(boxes).w.socks.Keys == boxes.Keys
    ensures forall s :: s in boxes ==> Mail(s, Fresh(boxes).w.socks[s]) in Fresh(boxes).w.queues
  {
  }

  lemma StartInv(st: State)
    requires Start(st)
    ensures Inv(st)
  {
  }

  lemma RegistryConfig(st: State, x: Action)
    requires Inv(st) && Enabled(st.w, x) && (x.Bind? || x.Unbind?)
    ensures Config(Step(st, x).w)
  {
    hide SocksOk, HeapOk, BoxesOk, OrdersOk;
  }

  lemma RegistryInv(st: State, x: Action)
    requires Inv(st) && Enabled(st.w, x) && (x.Bind? || x.Unbind?)
    ensures Inv(Step(st, x))
  {
    hide SockOk, BoxOk, OrderOk, HeapOk, Config;
    var st' := Step(st, x);
    RegistryConfig(st, x);
    assert forall s :: s in st.w.socks ==> (SockAt(st', s) <==> SockAt(st, s));
    assert forall M :: M in st.w.queues ==> (BoxAt(st', M) <==> BoxAt(st, M));
    assert forall s, M :: s in st.w.socks && M in st.w.queues ==> (OrderAt(st', s, M) <==> OrderAt(st, s, M));
    assert forall s, p :: Builds(st', s, p) <==> Builds(st, s, p);
    HeapKept(st, st');
  }

  lemma DeliverInv(st: State, s: Place, m: Msg, a: nat)
    requires Inv(st) && Enabled(st.w, Deliver(s, m, a))
    ensures Inv(Step(st, Deliver(s, m, a)))
  {
    hide Inv, Step;
    match m
    case PictureReq(_, _, _) =>
      if st.w.socks[s].pc == AwaitAck { SingleInv(st, s, m, a); } else { AnnounceInv(st, s, m, a); }
    case FragmentReq(_, _, _, _, _, _, _) => DeliverFragmentInv(st, s, m, a);
    case TerminateReq(_, _, _, _, _) => TerminateInv(st, s, m, a);
    case ConnectReq(_, _, _, _) => DeliverConnectInv(st, s, m, a);
    case SetCell(_, _, _) => DeliverSetInv(st, s, m, a);
    case AddCell(_, _, _) => DeliverAddInv(st, s, m, a);
  }

  lemma StepInv(st: State, x: Action)
    requires Inv(st)
    ensures Inv(Step(st, x))
  {
    if Enabled(st.w, x) {
      hide Inv, Step, Enabled;
      match x
      case Send(s, dest, args) => SendInv(st, s, dest, args);
      case GotAck(s) => GotAckInv(st, s);
      case GotFrames(s) => GotFramesInv(st, s);
      case SendFragment(s) => SendFragmentInv(st, s);
      case NextFrame(s) => NextFrameInv(st, s);
      case EndFlood(s) => EndFloodInv(st, s);
      case GotCount(s) => GotCountInv(st, s);
      case GotTerm(s) => GotTermInv(st, s);
      case Open(s, node, endpoint) => OpenInv(st, s, node, endpoint);
      case Opened(s) => OpenedInv(st, s);
      case Take(s) => TakeInv(st, s);
      case Deliver(s, m, a) => DeliverInv(st, s, m, a);
      case Bind(_, _) => RegistryInv(st, x);
      case Unbind(_, _) => RegistryInv(st, x);
    }
  }

  lemma {:induction false} RunInv(st: State, xs: seq<Action>)
    requires Inv(st)
    ensures Inv(Run(st, xs))
  {
    hide Inv, Step;
    if xs != [] {
      RunInv(st, xs[..|xs| - 1]);
      StepInv(Run(st, xs[..|xs| - 1]), xs[|xs| - 1]);
    }
  }

  lemma Reached(st0: State, xs: seq<Action>)
    requires Start(st0)
    ensures Inv(Run(st0, xs))
  {
    hide Inv, Run;
    StartInv(st0);
    RunInv(st0, xs);
  }

  // ---------------------------------------------------------------- safety

  /** No handler ever touches unallocated memory, an unknown mailbox, or an unknown cell. */
  lemma NeverFaults(st0: State, xs: seq<Action>)
    requires Start(st0)
    ensures !Run(st0, xs).w.fault
  {
    hide Run;
    Reached(st0, xs);
  }

  /** The frame array named by termination request m holds the last message of s: frame i + 1 is payload i. */
  ghost predicate Complete(st: State, s: Place, m: Msg)
    requires m.TerminateReq?
  {
    var p := Place(m.to, m.frames);
    && s in st.w.socks && s in st.h.tracks && st.h.tracks[s].sent != []
    && var l := Last(st.h.tracks[s].sent);
    (&& Place(m.to, m.mailbox) == l.dest && p in st.w.heap && |st.w.heap[p]| == |Payloads(l.args)| + 1
     && st.w.heap[p][0] == PacketOf(s, st.w.socks[s].box, l)
     && forall i :: 0 <= i < |Payloads(l.args)| ==> st.w.heap[p][i + 1] == Payloads(l.args)[i])
  }

  /**
   Reassembly: whenever a termination request can be handled, the frame array it
   names is complete, byte for byte, whatever the order in which fragments arrived.
   */
  lemma Reassembled(st0: State, xs: seq<Action>, s: Place, m: Msg, a: nat)
    requires Start(st0) && Enabled(Run(st0, xs).w, Deliver(s, m, a)) && m.TerminateReq?
    ensures Complete(Run(st0, xs), s, m)
  {
    hide Run, Inv, Complete;
    Reached(st0, xs);
    CompleteAt(Run(st0, xs), s, m);
  }

  lemma CompleteAt(st: State, s: Place, m: Msg)
    requires Inv(st) && s in st.w.socks && m in st.w.socks[s].wire && m.TerminateReq?
    ensures Complete(st, s, m)
  {
    hide Payloads, PacketOf, HeapOk, BoxesOk, OrdersOk, SockOk, LetterFits;
    assert SockAt(st, s);
    TerminateSock(st.w.heap, st.w.queues.Keys, s, st.w.socks[s], st.h.tracks[s], m);
  }

  /**
   While fragments are outstanding, cell + messages in flight == fragments sent, and
   each message in flight that names the cell is an increment of it or a fragment of
   the message being sent. An idle socket has no message in flight.
   */
  lemma Acknowledgements(st0: State, xs: seq<Action>, s: Place)
    requires Start(st0) && s in Run(st0, xs).w.socks
    ensures var k := Run(st0, xs).w.socks[s];
      k.pc.Flooding? || k.pc.AwaitCount? ==> k.cell + |k.wire| == k.pc.counter && BagOk(s, k, k.pc.fp)
    ensures var k := Run(st0, xs).w.socks[s]; k.pc == Idle ==> k.wire == multiset{}
  {
    Reached(st0, xs);
    var st := Run(st0, xs);
    hide Run, SockOk, HeapOk, BoxesOk, OrdersOk, Config, BagOk;
    assert SockAt(st, s);
    Outstanding(st.w.heap, st.w.queues.Keys, s, st.w.socks[s], st.h.tracks[s]);
  }

  lemma Outstanding(heap: Heap, boxes: set<Place>, s: Place, k: Sock, t: Track)
    requires SockOk(heap, boxes, s, k, t)
    ensures k.pc.Flooding? || k.pc.AwaitCount? ==> k.cell + |k.wire| == k.pc.counter && BagOk(s, k, k.pc.fp)
    ensures k.pc == Idle ==> k.wire == multiset{}
  {
    hide Tiled, Shape, Sending, FragmentOk;
  }

  /** What mailbox M received from s is everything s sent there, or everything but the message still under way. */
  ghost predicate LandedOnce(st: State, s: Place, M: Place) {
    && s in st.w.socks && s in st.h.tracks && M in st.h.logs
    && var t, box, from_ := st.h.tracks[s], st.w.socks[s].box, From(st.h.logs[M].enq, s);
    (from_ == To(t.sent, s, box, M)
     || (st.w.socks[s].pc != Idle && t.sent != [] && from_ == To(t.sent[..|t.sent| - 1], s, box, M)))
  }

  /** Each send puts its message into its mailbox exactly once: before it returns, and never twice. */
  lemma LandsOnce(st0: State, xs: seq<Action>, s: Place, M: Place)
    requires Start(st0) && s in Run(st0, xs).w.socks && M in Run(st0, xs).w.queues
    ensures LandedOnce(Run(st0, xs), s, M)
  {
    Reached(st0, xs);
    var st := Run(st0, xs);
    hide Run, HeapOk, BoxesOk, SockOk, From, To;
    assert SockAt(st, s) && OrderAt(st, s, M);
    var t := st.h.tracks[s];
    LandedBounds(st.w.heap, st.w.queues.Keys, s, st.w.socks[s], t);
    assert t.sent[..|t.sent|] == t.sent;
  }

  lemma LandedBounds(heap: Heap, boxes: set<Place>, s: Place, k: Sock, t: Track)
    requires SockOk(heap, boxes, s, k, t)
    ensures t.landed == |t.sent| || (t.sent != [] && t.landed == |t.sent| - 1)
    ensures k.pc == Idle ==> t.landed == |t.sent|
  {
  }

  lemma {:induction false} FromPrefix(es: seq<Entry>, n: nat, s: Place)
    requires n <= |es|
    ensures From(es[..n], s) <= From(es, s)
    decreases |es|
  {
    if n == |es| {
      assert es[..n] == es;
    } else {
      FromPrefix(es[..|es| - 1], n, s);
      assert es[..|es| - 1][..n] == es[..n];
    }
  }

  lemma {:induction false} ToPrefix(ls: seq<Letter>, n: nat, s: Place, box: nat, M: Place)
    requires n <= |ls|
    ensures To(ls[..n], s, box, M) <= To(ls, s, box, M)
    decreases |ls|
  {
    if n == |ls| {
      assert ls[..n] == ls;
    } else {
      ToPrefix(ls[..|ls| - 1], n, s, box, M);
      assert ls[..|ls| - 1][..n] == ls[..n];
    }
  }

  /** Popped contents are the oldest pushed entries, in order; those from s are a prefix of what s sent to M. */
  ghost predicate InOrder(st: State, s: Place, M: Place) {
    && s in st.w.socks && s in st.h.tracks && M in st.h.logs
    && var l := st.h.logs[M];
    (|l.got| <= |l.enq|
     && (forall k :: 0 <= k < |l.got| ==> l.got[k] == l.enq[k].frames)
     && From(l.enq[..|l.got|], s) <= To(st.h.tracks[s].sent, s, st.w.socks[s].box, M))
  }

  /** End to end, per sender: messages arrive in the order sent, with equal contents. */
  lemma ReceivedInOrder(st0: State, xs: seq<Action>, s: Place, M: Place)
    requires Start(st0) && s in Run(st0, xs).w.socks && M in Run(st0, xs).w.queues
    ensures InOrder(Run(st0, xs), s, M)
  {
    Reached(st0, xs);
    var st := Run(st0, xs);
    hide Run, HeapOk, SocksOk, From, To;
    assert OrderAt(st, s, M) && BoxAt(st, M);
    FromPrefix(st.h.logs[M].enq, |st.h.logs[M].got|, s);
    ToPrefix(st.h.tracks[s].sent, st.h.tracks[s].landed, s, st.w.socks[s].box, M);
  }

  /**
   Unpacking a delivered message with its own picture behind an 's' yields the
   sender's node and mailbox and then every argument.
   */
  lemma DeliveredDecodes(s: Place, box: nat, l: Letter, targets: seq<bool>)
    requires LetterFits(s, box, l) && |targets| == |l.args| && AllWanted(targets)
    ensures Receive(LetterFrames(s, box, l), "s" + Codes(l.args), [true] + targets)
      == Done([Sender(s.node, box)] + ReceivedAll(l.args))
  {
    CodesAgree(l.args);
    SocketRoundTripWithSender(HeaderOf(s, box, l), Codes(l.args), l.args, targets);
  }

  /** The (node, mailbox) pair that a receiver reads names the mailbox of that sender and of no other socket. */
  lemma ReplyAddress(st0: State, xs: seq<Action>, s: Place, l: Letter)
    requires Start(st0) && s in Run(st0, xs).w.socks && LetterFits(s, Run(st0, xs).w.socks[s].box, l)
    ensures |LetterFrames(s, Run(st0, xs).w.socks[s].box, l)[0]| >= HEADER
    ensures var w := Run(st0, xs).w; var b := LetterFrames(s, w.socks[s].box, l)[0];
                                     Place(Parse(b).srcNode, Parse(b).srcMailbox) == Mail(s, w.socks[s])
    ensures var w := Run(st0, xs).w; Mail(s, w.socks[s]) in w.queues
    ensures var w := Run(st0, xs).w; forall t :: t in w.socks && Mail(t, w.socks[t]) == Mail(s, w.socks[s]) ==> t == s
  {
    Reached(st0, xs);
    PacketFacts(s, Run(st0, xs).w.socks[s].box, l);
    hide Run, HeapOk, SocksOk, BoxesOk, OrdersOk;
  }

  /** A connect obtains what the registry said when the request was handled: a mailbox that exists, or NULL. */
  lemma ConnectOutcome(st0: State, xs: seq<Action>, s: Place)
    requires Start(st0) && Enabled(Run(st0, xs).w, Opened(s))
    ensures s in Run(st0, xs).h.tracks && Run(st0, xs).w.socks[s].cell == Run(st0, xs).h.tracks[s].reply
    ensures var w := Run(st0, xs).w; w.socks[s].cell != 0 ==> Place(w.socks[s].pc.node, w.socks[s].cell) in w.queues
  {
    Reached(st0, xs);
    hide Run, Inv;
    ConnectOutcomeAt(Run(st0, xs), s);
  }

  lemma ConnectOutcomeAt(st: State, s: Place)
    requires Inv(st) && Enabled(st.w, Opened(s))
    ensures s in st.h.tracks && st.w.socks[s].cell == st.h.tracks[s].reply
    ensures st.w.socks[s].cell != 0 ==> Place(st.w.socks[s].pc.node, st.w.socks[s].cell) in st.w.queues
  {
    hide HeapOk, BoxesOk, OrdersOk, Config;
    assert SockAt(st, s);
  }
}

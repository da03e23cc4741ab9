/** Allocation of frame arrays, and the two ways in which a message reaches its mailbox. */
module FloodLanding {
  import opened Picture
  import opened SockCodec
  import opened FloodModel
  import opened FloodInv
  import opened FloodFrame
  import opened FloodSender

  // ---------------------------------------------------------------- the packet at the handler

  /** The handler reads back the sender's header, and allocates frames of the sizes of the payloads. */
  lemma PacketFacts(s: Place, box: nat, l: Letter)
    requires LetterFits(s, box, l)
    ensures var b, n := PacketOf(s, box, l), |Payloads(l.args)|;
            && |b| >= HEADER && 8 * n <= |b| && Parse(b) == HeaderOf(s, box, l)
            && Shape([b] + BlankFrames(b, n), b, Payloads(l.args))
  {
    var h, b, fs := HeaderOf(s, box, l), PacketOf(s, box, l), Payloads(l.args);
    HeaderRoundTrip(h, PackAll(l.args) + SizeTable(fs));
    CodesAgree(l.args);
    PayloadsSmall(Codes(l.args), l.args);
    hide Packet, Parse, Payloads, PackAll, SizeTable, TailSize, HeaderOf;
    assert |b| >= 8 * |fs| by { PacketLength(h, l.args); }
    forall i: nat | i < |fs| ensures |BlankFrames(b, |fs|)[i]| == |fs[i]| {
      TailSizesRoundTrip(h, l.args, i);
    }
    var arr := [b] + BlankFrames(b, |fs|);
    assert forall j :: 0 <= j < |fs| ==> arr[j + 1] == BlankFrames(b, |fs|)[j];
  }

  lemma PacketLength(h: Header, args: seq<Arg>)
    ensures |Packet(h, args)| == PacketSize(args)
  {
  }

  // ---------------------------------------------------------------- a multi-frame message is announced

  /** A picture request comes from the socket in whose bag it is, and describes that socket's last message. */
  lemma PictureOrigin(heap: Heap, boxes: set<Place>, s: Place, k: Sock, t: Track, m: Msg)
    requires SockOk(heap, boxes, s, k, t) && m in k.wire && m.PictureReq?
    ensures Sending(boxes, s, k, t) && t.building == 0 && t.landed == |t.sent| - 1 && m.from == s.node
    ensures m.to == k.dest.node
    ensures k.wire == multiset{m} && k.cell == 0
    ensures m.buf == PacketOf(s, k.box, Last(t.sent)) && |m.buf| >= HEADER && 8 * Parse(m.buf).payloadCount <= |m.buf|
    ensures Parse(m.buf).atomicObj == s.addr && Parse(m.buf).destMailbox == k.dest.addr
    ensures Parse(m.buf).payloadCount == |k.frames| && (|k.frames| == 0 <==> k.pc == AwaitAck)
  {
    assert Sending(boxes, s, k, t);
    PacketFacts(s, k.box, Last(t.sent));
  }

  lemma AnnounceSock(heap: Heap, boxes: set<Place>, s: Place, k: Sock, t: Track, m: Msg, a: nat, heap': Heap)
    requires SockOk(heap, boxes, s, k, t) && m in k.wire && m.PictureReq? && a != 0
    requires |m.buf| >= HEADER && 8 * Parse(m.buf).payloadCount <= |m.buf| && Parse(m.buf).payloadCount != 0
    requires Place(m.to, a) in heap' && heap'[Place(m.to, a)] == [m.buf] + BlankFrames(m.buf, Parse(m.buf).payloadCount)
    ensures SockOk(heap', boxes, s, k.(wire := k.wire - multiset{m} + multiset{SetCell(s.node, a, s.addr)}),
                   t.(building := a, reply := a))
  {
    PictureOrigin(heap, boxes, s, k, t, m);
    PacketFacts(s, k.box, Last(t.sent));
    hide PacketOf, LetterFits, Payloads, LetterFrames, Tiled, Parse, BlankFrames, Shape, BagOk;
    assert k.wire - multiset{m} + multiset{SetCell(s.node, a, s.addr)} == multiset{SetCell(s.node, a, s.addr)};
  }

  lemma AnnounceHeap(st: State, st': State, s: Place, p: Place)
    requires HeapOk(st) && OnlySock(st, st', s) && p !in st.w.heap && p in st'.w.heap
    requires st'.w.heap.Keys == st.w.heap.Keys + {p}
    requires st'.w.queues == st.w.queues && st.h.tracks[s].building == 0
    requires forall x :: Builds(st', s, x) ==> x == p
    ensures HeapOk(st')
  {
    assert forall M, k, x :: Queued(st'.w, M, k, x) <==> Queued(st.w, M, k, x);
    assert forall t, x :: t != s ==> (Builds(st', t, x) <==> Builds(st, t, x));
    hide Queued, Builds;
  }

  lemma AnnounceInv(st: State, s: Place, m: Msg, a: nat)
    requires Inv(st) && Enabled(st.w, Deliver(s, m, a)) && m.PictureReq? && st.w.socks[s].pc != AwaitAck
    ensures Inv(Step(st, Deliver(s, m, a)))
  {
    hide SockOk, BoxOk, OrderOk, Config, HeapOk, BlankFrames, PacketOf, LetterFits;
    assert SockAt(st, s);
    var k, t, p := st.w.socks[s], st.h.tracks[s], Place(m.to, a);
    PictureOrigin(st.w.heap, st.w.queues.Keys, s, k, t, m);
    var st' := Step(st, Deliver(s, m, a));
    AnnounceSock(st.w.heap, st.w.queues.Keys, s, k, t, m, a, st'.w.heap);
    hide Parse, SocksOk, BoxesOk, OrdersOk;
    NoFault(st);
    assert SockAt(st', s);
    AnnounceRest(st, st', s, p);
  }

  lemma AnnounceRest(st: State, st': State, s: Place, p: Place)
    requires Inv(st) && OnlySock(st, st', s) && SockAt(st', s) && p !in st.w.heap && p in st'.w.heap
    requires st'.w.heap == st.w.heap[p := st'.w.heap[p]]
    requires st'.w.queues == st.w.queues && st'.w.bound == st.w.bound && !st'.w.fault && st'.h.logs == st.h.logs
    requires st'.h.tracks[s].sent == st.h.tracks[s].sent && st'.h.tracks[s].landed == st.h.tracks[s].landed
    requires st.h.tracks[s].building == 0 && forall x :: Builds(st', s, x) ==> x == p
    ensures Inv(st')
  {
    hide SockOk, BoxOk, OrderOk;
    ConfigKept(st.w, st'.w, s);
    AnnounceHeap(st, st', s, p);
    OthersKept(st, st', s);
    BoxesKept(st, st');
    OrdersKept(st, st', s);
  }

  // ---------------------------------------------------------------- a message lands

  /** Array p, which nobody else uses, becomes the newest entry of mailbox M, as the next message of s. */
  ghost predicate Lands(st: State, st': State, s: Place, M: Place, p: Place) {
    && OnlySock(st, st', s) && M in st.w.queues && p.node == M.node && p.addr != 0 && p in st'.w.heap
    && (st'.w.heap == st.w.heap || (p !in st.w.heap && st'.w.heap == st.w.heap[p := st'.w.heap[p]]))
    && st'.w.queues == st.w.queues[M := st.w.queues[M] + [p.addr]]
    && st'.h.logs == st.h.logs[M := st.h.logs[M].(enq := st.h.logs[M].enq + [Entry(s, st'.w.heap[p])])]
    && st'.w.bound == st.w.bound && !st'.w.fault
    && (forall t :: t != s ==> !Builds(st, t, p)) && (forall N, k :: !Queued(st.w, N, k, p))
    && var t, t' := st.h.tracks[s], st'.h.tracks[s];
    && t'.sent == t.sent && t'.building == 0 && t'.landed == t.landed + 1 <= |t.sent|
    && t.sent[t.landed].dest == M && LetterFrames(s, st.w.socks[s].box, t.sent[t.landed]) == st'.w.heap[p]
  }

  lemma LandQueued(st: State, st': State, s: Place, M: Place, p: Place)
    requires Lands(st, st', s, M, p)
    ensures forall N, k, x ::
      Queued(st'.w, N, k, x) <==> Queued(st.w, N, k, x) || (N == M && k == |st.w.queues[M]| && x == p)
    ensures forall t, x :: Builds(st', t, x) ==> t != s && Builds(st, t, x)
  {
    hide LetterFrames;
    forall N, k, x
      ensures Queued(st'.w, N, k, x) <==> Queued(st.w, N, k, x) || (N == M && k == |st.w.queues[M]| && x == p)
    {
    }
  }

  lemma LandHeap(st: State, st': State, s: Place, M: Place, p: Place)
    requires HeapOk(st) && Lands(st, st', s, M, p)
    ensures HeapOk(st')
  {
    LandQueued(st, st', s, M, p);
    hide Queued, Builds, LetterFrames, OnlySock;
  }

  lemma LandBoxes(st: State, st': State, s: Place, M: Place, p: Place)
    requires Lands(st, st', s, M, p) && HeapOk(st) && BoxesOk(st)
    ensures BoxesOk(st')
  {
    hide LetterFrames;
    forall N | N in st'.w.queues ensures BoxAt(st', N) {
      assert BoxAt(st, N);
      assert forall k :: 0 <= k < |st.w.queues[N]| ==> Queued(st.w, N, k, Place(N.node, st.w.queues[N][k]));
    }
  }

  lemma FromSnoc(es: seq<Entry>, e: Entry, s: Place)
    ensures From(es + [e], s) == From(es, s) + if e.src == s then [e.frames] else []
  {
    assert (es + [e])[..|es|] == es;
  }

  lemma ToSnoc(ls: seq<Letter>, n: nat, s: Place, box: nat, M: Place)
    requires n < |ls|
    ensures To(ls[..n + 1], s, box, M)
      == To(ls[..n], s, box, M) + if ls[n].dest == M then [LetterFrames(s, box, ls[n])] else []
  {
    assert ls[..n + 1][..n] == ls[..n];
  }

  lemma LandOrders(st: State, st': State, s: Place, M: Place, p: Place)
    requires Lands(st, st', s, M, p) && OrdersOk(st)
    ensures OrdersOk(st')
  {
    var e := Entry(s, st'.w.heap[p]);
    forall t, N | t in st'.w.socks && N in st'.w.queues ensures OrderAt(st', t, N) {
      assert OrderAt(st, t, N);
      FromSnoc(st.h.logs[M].enq, e, t);
      ToSnoc(st.h.tracks[s].sent, st.h.tracks[s].landed, s, st.w.socks[s].box, N);
      hide From, To, LetterFrames;
    }
    hide LetterFrames;
    forall N, k | N in st'.w.queues && 0 <= k < |st'.h.logs[N].enq| ensures st'.h.logs[N].enq[k].src in st'.w.socks {
      if k < |st.h.logs[N].enq| { assert st.h.logs[N].enq[k].src in st.w.socks; }
    }
  }

  lemma LandRest(st: State, st': State, s: Place, M: Place, p: Place)
    requires Inv(st) && Lands(st, st', s, M, p) && SockAt(st', s)
    ensures Inv(st')
  {
    LandHeap(st, st', s, M, p);
    LandBoxes(st, st', s, M, p);
    LandOrders(st, st', s, M, p);
    hide SockOk, BoxOk, OrderOk, LetterFrames;
    ConfigKept(st.w, st'.w, s);
    OthersKept(st, st', s);
  }

  lemma SingleSock(heap: Heap, boxes: set<Place>, s: Place, k: Sock, t: Track, m: Msg, heap': Heap)
    requires SockOk(heap, boxes, s, k, t) && m in k.wire && m.PictureReq? && k.pc == AwaitAck
    ensures SockOk(heap', boxes, s, k.(wire := k.wire - multiset{m} + multiset{SetCell(s.node, 1, s.addr)}),
                   t.(landed := t.landed + 1, building := 0, reply := 1))
    ensures t.sent[t.landed] == Last(t.sent) && LetterFrames(s, k.box, Last(t.sent)) == [m.buf]
  {
    hide PacketOf, LetterFits, Tiled, Parse;
    assert k.wire == multiset{m};
    assert k.wire - multiset{m} + multiset{SetCell(s.node, 1, s.addr)} == multiset{SetCell(s.node, 1, s.addr)};
    assert [m.buf] + [] == [m.buf];
  }

  /** What handling a picture request without payloads does, written out. */
  lemma SingleStep(st: State, s: Place, m: Msg, a: nat, M: Place)
    requires Enabled(st.w, Deliver(s, m, a)) && m.PictureReq? && s in st.h.tracks
    requires |m.buf| >= HEADER && Parse(m.buf).payloadCount == 0
    requires Place(m.from, Parse(m.buf).atomicObj) == s && M == Place(m.to, Parse(m.buf).destMailbox)
    requires M in st.w.queues && M in st.h.logs
    ensures var k, t := st.w.socks[s], st.h.tracks[s];
      var k' := k.(wire := k.wire - multiset{m} + multiset{SetCell(s.node, 1, s.addr)});
      && Step(st, Deliver(s, m, a)).w == st.w.(
           socks := st.w.socks[s := k'], heap := st.w.heap[Place(m.to, a) := [m.buf]],
           queues := st.w.queues[M := st.w.queues[M] + [a]])
      && Step(st, Deliver(s, m, a)).h == History(
           st.h.tracks[s := t.(landed := t.landed + 1, building := 0, reply := 1)],
           st.h.logs[M := st.h.logs[M].(enq := st.h.logs[M].enq + [Entry(s, [m.buf])])])
  {
    hide Parse, UnLE;
    assert [m.buf] + BlankFrames(m.buf, 0) == [m.buf];
    var k := st.w.socks[s];
    var k0 := k.(wire := k.wire - multiset{m});
    var k' := k0.(wire := k0.wire + multiset{SetCell(s.node, 1, s.addr)});
    assert st.w.socks[s := k0][s := k'] == st.w.socks[s := k'];
  }

  /** A message without payload lands when its picture request is handled. */
  lemma SingleInv(st: State, s: Place, m: Msg, a: nat)
    requires Inv(st) && Enabled(st.w, Deliver(s, m, a)) && m.PictureReq? && st.w.socks[s].pc == AwaitAck
    ensures Inv(Step(st, Deliver(s, m, a)))
  {
    hide SockOk, BoxOk, OrderOk, Config, BlankFrames, PacketOf, LetterFits, LetterFrames;
    assert SockAt(st, s);
    var k, t, p := st.w.socks[s], st.h.tracks[s], Place(m.to, a);
    PictureOrigin(st.w.heap, st.w.queues.Keys, s, k, t, m);
    SingleStep(st, s, m, a, k.dest);
    var st' := Step(st, Deliver(s, m, a));
    SingleSock(st.w.heap, st.w.queues.Keys, s, k, t, m, st'.w.heap);
    NoFault(st);
    Unused(st, p);
    hide Parse, Step, SocksOk, BoxesOk, OrdersOk, HeapOk;
    assert Lands(st, st', s, k.dest, p);
    LandRest(st, st', s, k.dest, p);
  }

  lemma Unused(st: State, p: Place)
    requires HeapOk(st) && p !in st.w.heap
    ensures (forall t :: !Builds(st, t, p)) && (forall N, k :: !Queued(st.w, N, k, p))
  {
  }

  lemma TerminateSock(heap: Heap, boxes: set<Place>, s: Place, k: Sock, t: Track, m: Msg)
    requires SockOk(heap, boxes, s, k, t) && m in k.wire && m.TerminateReq?
    ensures Sending(boxes, s, k, t) && t.building == m.frames != 0 && t.landed == |t.sent| - 1
    ensures m == TerminateReq(s.node, k.dest.node, t.building, k.dest.addr, s.addr)
    ensures Target(k, m.frames) in heap && heap[Target(k, m.frames)] == LetterFrames(s, k.box, Last(t.sent))
    ensures SockOk(heap, boxes, s, k.(wire := k.wire - multiset{m} + multiset{SetCell(s.node, 1, s.addr)}),
                   t.(landed := t.landed + 1, building := 0, reply := 1))
  {
    hide PacketOf, LetterFits, LetterFrames, Payloads, Tiled, Parse;
    assert k.wire == multiset{m} ==>
        k.wire - multiset{m} + multiset{SetCell(s.node, 1, s.addr)} == multiset{SetCell(s.node, 1, s.addr)};
  }

  /** A message with payloads lands when its termination request is handled. */
  lemma TerminateInv(st: State, s: Place, m: Msg, a: nat)
    requires Inv(st) && Enabled(st.w, Deliver(s, m, a)) && m.TerminateReq?
    ensures Inv(Step(st, Deliver(s, m, a)))
  {
    hide SockOk, BoxOk, OrderOk, Config, PacketOf, LetterFits, LetterFrames;
    assert SockAt(st, s);
    var k, t := st.w.socks[s], st.h.tracks[s];
    TerminateSock(st.w.heap, st.w.queues.Keys, s, k, t, m);
    var p := Target(k, m.frames);
    var st' := Step(st, Deliver(s, m, a));
    NoFault(st);
    OnlyBuilder(st, s, p);
    hide SocksOk, BoxesOk, OrdersOk, HeapOk;
    assert st'.w.queues.Keys == st.w.queues.Keys;
    assert SockAt(st', s);
    assert Lands(st, st', s, k.dest, p);
    LandRest(st, st', s, k.dest, p);
  }

  lemma OnlyBuilder(st: State, s: Place, p: Place)
    requires HeapOk(st) && Builds(st, s, p)
    ensures (forall t :: t != s ==> !Builds(st, t, p)) && (forall N, k :: !Queued(st.w, N, k, p))
  {
  }

  // ---------------------------------------------------------------- a message is taken

  lemma TakeUsers(st: State, st': State, M: Place, p: Place)
    requires HeapOk(st) && Domains(st) && M in st.w.queues && st.w.queues[M] != []
    requires p == Place(M.node, st.w.queues[M][0])
    requires st'.w.queues == st.w.queues[M := st.w.queues[M][1..]] && st'.w.socks == st.w.socks
    requires st'.h.tracks == st.h.tracks
    ensures forall N, k: nat, x :: Queued(st'.w, N, k, x) ==> Queued(st.w, N, if N == M then k + 1 else k, x) && x != p
    ensures forall t, x :: Builds(st', t, x) ==> Builds(st, t, x) && x != p
  {
    assert Queued(st.w, M, 0, p);
    forall N, k: nat, x | Queued(st'.w, N, k, x) ensures Queued(st.w, N, if N == M then k + 1 else k, x) && x != p {
      assert Queued(st.w, N, if N == M then k + 1 else k, x);
    }
  }

  lemma TakeHeap(st: State, st': State, M: Place, p: Place)
    requires HeapOk(st) && Domains(st) && M in st.w.queues && st.w.queues[M] != []
    requires p == Place(M.node, st.w.queues[M][0])
    requires st'.w.queues == st.w.queues[M := st.w.queues[M][1..]] && st'.w.socks == st.w.socks
    requires st'.h.tracks == st.h.tracks
    requires st'.w.heap == st.w.heap - {p}
    ensures HeapOk(st')
  {
    TakeUsers(st, st', M, p);
    hide Queued, Builds;
    forall N, j: nat, O, k: nat, x | Queued(st'.w, N, j, x) && Queued(st'.w, O, k, x) ensures N == O && j == k {
      assert Queued(st.w, N, if N == M then j + 1 else j, x) && Queued(st.w, O, if O == M then k + 1 else k, x);
    }
  }

  lemma TakeBoxes(st: State, st': State, M: Place, p: Place)
    requires HeapOk(st) && Domains(st) && Domains(st') && BoxesOk(st)
    requires M in st.w.queues && st.w.queues[M] != [] && p == Place(M.node, st.w.queues[M][0]) && p in st.w.heap
    requires st'.w.queues == st.w.queues[M := st.w.queues[M][1..]] && st'.w.socks == st.w.socks
    requires st'.h.tracks == st.h.tracks
    requires st'.w.heap == st.w.heap - {p}
    requires st'.h.logs == st.h.logs[M := st.h.logs[M].(got := st.h.logs[M].got + [st.w.heap[p]])]
    ensures BoxesOk(st')
  {
    TakeUsers(st, st', M, p);
    hide HeapOk;
    forall N | N in st'.w.queues ensures BoxAt(st', N) {
      assert BoxAt(st, N);
      assert forall k :: 0 <= k < |st'.w.queues[N]| ==> Queued(st'.w, N, k, Place(N.node, st'.w.queues[N][k]));
    }
  }

  lemma TakeInv(st: State, s: Place)
    requires Inv(st) && Enabled(st.w, Take(s))
    ensures Inv(Step(st, Take(s)))
  {
    hide SockOk, BoxOk, OrderOk, Config, HeapOk, OrdersOk;
    var M := Mail(s, st.w.socks[s]);
    var p := Place(s.node, st.w.queues[M][0]);
    var st' := Step(st, Take(s));
    FirstAllocated(st, M, p);
    NoFault(st);
    TakeUsers(st, st', M, p);
    TakeHeap(st, st', M, p);
    TakeBoxes(st, st', M, p);
    TakeRest(st, st', M, p);
  }

  lemma FirstAllocated(st: State, M: Place, p: Place)
    requires HeapOk(st) && M in st.w.queues && st.w.queues[M] != [] && p == Place(M.node, st.w.queues[M][0])
    ensures p in st.w.heap
  {
    assert Queued(st.w, M, 0, p);
  }

  lemma TakeRest(st: State, st': State, M: Place, p: Place)
    requires Inv(st) && Domains(st') && HeapOk(st') && BoxesOk(st') && !st'.w.fault
    requires st'.w.queues.Keys == st.w.queues.Keys && st'.w.socks == st.w.socks && st'.h.tracks == st.h.tracks
    requires st'.w.bound == st.w.bound
    requires st'.w.heap == st.w.heap - {p} && forall t, x :: Builds(st', t, x) ==> Builds(st, t, x) && x != p
    requires M in st.w.queues && st'.h.logs == st.h.logs[M := st'.h.logs[M]] && st'.h.logs[M].enq == st.h.logs[M].enq
    ensures Inv(st')
  {
    hide SockOk, BoxOk, From, To, HeapOk, BoxesOk;
    forall s | s in st'.w.socks ensures SockAt(st', s) {
      assert SockAt(st, s);
      assert st.h.tracks[s].building != 0 ==> Builds(st', s, Target(st.w.socks[s], st.h.tracks[s].building));
      SockKept(st.w.heap, st'.w.heap, st.w.queues.Keys, s, st.w.socks[s], st.h.tracks[s]);
    }
    forall s, N | s in st'.w.socks && N in st'.w.queues ensures OrderAt(st', s, N) {
      assert OrderAt(st, s, N);
    }
  }
}

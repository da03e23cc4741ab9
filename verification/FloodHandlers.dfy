/** The active-message handlers keep the invariant. */
module FloodHandlers {
  import opened Picture
  import opened FloodModel
  import opened FloodInv
  import opened FloodFrame
  import opened FloodSender

  // ---------------------------------------------------------------- replies

  /** A set reply names the cell of the socket it is for, which is waiting for it. */
  lemma SetReplySock(heap: Heap, boxes: set<Place>, s: Place, k: Sock, t: Track, m: Msg)
    requires SockOk(heap, boxes, s, k, t) && m in k.wire && m.SetCell?
    ensures m == SetCell(s.node, t.reply, s.addr)
    ensures SockOk(heap, boxes, s, k.(wire := k.wire - multiset{m}, cell := m.val), t)
  {
    hide PacketOf, LetterFits, Payloads, LetterFrames, Shape, Tiled;
    assert k.wire == multiset{m} ==> k.wire - multiset{m} == multiset{};
  }

  lemma DeliverSetInv(st: State, s: Place, m: Msg, a: nat)
    requires Inv(st) && Enabled(st.w, Deliver(s, m, a)) && m.SetCell?
    ensures Inv(Step(st, Deliver(s, m, a)))
  {
    hide SockOk, BoxOk, OrderOk, HeapOk, Config, OrdersOk, BoxesOk;
    assert SockAt(st, s);
    SetReplySock(st.w.heap, st.w.queues.Keys, s, st.w.socks[s], st.h.tracks[s], m);
    OwnStep(st, Step(st, Deliver(s, m, a)), s) by { NoFault(st); }
  }

  /** Removing an acknowledgement from the bag leaves every byte where it was. */
  lemma TiledWithout(arr: seq<seq<Byte>>, packet: seq<Byte>, frames: seq<seq<Byte>>, b: multiset<Msg>, i: nat,
                     offset: nat, m: Msg)
    requires Shape(arr, packet, frames) && Tiled(arr, packet, frames, b, i, offset) && !m.FragmentReq?
    ensures Tiled(arr, packet, frames, b - multiset{m}, i, offset)
  {
    forall j: nat, p: nat | j < |frames| && p < |frames[j]| && (j < i || (j == i && p < offset))
      ensures ByteOk(arr, frames, b - multiset{m}, j, p)
    {
      assert ByteOk(arr, frames, b, j, p);
      if x :| x in b && Covers(x, j, p) {
        assert x in b - multiset{m};
      }
    }
  }

  lemma AddReplyStream(heap: Heap, s: Place, k: Sock, t: Track, fp: nat, i: nat, offset: nat, counter: nat, m: Msg)
    requires Streaming(heap, s, k, t, fp, i, offset, counter) && m in k.wire && m.AddCell?
    ensures m == AddCell(s.node, 1, s.addr)
    ensures Streaming(heap, s, k.(wire := k.wire - multiset{m}, cell := k.cell + 1), t, fp, i, offset, counter)
  {
    hide PacketOf, Shape;
    var k' := k.(wire := k.wire - multiset{m}, cell := k.cell + 1);
    TiledWithout(heap[Target(k, fp)], PacketOf(s, k.box, Last(t.sent)), k.frames, k.wire, i, offset, m);
    hide Tiled;
    assert |k'.wire| == |k.wire| - 1;
    forall x | x in k'.wire ensures x == AddCell(s.node, 1, s.addr) || FragmentOk(x, s, k', fp) {
      assert x in k.wire;
      assert x == AddCell(s.node, 1, s.addr) || FragmentOk(x, s, k, fp);
    }
  }

  lemma AddReplySock(heap: Heap, boxes: set<Place>, s: Place, k: Sock, t: Track, m: Msg)
    requires SockOk(heap, boxes, s, k, t) && m in k.wire && m.AddCell?
    ensures m == AddCell(s.node, 1, s.addr)
    ensures SockOk(heap, boxes, s, k.(wire := k.wire - multiset{m}, cell := k.cell + 1), t)
  {
    match k.pc
    case Flooding(fp, i, offset, counter) => AddReplyStream(heap, s, k, t, fp, i, offset, counter, m);
    case AwaitCount(fp, counter) => AddReplyStream(heap, s, k, t, fp, |k.frames|, 0, counter, m);
    case _ => assert false;
  }

  lemma DeliverAddInv(st: State, s: Place, m: Msg, a: nat)
    requires Inv(st) && Enabled(st.w, Deliver(s, m, a)) && m.AddCell?
    ensures Inv(Step(st, Deliver(s, m, a)))
  {
    hide SockOk, BoxOk, OrderOk, HeapOk, Config, OrdersOk, BoxesOk;
    assert SockAt(st, s);
    AddReplySock(st.w.heap, st.w.queues.Keys, s, st.w.socks[s], st.h.tracks[s], m);
    OwnStep(st, Step(st, Deliver(s, m, a)), s) by { NoFault(st); }
  }

  // ---------------------------------------------------------------- connection request

  lemma ConnectSock(heap: Heap, boxes: set<Place>, s: Place, k: Sock, t: Track, m: Msg, v: nat)
    requires SockOk(heap, boxes, s, k, t) && m in k.wire && m.ConnectReq?
    requires v < NOT_YET && (v != 0 ==> Place(m.to, v) in boxes)
    ensures m.from == s.node && m.cell == s.addr && k.pc == AwaitServer(m.to, m.endpoint) && t.building == 0
    ensures SockOk(heap, boxes, s, k.(wire := k.wire - multiset{m} + multiset{SetCell(s.node, v, s.addr)}),
      t.(reply := v))
  {
    hide PacketOf, LetterFits, Payloads, LetterFrames, Shape, Tiled;
    assert k.wire == multiset{m} ==>
        k.wire - multiset{m} + multiset{SetCell(s.node, v, s.addr)} == multiset{SetCell(s.node, v, s.addr)};
  }

  lemma DeliverConnectInv(st: State, s: Place, m: Msg, a: nat)
    requires Inv(st) && Enabled(st.w, Deliver(s, m, a)) && m.ConnectReq?
    ensures Inv(Step(st, Deliver(s, m, a)))
  {
    hide SockOk, BoxOk, OrderOk, HeapOk, Config, OrdersOk, BoxesOk;
    assert SockAt(st, s);
    var e := Place(m.to, m.endpoint);
    var v := if e in st.w.bound then st.w.bound[e] else 0;
    BoundOk(st, e);
    ConnectSock(st.w.heap, st.w.queues.Keys, s, st.w.socks[s], st.h.tracks[s], m, v);
    OwnStep(st, Step(st, Deliver(s, m, a)), s) by { NoFault(st); }
  }

  lemma BoundOk(st: State, e: Place)
    requires Inv(st)
    ensures e in st.w.bound ==> 0 != st.w.bound[e] < NOT_YET && Place(e.node, st.w.bound[e]) in st.w.queues
  {
  }

  // ---------------------------------------------------------------- fragments

  /** Writing a fragment: its bytes arrive, all other bytes stay, the lengths do not change. */
  lemma TiledArrive(arr: seq<seq<Byte>>, packet: seq<Byte>, frames: seq<seq<Byte>>, b: multiset<Msg>, i: nat,
                    offset: nat, m: Msg, r: Msg)
    requires Shape(arr, packet, frames) && Tiled(arr, packet, frames, b, i, offset) && m.FragmentReq?
    requires 1 <= m.frameId <= |frames| && m.offset + |m.bytes| <= |frames[m.frameId - 1]|
    requires m.bytes == frames[m.frameId - 1][m.offset..m.offset + |m.bytes|]
    ensures m.frameId < |arr| && m.offset + |m.bytes| <= |arr[m.frameId]|
    ensures var arr' := arr[m.frameId := Splice(arr[m.frameId], m.offset, m.bytes)];
            Shape(arr', packet, frames) && Tiled(arr', packet, frames, b - multiset{m} + multiset{r}, i, offset)
  {
    var f := m.frameId - 1;
    assert |arr[f + 1]| == |frames[f]|;
    var arr' := arr[m.frameId := Splice(arr[m.frameId], m.offset, m.bytes)];
    var b' := b - multiset{m} + multiset{r};
    assert Shape(arr', packet, frames);
    forall j: nat, p: nat | j < |frames| && p < |frames[j]| && (j < i || (j == i && p < offset))
      ensures ByteOk(arr', frames, b', j, p)
    {
      assert ByteOk(arr, frames, b, j, p);
      if Covers(m, j, p) {
        assert arr'[j + 1][p] == m.bytes[p - m.offset] == frames[j][p];
      } else {
        assert arr'[j + 1][p] == arr[j + 1][p];
        if x :| x in b && Covers(x, j, p) { assert x in b'; }
      }
    }
  }

  lemma FragmentStream(heap: Heap, s: Place, k: Sock, t: Track, fp: nat, i: nat, offset: nat, counter: nat, m: Msg)
    requires Streaming(heap, s, k, t, fp, i, offset, counter) && m in k.wire && m.FragmentReq?
    ensures FragmentOk(m, s, k, fp) && m.frameId < |heap[Target(k, fp)]|
    ensures m.offset + |m.bytes| <= |heap[Target(k, fp)][m.frameId]|
    ensures var arr := heap[Target(k, fp)];
            Streaming(heap[Target(k, fp) := arr[m.frameId := Splice(arr[m.frameId], m.offset, m.bytes)]], s,
                      k.(wire := k.wire - multiset{m} + multiset{AddCell(s.node, 1, s.addr)}),
                      t, fp, i, offset, counter)
  {
    hide PacketOf;
    var r := AddCell(s.node, 1, s.addr);
    var k' := k.(wire := k.wire - multiset{m} + multiset{r});
    assert FragmentOk(m, s, k, fp);
    TiledArrive(heap[Target(k, fp)], PacketOf(s, k.box, Last(t.sent)), k.frames, k.wire, i, offset, m, r);
    hide Tiled, Shape, Splice;
    assert |k'.wire| == |k.wire|;
    forall x | x in k'.wire ensures x == r || FragmentOk(x, s, k', fp) {
      if x != r {
        assert x in k.wire;
        assert FragmentOk(x, s, k, fp);
      }
    }
  }

  lemma FragmentSock(heap: Heap, boxes: set<Place>, s: Place, k: Sock, t: Track, m: Msg)
    requires SockOk(heap, boxes, s, k, t) && m in k.wire && m.FragmentReq?
    ensures t.building == m.frames != 0 && m.to == k.dest.node && m.from == s.node && m.cell == s.addr
    ensures var p := Place(m.to, m.frames);
            p in heap && m.frameId < |heap[p]| && m.offset + |m.bytes| <= |heap[p][m.frameId]| &&
            SockOk(heap[p := heap[p][m.frameId := Splice(heap[p][m.frameId], m.offset, m.bytes)]], boxes, s,
                   k.(wire := k.wire - multiset{m} + multiset{AddCell(s.node, 1, s.addr)}), t)
  {
    hide PacketOf, LetterFits, Payloads, LetterFrames, Shape, Tiled, Splice;
    match k.pc
    case Flooding(fp, i, offset, counter) => FragmentStream(heap, s, k, t, fp, i, offset, counter, m);
    case AwaitCount(fp, counter) => FragmentStream(heap, s, k, t, fp, |k.frames|, 0, counter, m);
    case _ => assert false;
  }

  lemma DeliverFragmentInv(st: State, s: Place, m: Msg, a: nat)
    requires Inv(st) && Enabled(st.w, Deliver(s, m, a)) && m.FragmentReq?
    ensures Inv(Step(st, Deliver(s, m, a)))
  {
    hide SockOk, BoxOk, OrderOk, Splice, Config;
    assert SockAt(st, s);
    var st' := Step(st, Deliver(s, m, a));
    FragmentSock(st.w.heap, st.w.queues.Keys, s, st.w.socks[s], st.h.tracks[s], m);
    hide OrdersOk, BoxesOk, SocksOk, HeapOk;
    NoFault(st);
    assert SockAt(st', s);
    FragmentRest(st, st', s, Place(m.to, m.frames));
  }

  /** Writing into the frame array of socket s alone. */
  lemma FragmentRest(st: State, st': State, s: Place, p: Place)
    requires Inv(st) && OnlySock(st, st', s) && SockAt(st', s) && Builds(st, s, p)
    requires p in st.w.heap && p in st'.w.heap && st'.w.heap == st.w.heap[p := st'.w.heap[p]]
    requires st'.w.queues == st.w.queues && st'.w.bound == st.w.bound && !st'.w.fault && st'.h == st.h
    requires st'.w.socks[s].dest == st.w.socks[s].dest
    ensures Inv(st')
  {
    hide SockOk, BoxOk, OrderOk, OrdersOk, BoxesOk, SocksOk;
    ConfigKept(st.w, st'.w, s);
    BuildsSame(st, st', s);
    FragmentFrame(st, st', s, p);
    hide BuildsKept, QueuedKept, HeapOk, Config, Builds;
    OthersKept(st, st', s);
    BoxesKept(st, st');
    OrdersKept(st, st', s);
  }

  lemma FragmentFrame(st: State, st': State, s: Place, p: Place)
    requires Domains(st) && HeapOk(st) && Builds(st, s, p) && st'.w.queues == st.w.queues
    requires p in st.w.heap && p in st'.w.heap && st'.w.heap == st.w.heap[p := st'.w.heap[p]]
    requires forall t, p :: Builds(st', t, p) <==> Builds(st, t, p)
    ensures BuildsKept(st, st', s) && QueuedKept(st.w, st'.w) && HeapOk(st')
  {
    hide Builds;
    assert forall M, k, p :: Queued(st'.w, M, k, p) <==> Queued(st.w, M, k, p);
    hide Queued;
  }
}

/** The steps of a socket's own thread, and the replies that change its cell, keep the invariant. */
module FloodSender {
  import opened Words
  import opened Picture
  import opened SockCodec
  import opened FloodModel
  import opened FloodInv
  import opened FloodFrame

  lemma SendInv(st: State, s: Place, dest: Place, args: seq<Arg>)
    requires Inv(st) && Enabled(st.w, Send(s, dest, args))
    ensures Inv(Step(st, Send(s, dest, args)))
  {
    hide PacketOf, LetterFits, Payloads, BoxOk, OrderOk, HeapOk, Config, OrdersOk, BoxesOk;
    assert SockAt(st, s);
    var st' := Step(st, Send(s, dest, args));
    var k := st'.w.socks[s];
    assert k.wire == multiset{PictureReq(s.node, dest.node, PacketOf(s, k.box, Letter(dest, args)))};
    assert Last(st'.h.tracks[s].sent) == Letter(dest, args);
    OwnStep(st, st', s) by { NoFault(st); }
  }

  lemma NoFault(st: State)
    requires Inv(st)
    ensures !st.w.fault
  {
  }

  lemma GotAckInv(st: State, s: Place)
    requires Inv(st) && Enabled(st.w, GotAck(s))
    ensures Inv(Step(st, GotAck(s)))
  {
    hide PacketOf, LetterFits, Payloads, BoxOk, OrderOk, HeapOk, Config, OrdersOk, BoxesOk;
    assert SockAt(st, s);
    OwnStep(st, Step(st, GotAck(s)), s) by { NoFault(st); }
  }

  /** The first byte to send is byte 0 of payload 0: nothing needs to have arrived. */
  lemma TiledStart(arr: seq<seq<Byte>>, packet: seq<Byte>, frames: seq<seq<Byte>>, b: multiset<Msg>)
    requires Shape(arr, packet, frames)
    ensures Tiled(arr, packet, frames, b, 0, 0)
  {
  }

  lemma GotFramesInv(st: State, s: Place)
    requires Inv(st) && Enabled(st.w, GotFrames(s))
    ensures Inv(Step(st, GotFrames(s)))
  {
    hide PacketOf, LetterFits, Payloads, BoxOk, OrderOk, HeapOk, Config, OrdersOk, BoxesOk, Shape, Tiled;
    assert SockAt(st, s);
    var st' := Step(st, GotFrames(s));
    var k, t := st'.w.socks[s], st'.h.tracks[s];
    TiledStart(st'.w.heap[Target(k, t.building)], PacketOf(s, k.box, Last(t.sent)), k.frames, k.wire);
    OwnStep(st, st', s) by { NoFault(st); }
  }

  /** Sending the next fragment moves the cursor past exactly the bytes it carries. */
  lemma TiledSend(arr: seq<seq<Byte>>, packet: seq<Byte>, frames: seq<seq<Byte>>, b: multiset<Msg>, i: nat,
                  offset: nat, n: nat, m: Msg)
    requires Shape(arr, packet, frames) && Tiled(arr, packet, frames, b, i, offset)
    requires i < |frames| && offset + n <= |frames[i]| && m.FragmentReq? && m.frameId == i + 1
    requires m.offset == offset && |m.bytes| == n
    ensures Tiled(arr, packet, frames, b + multiset{m}, i, offset + n)
  {
    forall j: nat, p: nat | j < |frames| && p < |frames[j]| && (j < i || (j == i && p < offset + n))
      ensures ByteOk(arr, frames, b + multiset{m}, j, p)
    {
      if j < i || p < offset {
        assert ByteOk(arr, frames, b, j, p);
      } else {
        assert m in b + multiset{m} && Covers(m, j, p);
      }
    }
  }

  lemma SendFragmentStream(heap: Heap, s: Place, k: Sock, t: Track, k': Sock, m: Msg, n: nat)
    requires k.pc.Flooding? && Streaming(heap, s, k, t, k.pc.fp, k.pc.i, k.pc.offset, k.pc.counter)
    requires k.pc.i < |k.frames| && k.pc.offset + n <= |k.frames[k.pc.i]|
    requires m == FragmentReq(s.node, k.dest.node, k.pc.fp, k.pc.i + 1, k.pc.offset,
      s.addr, k.frames[k.pc.i][k.pc.offset..k.pc.offset + n])
    requires k' == k.(pc := Flooding(k.pc.fp, k.pc.i, k.pc.offset + n, k.pc.counter + 1), wire := k.wire + multiset{m})
    ensures Streaming(heap, s, k', t, k'.pc.fp, k'.pc.i, k'.pc.offset, k'.pc.counter)
  {
    hide PacketOf, Shape;
    TiledSend(heap[Target(k, k.pc.fp)], PacketOf(s, k.box, Last(t.sent)), k.frames, k.wire, k.pc.i, k.pc.offset, n, m);
    hide Tiled;
    assert FragmentOk(m, s, k', k.pc.fp);
    forall x | x in k'.wire ensures x == AddCell(s.node, 1, s.addr) || FragmentOk(x, s, k', k.pc.fp) {
      if x in k.wire { assert x == AddCell(s.node, 1, s.addr) || FragmentOk(x, s, k, k.pc.fp); }
    }
  }

  lemma SendFragmentInv(st: State, s: Place)
    requires Inv(st) && Enabled(st.w, SendFragment(s))
    ensures Inv(Step(st, SendFragment(s)))
  {
    hide PacketOf, LetterFits, Payloads, BoxOk, OrderOk, HeapOk, Config, OrdersOk, BoxesOk, Streaming;
    assert SockAt(st, s);
    var st', k := Step(st, SendFragment(s)), st.w.socks[s];
    var n := Min(|k.frames[k.pc.i]| - k.pc.offset, MAX_MEDIUM);
    var m := FragmentReq(s.node, k.dest.node, k.pc.fp, k.pc.i + 1, k.pc.offset,
      s.addr, k.frames[k.pc.i][k.pc.offset..k.pc.offset + n]);
    SendFragmentStream(st.w.heap, s, k, st.h.tracks[s], st'.w.socks[s], m, n);
    OwnStep(st, st', s) by { NoFault(st); }
  }

  lemma NextFrameStream(heap: Heap, s: Place, k: Sock, t: Track, k': Sock)
    requires k.pc.Flooding? && Streaming(heap, s, k, t, k.pc.fp, k.pc.i, k.pc.offset, k.pc.counter)
    requires k.pc.i < |k.frames| && k.pc.offset >= |k.frames[k.pc.i]|
    requires k' == k.(pc := k.pc.(i := k.pc.i + 1, offset := 0))
    ensures Streaming(heap, s, k', t, k'.pc.fp, k'.pc.i, k'.pc.offset, k'.pc.counter)
  {
    hide PacketOf, Shape;
  }

  lemma NextFrameInv(st: State, s: Place)
    requires Inv(st) && Enabled(st.w, NextFrame(s))
    ensures Inv(Step(st, NextFrame(s)))
  {
    hide PacketOf, LetterFits, Payloads, BoxOk, OrderOk, HeapOk, Config, OrdersOk, BoxesOk, Streaming;
    assert SockAt(st, s);
    var st' := Step(st, NextFrame(s));
    NextFrameStream(st.w.heap, s, st.w.socks[s], st.h.tracks[s], st'.w.socks[s]);
    OwnStep(st, st', s) by { NoFault(st); }
  }

  lemma EndFloodStream(heap: Heap, s: Place, k: Sock, t: Track, k': Sock)
    requires k.pc.Flooding? && Streaming(heap, s, k, t, k.pc.fp, k.pc.i, k.pc.offset, k.pc.counter)
    requires k.pc.i >= |k.frames| && k' == k.(pc := AwaitCount(k.pc.fp, k.pc.counter))
    ensures Streaming(heap, s, k', t, k.pc.fp, |k.frames|, 0, k.pc.counter)
  {
    hide PacketOf, Shape;
  }

  lemma EndFloodInv(st: State, s: Place)
    requires Inv(st) && Enabled(st.w, EndFlood(s))
    ensures Inv(Step(st, EndFlood(s)))
  {
    hide PacketOf, LetterFits, Payloads, BoxOk, OrderOk, HeapOk, Config, OrdersOk, BoxesOk, Streaming;
    assert SockAt(st, s);
    var st' := Step(st, EndFlood(s));
    EndFloodStream(st.w.heap, s, st.w.socks[s], st.h.tracks[s], st'.w.socks[s]);
    OwnStep(st, st', s) by { NoFault(st); }
  }

  /** All fragments acknowledged and none in flight: the array holds the message. */
  lemma Assembled(arr: seq<seq<Byte>>, packet: seq<Byte>, frames: seq<seq<Byte>>)
    requires Shape(arr, packet, frames) && Tiled(arr, packet, frames, multiset{}, |frames|, 0)
    ensures arr == [packet] + frames
  {
    forall j: nat | j < |frames| ensures arr[j + 1] == frames[j] {
      forall p: nat | p < |frames[j]| ensures arr[j + 1][p] == frames[j][p] {
        assert ByteOk(arr, frames, multiset{}, j, p);
      }
    }
  }

  /** The counter reaches the number of fragments sent only when nothing is in flight. */
  lemma CountMeansArrived(heap: Heap, s: Place, k: Sock, t: Track)
    requires k.pc.AwaitCount? && k.cell == k.pc.counter
    requires Streaming(heap, s, k, t, k.pc.fp, |k.frames|, 0, k.pc.counter)
    requires k.frames == Payloads(Last(t.sent).args)
    ensures k.wire == multiset{} && heap[Target(k, k.pc.fp)] == LetterFrames(s, k.box, Last(t.sent))
  {
    hide PacketOf, Payloads;
    assert |k.wire| == 0;
    assert k.wire == multiset{};
    Assembled(heap[Target(k, k.pc.fp)], PacketOf(s, k.box, Last(t.sent)), k.frames);
  }

  lemma GotCountInv(st: State, s: Place)
    requires Inv(st) && Enabled(st.w, GotCount(s))
    ensures Inv(Step(st, GotCount(s)))
  {
    hide PacketOf, LetterFits, Payloads, BoxOk, OrderOk, HeapOk;
    hide Config, OrdersOk, BoxesOk, LetterFrames, Shape, Tiled, BagOk;
    assert SockAt(st, s);
    var st', k := Step(st, GotCount(s)), st.w.socks[s];
    CountMeansArrived(st.w.heap, s, k, st.h.tracks[s]);
    assert st'.w.socks[s].wire == multiset{TerminateReq(s.node, k.dest.node, k.pc.fp, k.dest.addr, s.addr)};
    OwnStep(st, st', s) by { NoFault(st); }
  }

  lemma GotTermInv(st: State, s: Place)
    requires Inv(st) && Enabled(st.w, GotTerm(s))
    ensures Inv(Step(st, GotTerm(s)))
  {
    hide PacketOf, LetterFits, Payloads, BoxOk, OrderOk, HeapOk, Config, OrdersOk, BoxesOk, LetterFrames;
    assert SockAt(st, s);
    OwnStep(st, Step(st, GotTerm(s)), s) by { NoFault(st); }
  }

  lemma OpenInv(st: State, s: Place, node: nat, endpoint: nat)
    requires Inv(st) && Enabled(st.w, Open(s, node, endpoint))
    ensures Inv(Step(st, Open(s, node, endpoint)))
  {
    hide PacketOf, LetterFits, Payloads, BoxOk, OrderOk, HeapOk, Config, OrdersOk, BoxesOk;
    assert SockAt(st, s);
    var st' := Step(st, Open(s, node, endpoint));
    assert st'.w.socks[s].wire == multiset{ConnectReq(s.node, node, endpoint, s.addr)};
    OwnStep(st, st', s) by { NoFault(st); }
  }

  lemma OpenedInv(st: State, s: Place)
    requires Inv(st) && Enabled(st.w, Opened(s))
    ensures Inv(Step(st, Opened(s)))
  {
    hide PacketOf, LetterFits, Payloads, BoxOk, OrderOk, HeapOk, Config, OrdersOk, BoxesOk;
    assert SockAt(st, s);
    OwnStep(st, Step(st, Opened(s)), s) by { NoFault(st); }
  }
}

/** The invariant of the transmission protocol. */
module FloodInv {
  import opened Words
  import opened Picture
  import opened FloodModel

  type Heap = map<Place, seq<seq<Byte>>>

  // ---------------------------------------------------------------- fixed facts

  /** Which sockets and mailboxes exist. */
  ghost predicate Domains(st: State) {
    st.w.socks.Keys == st.h.tracks.Keys && st.w.queues.Keys == st.h.logs.Keys
  }

  /** Addresses fit their C types, mailboxes exist, no two sockets share one. */
  ghost predicate Config(w: World) {
    && (forall s :: s in w.socks ==>
          s.node < U16 && s.addr < U64 && 0 != w.socks[s].box < NOT_YET && Mail(s, w.socks[s]) in w.queues)
    && (forall s, t :: s in w.socks && t in w.socks && s != t ==> Mail(s, w.socks[s]) != Mail(t, w.socks[t]))
    && (forall e :: e in w.bound ==> 0 != w.bound[e] < NOT_YET && Place(e.node, w.bound[e]) in w.queues)
    && !w.fault
  }

  // ---------------------------------------------------------------- one socket
  // Below, s is a socket, k its state, t its record, heap the frame arrays, boxes the mailboxes.

  function Last(ls: seq<Letter>): Letter
    requires ls != []
  {
    ls[|ls| - 1]
  }

  /** The frame array at address fp on the destination's node. */
  function Target(k: Sock, fp: nat): Place {
    Place(k.dest.node, fp)
  }

  ghost predicate Shape(arr: seq<seq<Byte>>, packet: seq<Byte>, frames: seq<seq<Byte>>) {
    && |arr| == |frames| + 1 && arr[0] == packet
    && forall j {:trigger arr[j + 1]} {:trigger frames[j]} :: 0 <= j < |frames| ==> |arr[j + 1]| == |frames[j]|
  }

  ghost predicate FragmentOk(m: Msg, s: Place, k: Sock, fp: nat) {
    && m.FragmentReq? && m.from == s.node && m.to == k.dest.node && m.frames == fp && m.cell == s.addr
    && 1 <= m.frameId <= |k.frames| && m.offset + |m.bytes| <= |k.frames[m.frameId - 1]|
    && m.bytes == k.frames[m.frameId - 1][m.offset..m.offset + |m.bytes|]
  }

  /** In flight while flooding: fragments of this message, and increments of this cell. */
  ghost predicate BagOk(s: Place, k: Sock, fp: nat) {
    forall m :: m in k.wire ==> m == AddCell(s.node, 1, s.addr) || FragmentOk(m, s, k, fp)
  }

  ghost predicate Covers(m: Msg, j: nat, p: nat) {
    m.FragmentReq? && m.frameId == j + 1 && m.offset <= p < m.offset + |m.bytes|
  }

  /** Byte p of payload j has arrived, or is in a fragment in flight. */
  ghost predicate ByteOk(arr: seq<seq<Byte>>, frames: seq<seq<Byte>>, b: multiset<Msg>, j: nat, p: nat)
    requires j < |frames| && p < |frames[j]| && j + 1 < |arr| && p < |arr[j + 1]|
  {
    arr[j + 1][p] == frames[j][p] || exists m :: m in b && Covers(m, j, p)
  }

  /** Every byte before the cursor has been sent. */
  ghost predicate Tiled(arr: seq<seq<Byte>>, packet: seq<Byte>, frames: seq<seq<Byte>>, b: multiset<Msg>, i: nat,
                        offset: nat)
    requires Shape(arr, packet, frames)
  {
    forall j: nat, p: nat {:trigger ByteOk(arr, frames, b, j, p)} ::
      j < |frames| && p < |frames[j]| && (j < i || (j == i && p < offset)) ==> ByteOk(arr, frames, b, j, p)
  }

  /** While fragments are outstanding: cell + messages in flight == fragments sent. */
  ghost predicate Streaming(heap: Heap, s: Place, k: Sock, t: Track, fp: nat, i: nat, offset: nat, counter: nat) {
    && t.sent != [] && fp != 0 && t.building == fp && t.landed == |t.sent| - 1
    && k.cell + |k.wire| == counter && BagOk(s, k, fp)
    && Target(k, fp) in heap && Shape(heap[Target(k, fp)], PacketOf(s, k.box, Last(t.sent)), k.frames)
    && i <= |k.frames| && (i < |k.frames| ==> offset <= |k.frames[i]|)
    && Tiled(heap[Target(k, fp)], PacketOf(s, k.box, Last(t.sent)), k.frames, k.wire, i, offset)
  }

  /** A message is under way from s, and these are its destination and payloads. */
  ghost predicate Sending(boxes: set<Place>, s: Place, k: Sock, t: Track) {
    && t.sent != [] && k.dest == Last(t.sent).dest && k.frames == Payloads(Last(t.sent).args)
    && LetterFits(s, k.box, Last(t.sent)) && k.dest in boxes
  }

  /** The request m is in flight, and the cell holds its starting value. */
  ghost predicate Asked(k: Sock, m: Msg, cell: nat) {
    k.wire == multiset{m} && k.cell == cell
  }

  /** The answer v is in flight, or has been stored in the cell. */
  ghost predicate Answered(s: Place, k: Sock, t: Track, v: nat, cell: nat) {
    t.reply == v &&
    ((k.wire == multiset{SetCell(s.node, v, s.addr)} && k.cell == cell) || (k.wire == multiset{} && k.cell == v))
  }

  ghost predicate Request(s: Place, k: Sock, t: Track) {
    t.sent != [] && t.building == 0 && Asked(k, PictureReq(s.node, k.dest.node, PacketOf(s, k.box, Last(t.sent))), 0)
  }

  ghost predicate AckOk(boxes: set<Place>, s: Place, k: Sock, t: Track) {
    && Sending(boxes, s, k, t) && k.frames == [] && t.building == 0
    && if t.landed == |t.sent| then Answered(s, k, t, 1, 0) else t.landed == |t.sent| - 1 && Request(s, k, t)
  }

  ghost predicate FramesOk(heap: Heap, boxes: set<Place>, s: Place, k: Sock, t: Track) {
    && Sending(boxes, s, k, t) && k.frames != [] && t.landed == |t.sent| - 1
    && if t.building == 0 then Request(s, k, t)
       else Answered(s, k, t, t.building, 0) && Target(k, t.building) in heap
            && Shape(heap[Target(k, t.building)], PacketOf(s, k.box, Last(t.sent)), k.frames)
  }

  ghost predicate TermOk(heap: Heap, boxes: set<Place>, s: Place, k: Sock, t: Track, fp: nat) {
    && Sending(boxes, s, k, t) && k.frames != [] && fp != 0
    && if t.landed == |t.sent| then Answered(s, k, t, 1, 0) && t.building == 0
       else
         && t.landed == |t.sent| - 1 && t.building == fp
         && Asked(k, TerminateReq(s.node, k.dest.node, fp, k.dest.addr, s.addr), 0)
         && Target(k, fp) in heap && heap[Target(k, fp)] == LetterFrames(s, k.box, Last(t.sent))
  }

  ghost predicate ServerOk(boxes: set<Place>, s: Place, k: Sock, t: Track, node: nat, endpoint: nat) {
    && t.landed == |t.sent| && t.building == 0
    && (Asked(k, ConnectReq(s.node, node, endpoint, s.addr), NOT_YET)
        || (Answered(s, k, t, t.reply, NOT_YET) && t.reply < NOT_YET
            && (t.reply != 0 ==> Place(node, t.reply) in boxes)))
  }

  ghost predicate SockOk(heap: Heap, boxes: set<Place>, s: Place, k: Sock, t: Track) {
    match k.pc
    case Idle => k.wire == multiset{} && t.landed == |t.sent| && t.building == 0
    case AwaitAck => AckOk(boxes, s, k, t)
    case AwaitFrames => FramesOk(heap, boxes, s, k, t)
    case Flooding(fp, i, offset, counter) =>
      Sending(boxes, s, k, t) && k.frames != [] && Streaming(heap, s, k, t, fp, i, offset, counter)
    case AwaitCount(fp, counter) =>
      Sending(boxes, s, k, t) && k.frames != [] && Streaming(heap, s, k, t, fp, |k.frames|, 0, counter)
    case AwaitTerm(fp) => TermOk(heap, boxes, s, k, t, fp)
    case AwaitServer(node, endpoint) => ServerOk(boxes, s, k, t, node, endpoint)
  }

  ghost predicate SockAt(st: State, s: Place)
    requires Domains(st) && s in st.w.socks
  {
    SockOk(st.w.heap, st.w.queues.Keys, s, st.w.socks[s], st.h.tracks[s])
  }

  ghost predicate SocksOk(st: State)
    requires Domains(st)
  {
    forall s {:trigger SockAt(st, s)} :: s in st.w.socks ==> SockAt(st, s)
  }

  // ---------------------------------------------------------------- memory

  /** The frame array at place p belongs to the message being built for socket s. */
  ghost predicate Builds(st: State, s: Place, p: Place) {
    && s in st.w.socks && s in st.h.tracks
    && st.h.tracks[s].building != 0 && Target(st.w.socks[s], st.h.tracks[s].building) == p
  }

  /** The frame array at place p is the k-th entry of mailbox M. */
  ghost predicate Queued(w: World, M: Place, k: nat, p: Place) {
    M in w.queues && k < |w.queues[M]| && Place(M.node, w.queues[M][k]) == p
  }

  /** Every frame array in use is allocated and has one user. */
  ghost predicate HeapOk(st: State) {
    && (forall s, p :: Builds(st, s, p) ==> p in st.w.heap)
    && (forall M, k, p :: Queued(st.w, M, k, p) ==> p in st.w.heap && p.addr != 0)
    && (forall s, t, p :: Builds(st, s, p) && Builds(st, t, p) ==> s == t)
    && (forall M, k, N, j, p :: Queued(st.w, M, k, p) && Queued(st.w, N, j, p) ==> M == N && k == j)
    && (forall s, M, k, p :: Builds(st, s, p) ==> !Queued(st.w, M, k, p))
  }

  // ---------------------------------------------------------------- mailboxes

  /** What is still in a mailbox is what was pushed and not yet popped, with unchanged contents. */
  ghost predicate BoxOk(heap: Heap, M: Place, q: seq<nat>, l: Log) {
    && |l.enq| == |l.got| + |q|
    && (forall k :: 0 <= k < |l.got| ==> l.got[k] == l.enq[k].frames)
    && (forall k :: 0 <= k < |q| ==>
          Place(M.node, q[k]) in heap && heap[Place(M.node, q[k])] == l.enq[|l.got| + k].frames)
  }

  ghost predicate BoxAt(st: State, M: Place)
    requires Domains(st) && M in st.w.queues
  {
    BoxOk(st.w.heap, M, st.w.queues[M], st.h.logs[M])
  }

  ghost predicate BoxesOk(st: State)
    requires Domains(st)
  {
    forall M {:trigger BoxAt(st, M)} :: M in st.w.queues ==> BoxAt(st, M)
  }

  /** Contents, in order, of the entries that came from s. */
  function From(es: seq<Entry>, s: Place): seq<seq<seq<Byte>>> {
    if es == [] then []
    else From(es[..|es| - 1], s) + if es[|es| - 1].src == s then [es[|es| - 1].frames] else []
  }

  /** Contents, in order, of the messages of s that go to mailbox M. */
  function To(ls: seq<Letter>, s: Place, box: nat, M: Place): seq<seq<seq<Byte>>> {
    if ls == [] then []
    else To(ls[..|ls| - 1], s, box, M) + if Last(ls).dest == M then [LetterFrames(s, box, Last(ls))] else []
  }

  /** Mailbox M holds, from socket s, exactly the landed messages addressed to it, in order. */
  ghost predicate OrderOk(s: Place, box: nat, t: Track, M: Place, l: Log) {
    t.landed <= |t.sent| && From(l.enq, s) == To(t.sent[..t.landed], s, box, M)
  }

  ghost predicate OrderAt(st: State, s: Place, M: Place)
    requires Domains(st) && s in st.w.socks && M in st.w.queues
  {
    OrderOk(s, st.w.socks[s].box, st.h.tracks[s], M, st.h.logs[M])
  }

  ghost predicate OrdersOk(st: State)
    requires Domains(st)
  {
    && (forall s, M {:trigger OrderAt(st, s, M)} :: s in st.w.socks && M in st.w.queues ==> OrderAt(st, s, M))
    && (forall M, k :: M in st.w.queues && 0 <= k < |st.h.logs[M].enq| ==> st.h.logs[M].enq[k].src in st.w.socks)
  }

  ghost predicate Inv(st: State) {
    Domains(st) && Config(st.w) && SocksOk(st) && HeapOk(st) && BoxesOk(st) && OrdersOk(st)
  }
}

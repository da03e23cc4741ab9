/**
 Socket messages between nodes (hsock.c): `flood`, `client_new` and the active
 message handlers, as a step machine.

 Requests and replies in flight form an unordered bag; each is delivered exactly
 once, at any time. The bag is kept in parts, with each socket the messages that
 name its atomic cell. A handler runs as one step. A socket is driven by one thread.
 GASNET_BLOCKUNTIL(c) is a step that is ready only when c holds.
 */
module FloodModel {
  import opened Words
  import opened Picture
  import opened SockCodec

  /** An address on a node: of a mailbox, a frame array, or an atomic cell. A socket is known by its cell. */
  datatype Place = Place(node: nat, addr: nat)

  datatype Msg =
    | PictureReq(from: nat, to: nat, buf: seq<Byte>)
    | FragmentReq(from: nat, to: nat, frames: nat, frameId: nat, offset: nat, cell: nat, bytes: seq<Byte>)
    | TerminateReq(from: nat, to: nat, frames: nat, mailbox: nat, cell: nat)
    | ConnectReq(from: nat, to: nat, endpoint: nat, cell: nat)
    | SetCell(to: nat, val: nat, cell: nat)     // transmission reply with ATOMIC_SET, and connection reply
    | AddCell(to: nat, val: nat, cell: nat)     // transmission reply with ATOMIC_INCR

  /** Where the socket's thread is inside flood or client_new. */
  datatype Pc =
    | Idle
    | AwaitAck
    | AwaitFrames
    | Flooding(fp: nat, i: nat, offset: nat, counter: nat)
    | AwaitCount(fp: nat, counter: nat)
    | AwaitTerm(fp: nat)
    | AwaitServer(node: nat, endpoint: nat)

  /**
   cell: the atomic cell; box: own mailbox; dest, frames: destination and payloads of
   the message being sent; server: mailbox obtained by connect; wire: the messages in
   flight that name this cell.
   */
  datatype Sock = Sock(
    cell: nat, pc: Pc, box: nat, dest: Place,
    frames: seq<seq<Byte>>, server: Place, wire: multiset<Msg>)

  datatype World = World(
    socks: map<Place, Sock>,
    heap: map<Place, seq<seq<Byte>>>,    // frame arrays
    queues: map<Place, seq<nat>>,        // mailboxes: addresses of frame arrays on the mailbox's node
    bound: map<Place, nat>,              // endpoint on a node -> mailbox of the server bound there
    fault: bool)                         // an access outside allocated memory

  /** A message to be sent. */
  datatype Letter = Letter(dest: Place, args: seq<Arg>)

  datatype Entry = Entry(src: Place, frames: seq<seq<Byte>>)

  /**
   sent: messages whose sending began; landed: how many of them were enqueued;
   building: the frame array being filled (0 for none); reply: value of the reply
   last sent back.
   */
  datatype Track = Track(sent: seq<Letter>, landed: nat, building: nat, reply: nat)

  /** Entries pushed to a mailbox, and contents popped from it. */
  datatype Log = Log(enq: seq<Entry>, got: seq<seq<seq<Byte>>>)

  datatype History = History(tracks: map<Place, Track>, logs: map<Place, Log>)

  datatype State = State(w: World, h: History)

  datatype Action =
    | Send(s: Place, dest: Place, args: seq<Arg>)     // serialize, and flood up to its first wait
    | GotAck(s: Place)
    | GotFrames(s: Place)
    | SendFragment(s: Place)
    | NextFrame(s: Place)
    | EndFlood(s: Place)
    | GotCount(s: Place)
    | GotTerm(s: Place)
    | Open(s: Place, node: nat, endpoint: nat)        // client_new up to its wait
    | Opened(s: Place)
    | Take(s: Place)                                  // hfunnel_pop and deserialize
    | Deliver(s: Place, m: Msg, a: nat)               // run m's handler; a is the address its allocation returns
    | Bind(s: Place, endpoint: nat)
    | Unbind(node: nat, endpoint: nat)

  const NOT_YET: nat := U64 - 1    // UINT64_MAX in client_new

  function Mail(s: Place, k: Sock): Place {
    Place(s.node, k.box)
  }

  function HeaderOf(s: Place, box: nat, l: Letter): Header {
    Header(|Payloads(l.args)|, l.dest.addr, s.node, s.addr, box)
  }

  /** The picture frame of a message from socket s. */
  function PacketOf(s: Place, box: nat, l: Letter): seq<Byte> {
    Packet(HeaderOf(s, box, l), l.args)
  }

  function LetterFrames(s: Place, box: nat, l: Letter): seq<seq<Byte>> {
    [PacketOf(s, box, l)] + Payloads(l.args)
  }

  /** What the code asks of a message: it fits the buffer, and payloads are below 4 GB. */
  predicate LetterFits(s: Place, box: nat, l: Letter) {
    InRange(l.args) && PacketSize(l.args) <= MAX_MEDIUM && HeaderFits(HeaderOf(s, box, l))
  }

  /** memcpy of a fragment into a frame. */
  function Splice(f: seq<Byte>, offset: nat, bytes: seq<Byte>): (r: seq<Byte>)
    requires offset + |bytes| <= |f|
    ensures |r| == |f|
  {
    f[..offset] + bytes + f[offset + |bytes|..]
  }

  function Blank(n: nat): (b: seq<Byte>)
    ensures |b| == n
  {
    seq(n, i => 0)
  }

  /** The empty frames that the picture handler allocates from the size table. */
  function BlankFrames(buf: seq<Byte>, count: nat): (fs: seq<seq<Byte>>)
    requires 8 * count <= |buf|
    ensures |fs| == count
    ensures forall i :: 0 <= i < count ==> |fs[i]| == TailSize(buf, count, i)
  {
    seq(count, i requires 0 <= i < count => Blank(TailSize(buf, count, i)))
  }

  // ---------------------------------------------------------------- enabling

  predicate Enabled(w: World, x: Action) {
    match x
    case Send(s, dest, args) =>
      s in w.socks && w.socks[s].pc.Idle? && dest in w.queues && LetterFits(s, w.socks[s].box, Letter(dest, args))
    case GotAck(s) => s in w.socks && w.socks[s].pc.AwaitAck? && w.socks[s].cell != 0
    case GotFrames(s) => s in w.socks && w.socks[s].pc.AwaitFrames? && w.socks[s].cell != 0
    case SendFragment(s) =>
      s in w.socks && var k := w.socks[s]; k.pc.Flooding? && k.pc.i < |k.frames| && k.pc.offset < |k.frames[k.pc.i]|
    case NextFrame(s) =>
      s in w.socks && var k := w.socks[s]; k.pc.Flooding? && k.pc.i < |k.frames| && k.pc.offset >= |k.frames[k.pc.i]|
    case EndFlood(s) => s in w.socks && var k := w.socks[s]; k.pc.Flooding? && k.pc.i >= |k.frames|
    case GotCount(s) => s in w.socks && var k := w.socks[s]; k.pc.AwaitCount? && k.cell == k.pc.counter
    case GotTerm(s) => s in w.socks && w.socks[s].pc.AwaitTerm? && w.socks[s].cell > 0
    case Open(s, node, endpoint) => s in w.socks && w.socks[s].pc.Idle?
    case Opened(s) => s in w.socks && w.socks[s].pc.AwaitServer? && w.socks[s].cell != NOT_YET
    case Take(s) =>
      s in w.socks && w.socks[s].pc.Idle? && Mail(s, w.socks[s]) in w.queues && w.queues[Mail(s, w.socks[s])] != []
    case Deliver(s, m, a) =>
      s in w.socks && m in w.socks[s].wire && (m.PictureReq? ==> a != 0 && Place(m.to, a) !in w.heap)
    case Bind(s, endpoint) => s in w.socks && Place(s.node, endpoint) !in w.bound
    case Unbind(node, endpoint) => Place(node, endpoint) in w.bound
  }

  // ---------------------------------------------------------------- effects

  function WithSock(w: World, s: Place, k: Sock): World {
    w.(socks := w.socks[s := k])
  }

  /** Hand a message that names cell p to the network. */
  function Post(w: World, p: Place, m: Msg): World {
    if p in w.socks then WithSock(w, p, w.socks[p].(wire := w.socks[p].wire + multiset{m})) else w.(fault := true)
  }

  function Drop(w: World, s: Place, m: Msg): World
    requires s in w.socks
  {
    WithSock(w, s, w.socks[s].(wire := w.socks[s].wire - multiset{m}))
  }

  function Enqueue(w: World, mailbox: Place, fp: nat): World {
    if mailbox in w.queues then w.(queues := w.queues[mailbox := w.queues[mailbox] + [fp]]) else w.(fault := true)
  }

  function Handle(w: World, m: Msg, a: nat): World {
    match m
    case PictureReq(from, to, buf) =>
      if |buf| < HEADER || 8 * Parse(buf).payloadCount > |buf| then w.(fault := true)
      else
        var h := Parse(buf);
        var w1 := w.(heap := w.heap[Place(to, a) := [buf] + BlankFrames(buf, h.payloadCount)]);
        if h.payloadCount != 0 then Post(w1, Place(from, h.atomicObj), SetCell(from, a, h.atomicObj))
        else Post(Enqueue(w1, Place(to, h.destMailbox), a), Place(from, h.atomicObj), SetCell(from, 1, h.atomicObj))
    case FragmentReq(from, to, fp, frameId, offset, cell, bytes) =>
      var p := Place(to, fp);
      if p !in w.heap || frameId >= |w.heap[p]| || offset + |bytes| > |w.heap[p][frameId]| then w.(fault := true)
      else Post(w.(heap := w.heap[p := w.heap[p][frameId := Splice(w.heap[p][frameId], offset, bytes)]]),
                Place(from, cell), AddCell(from, 1, cell))
    case TerminateReq(from, to, fp, mailbox, cell) =>
      Post(Enqueue(w, Place(to, mailbox), fp), Place(from, cell), SetCell(from, 1, cell))
    case ConnectReq(from, to, endpoint, cell) =>
      var e := Place(to, endpoint);
      Post(w, Place(from, cell), SetCell(from, if e in w.bound then w.bound[e] else 0, cell))
    case SetCell(to, val, cell) =>
      var p := Place(to, cell);
      if p in w.socks then WithSock(w, p, w.socks[p].(cell := val)) else w.(fault := true)
    case AddCell(to, val, cell) =>
      var p := Place(to, cell);
      if p in w.socks then WithSock(w, p, w.socks[p].(cell := w.socks[p].cell + val)) else w.(fault := true)
  }

  function Effect(w: World, x: Action): World
    requires Enabled(w, x)
  {
    match x
    case Send(s, dest, args) =>
      var k, l := w.socks[s], Letter(dest, args);
      var k' := k.(cell := 0, pc := if Payloads(args) == [] then AwaitAck else AwaitFrames,
                 dest := dest, frames := Payloads(args));
      Post(WithSock(w, s, k'), s, PictureReq(s.node, dest.node, PacketOf(s, k.box, l)))
    case GotAck(s) => WithSock(w, s, w.socks[s].(cell := 0, pc := Idle))
    case GotFrames(s) => WithSock(w, s, w.socks[s].(cell := 0, pc := Flooding(w.socks[s].cell, 0, 0, 0)))
    case SendFragment(s) =>
      var k := w.socks[s];
      var Flooding(fp, i, offset, counter) := k.pc;
      var n := Min(|k.frames[i]| - offset, MAX_MEDIUM);
      Post(WithSock(w, s, k.(pc := Flooding(fp, i, offset + n, counter + 1))), s,
           FragmentReq(s.node, k.dest.node, fp, i + 1, offset, s.addr, k.frames[i][offset..offset + n]))
    case NextFrame(s) =>
      var k := w.socks[s];
      WithSock(w, s, k.(pc := k.pc.(i := k.pc.i + 1, offset := 0)))
    case EndFlood(s) =>
      var k := w.socks[s];
      WithSock(w, s, k.(pc := AwaitCount(k.pc.fp, k.pc.counter)))
    case GotCount(s) =>
      var k := w.socks[s];
      Post(WithSock(w, s, k.(cell := 0, pc := AwaitTerm(k.pc.fp))), s,
           TerminateReq(s.node, k.dest.node, k.pc.fp, k.dest.addr, s.addr))
    case GotTerm(s) => WithSock(w, s, w.socks[s].(cell := 0, pc := Idle))
    case Open(s, node, endpoint) =>
      Post(WithSock(w, s, w.socks[s].(cell := NOT_YET, pc := AwaitServer(node, endpoint))), s,
           ConnectReq(s.node, node, endpoint, s.addr))
    case Opened(s) =>
      var k := w.socks[s];
      WithSock(w, s, k.(cell := NOT_YET, pc := Idle,
                        server := if k.cell != 0 then Place(k.pc.node, k.cell) else k.server))
    case Take(s) =>
      var M := Mail(s, w.socks[s]);
      var p := Place(s.node, w.queues[M][0]);
      if p !in w.heap then w.(fault := true)
      else w.(queues := w.queues[M := w.queues[M][1..]], heap := w.heap - {p})
    case Deliver(s, m, a) => Handle(Drop(w, s, m), m, a)
    case Bind(s, endpoint) => w.(bound := w.bound[Place(s.node, endpoint) := w.socks[s].box])
    case Unbind(node, endpoint) => w.(bound := w.bound - {Place(node, endpoint)})
  }

  // ---------------------------------------------------------------- record

  function TrackOf(h: History, s: Place): Track {
    if s in h.tracks then h.tracks[s] else Track([], 0, 0, 0)
  }

  function LogOf(h: History, M: Place): Log {
    if M in h.logs then h.logs[M] else Log([], [])
  }

  function ArrayAt(w: World, p: Place): seq<seq<Byte>> {
    if p in w.heap then w.heap[p] else []
  }

  function Landed(h: History, src: Place, mailbox: Place, frames: seq<seq<Byte>>): History {
    var t, l := TrackOf(h, src), LogOf(h, mailbox);
    h.(tracks := h.tracks[src := t.(landed := t.landed + 1, building := 0, reply := 1)],
    logs := h.logs[mailbox := l.(enq := l.enq + [Entry(src, frames)])])
  }

  function Record(h: History, w: World, x: Action): History
    requires Enabled(w, x)
  {
    match x
    case Send(s, dest, args) =>
      var t := TrackOf(h, s);
      h.(tracks := h.tracks[s := t.(sent := t.sent + [Letter(dest, args)])])
    case Take(s) =>
      var M := Mail(s, w.socks[s]);
      var l := LogOf(h, M);
      h.(logs := h.logs[M := l.(got := l.got + [ArrayAt(w, Place(s.node, w.queues[M][0]))])])
    case Deliver(s, m, a) =>
      (match m
       case PictureReq(from, to, buf) =>
         if |buf| < HEADER || 8 * Parse(buf).payloadCount > |buf| then h
         else
           var src := Place(from, Parse(buf).atomicObj);
           if Parse(buf).payloadCount == 0 then Landed(h, src, Place(to, Parse(buf).destMailbox), [buf])
           else h.(tracks := h.tracks[src := TrackOf(h, src).(building := a, reply := a)])
       case TerminateReq(from, to, fp, mailbox, cell) =>
         Landed(h, Place(from, cell), Place(to, mailbox), ArrayAt(w, Place(to, fp)))
       case ConnectReq(from, to, endpoint, cell) =>
         var src, e := Place(from, cell), Place(to, endpoint);
         h.(tracks := h.tracks[src := TrackOf(h, src).(reply := if e in w.bound then w.bound[e] else 0)])
       case _ => h)
    case _ => h
  }

  function Step(st: State, x: Action): State {
    if Enabled(st.w, x) then State(Effect(st.w, x), Record(st.h, st.w, x)) else st
  }

  function Run(st: State, xs: seq<Action>): State {
    if xs == [] then st else Step(Run(st, xs[..|xs| - 1]), xs[|xs| - 1])
  }
}

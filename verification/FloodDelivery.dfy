/** A delivery concerns one socket: the one whose atomic cell the message names. */
module FloodDelivery {
  import opened SockCodec
  import opened FloodModel
  import opened FloodInv
  import opened FloodHandlers
  import opened FloodLanding

  /** The atomic cell that a message names. */
  function CellOf(m: Msg): Place {
    match m
    case PictureReq(from, _, buf) => if |buf| < HEADER then Place(from, 0) else Place(from, Parse(buf).atomicObj)
    case FragmentReq(from, _, _, _, _, cell, _) => Place(from, cell)
    case TerminateReq(from, _, _, _, cell) => Place(from, cell)
    case ConnectReq(from, _, _, cell) => Place(from, cell)
    case SetCell(to, _, cell) => Place(to, cell)
    case AddCell(to, _, cell) => Place(to, cell)
  }

  /** Messages are kept with the socket whose cell they name. */
  lemma NamesCell(heap: Heap, boxes: set<Place>, s: Place, k: Sock, t: Track, m: Msg)
    requires SockOk(heap, boxes, s, k, t) && m in k.wire
    ensures CellOf(m) == s
  {
    match m
    case PictureReq(_, _, _) => PictureOrigin(heap, boxes, s, k, t, m);
    case FragmentReq(_, _, _, _, _, _, _) => FragmentSock(heap, boxes, s, k, t, m);
    case TerminateReq(_, _, _, _, _) => TerminateSock(heap, boxes, s, k, t, m);
    case ConnectReq(_, _, _, _) => ConnectSock(heap, boxes, s, k, t, m, 0);
    case SetCell(_, _, _) => SetReplySock(heap, boxes, s, k, t, m);
    case AddCell(_, _, _) => AddReplySock(heap, boxes, s, k, t, m);
  }

  /** The sockets other than u are as they were. */
  ghost predicate OtherSocks(w: World, w': World, u: Place) {
    forall s :: s in w.socks && s != u ==> s in w'.socks && w'.socks[s] == w.socks[s]
  }

  ghost predicate OtherTracks(h: History, h': History, u: Place) {
    forall s :: s in h.tracks && s != u ==> s in h'.tracks && h'.tracks[s] == h.tracks[s]
  }

  lemma PostConcernsOne()
    ensures forall w, p, m :: OtherSocks(w, Post(w, p, m), p)
    ensures forall w, p, a :: Enqueue(w, p, a).socks == w.socks
  {
  }

  lemma HandleConcernsOne(w: World, m: Msg, a: nat)
    ensures OtherSocks(w, Handle(w, m, a), CellOf(m))
  {
    PostConcernsOne();
    hide Post, Enqueue, Parse, Splice, BlankFrames;
  }

  lemma RecordConcernsOne(h: History, w: World, x: Action)
    requires Enabled(w, x) && x.Deliver?
    ensures OtherTracks(h, Record(h, w, x), CellOf(x.m))
  {
    hide Parse, LetterFits, Splice, BlankFrames;
  }

  lemma DeliveryConcernsOne(st: State, x: Action)
    requires Enabled(st.w, x) && x.Deliver? && CellOf(x.m) == x.s
    ensures OtherSocks(st.w, Step(st, x).w, x.s) && OtherTracks(st.h, Step(st, x).h, x.s)
  {
    HandleConcernsOne(Drop(st.w, x.s, x.m), x.m, x.a);
    RecordConcernsOne(st.h, st.w, x);
    hide CellOf, Handle, Record;
    assert OtherSocks(st.w, Drop(st.w, x.s, x.m), x.s);
  }
}

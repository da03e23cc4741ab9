/** What a step on behalf of one socket leaves alone. */
module FloodFrame {
  import opened Picture
  import opened FloodModel
  import opened FloodInv

  /** Only socket s's own state and record may differ; its mailbox address does not. */
  ghost predicate OnlySock(st: State, st': State, s: Place) {
    && Domains(st) && Domains(st') && s in st.w.socks && s in st'.w.socks
    && st'.w.socks == st.w.socks[s := st'.w.socks[s]] && st'.h.tracks == st.h.tracks[s := st'.h.tracks[s]]
    && st'.w.socks[s].box == st.w.socks[s].box && st'.w.queues.Keys == st.w.queues.Keys
  }

  lemma ConfigKept(w: World, w': World, s: Place)
    requires Config(w) && s in w.socks && s in w'.socks && w'.socks == w.socks[s := w'.socks[s]]
    requires w'.socks[s].box == w.socks[s].box
    requires w'.bound == w.bound && !w'.fault && w'.queues.Keys == w.queues.Keys
    ensures Config(w')
  {
    assert forall t :: t in w'.socks ==> t in w.socks && w'.socks[t].box == w.socks[t].box;
  }

  /** A socket whose own state, record and frame array did not change is still in order. */
  lemma SockKept(heap: Heap, heap': Heap, boxes: set<Place>, s: Place, k: Sock, t: Track)
    requires SockOk(heap, boxes, s, k, t)
    requires t.building != 0 && Target(k, t.building) in heap ==>
               Target(k, t.building) in heap' && heap'[Target(k, t.building)] == heap[Target(k, t.building)]
    ensures SockOk(heap', boxes, s, k, t)
  {
    hide PacketOf, LetterFits, LetterFrames, Payloads, BagOk, Shape, Sending, Answered, Asked, Request, AckOk, ServerOk;
  }

  /** The frame arrays of all other sockets are as they were. */
  ghost predicate BuildsKept(st: State, st': State, s: Place) {
    forall t, p :: t != s && Builds(st, t, p) && p in st.w.heap ==> p in st'.w.heap && st'.w.heap[p] == st.w.heap[p]
  }

  lemma OthersKept(st: State, st': State, s: Place)
    requires OnlySock(st, st', s) && SocksOk(st) && BuildsKept(st, st', s) && SockAt(st', s)
    ensures SocksOk(st')
  {
    hide SockOk;
    forall t | t in st'.w.socks && t != s ensures SockAt(st', t) {
      assert SockAt(st, t);
      assert st.h.tracks[t].building != 0 ==> Builds(st, t, Target(st.w.socks[t], st.h.tracks[t].building));
      SockKept(st.w.heap, st'.w.heap, st.w.queues.Keys, t, st.w.socks[t], st.h.tracks[t]);
    }
  }

  /** The frame arrays in mailboxes are as they were. */
  ghost predicate QueuedKept(w: World, w': World) {
    forall M, k, p :: Queued(w, M, k, p) && p in w.heap ==> p in w'.heap && w'.heap[p] == w.heap[p]
  }

  lemma BoxesKept(st: State, st': State)
    requires Domains(st) && Domains(st') && BoxesOk(st) && QueuedKept(st.w, st'.w)
    requires st'.w.queues == st.w.queues && st'.h.logs == st.h.logs
    ensures BoxesOk(st')
  {
    forall M | M in st'.w.queues ensures BoxAt(st', M) {
      assert BoxAt(st, M);
      assert forall k :: 0 <= k < |st.w.queues[M]| ==> Queued(st.w, M, k, Place(M.node, st.w.queues[M][k]));
    }
  }

  lemma OrdersKept(st: State, st': State, s: Place)
    requires OnlySock(st, st', s) && OrdersOk(st) && st'.h.logs == st.h.logs
    requires st'.h.tracks[s].landed == st.h.tracks[s].landed && st.h.tracks[s].sent <= st'.h.tracks[s].sent
    ensures OrdersOk(st')
  {
    hide From, To;
    forall t, M | t in st'.w.socks && M in st'.w.queues ensures OrderAt(st', t, M) {
      assert OrderAt(st, t, M);
      assert st'.h.tracks[t].sent[..st'.h.tracks[t].landed] == st.h.tracks[t].sent[..st.h.tracks[t].landed];
    }
  }

  lemma HeapKept(st: State, st': State)
    requires HeapOk(st) && st'.w.queues == st.w.queues && st'.w.heap.Keys == st.w.heap.Keys
    requires forall t, p :: Builds(st', t, p) ==> Builds(st, t, p)
    ensures HeapOk(st')
  {
    hide Builds;
    assert forall M, k, p :: Queued(st'.w, M, k, p) ==> Queued(st.w, M, k, p);
  }

  /** A step that changes only socket s itself, and not what it has built or landed, keeps everything else. */
  lemma OwnStep(st: State, st': State, s: Place)
    requires Inv(st) && OnlySock(st, st', s) && SockAt(st', s)
    requires st'.w.heap == st.w.heap && st'.w.queues == st.w.queues && st'.w.bound == st.w.bound
    requires !st'.w.fault && st'.h.logs == st.h.logs
    requires st'.h.tracks[s].landed == st.h.tracks[s].landed && st.h.tracks[s].sent <= st'.h.tracks[s].sent
    requires st'.h.tracks[s].building == st.h.tracks[s].building
    requires st.h.tracks[s].building != 0 ==> st'.w.socks[s].dest == st.w.socks[s].dest
    ensures Inv(st')
  {
    hide SockOk, BoxOk, OrderOk;
    ConfigKept(st.w, st'.w, s);
    BuildsSame(st, st', s);
    HeapKept(st, st');
    OthersKept(st, st', s);
    BoxesKept(st, st');
    OrdersKept(st, st', s);
  }

  lemma BuildsSame(st: State, st': State, s: Place)
    requires OnlySock(st, st', s) && st'.h.tracks[s].building == st.h.tracks[s].building
    requires st.h.tracks[s].building != 0 ==> st'.w.socks[s].dest == st.w.socks[s].dest
    ensures forall t, p :: Builds(st', t, p) <==> Builds(st, t, p)
  {
  }
}

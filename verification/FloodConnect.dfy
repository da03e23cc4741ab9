/**
 What a connect returns: the registry's answer for the endpoint it asked for, at the
 moment when its own request was handled.
 */
module FloodConnect {
  import opened FloodModel
  import opened FloodInv
  import opened FloodHandlers
  import opened FloodResults
  import opened FloodReceipt
  import opened FloodProgress

  /** The registry's answer for an endpoint: the mailbox of the server bound there, or NULL. */
  function Answer(w: World, e: Place): nat {
    if e in w.bound then w.bound[e] else 0
  }

  /** The latest connect that s began is step o of the schedule, to this node and endpoint. */
  ghost predicate OpensAt(st0: State, xs: seq<Action>, o: nat, s: Place, node: nat, endpoint: nat) {
    && o < |xs| && xs[o] == Open(s, node, endpoint) && Enabled(Run(st0, xs[..o]).w, xs[o])
    && forall j :: o < j < |xs| && xs[j].Open? && xs[j].s == s ==> !Enabled(Run(st0, xs[..j]).w, xs[j])
  }

  /**
   The request of s for this node and endpoint is handled in step i, and v is the
   registry's answer at that moment.
   */
  ghost predicate AnsweredAt(st0: State, xs: seq<Action>, i: nat, s: Place, node: nat, endpoint: nat, v: nat) {
    && i < |xs| && xs[i].Deliver? && xs[i].s == s && xs[i].m == ConnectReq(s.node, node, endpoint, s.addr)
    && Enabled(Run(st0, xs[..i]).w, xs[i]) && v == Answer(Run(st0, xs[..i]).w, Place(node, endpoint))
  }

  /** How a socket comes to wait for a server, or goes on waiting. */
  ghost predicate Waits(st: State, s: Place, x: Action, st': State) {
    && s in st.w.socks && s in st'.w.socks && s in st.h.tracks && s in st'.h.tracks && st'.w.socks[s].pc.AwaitServer?
    && var k, k', t, t' := st.w.socks[s], st'.w.socks[s], st.h.tracks[s], st'.h.tracks[s];
       var request := ConnectReq(s.node, k'.pc.node, k'.pc.endpoint, s.addr);
       || (Enabled(st.w, x) && x == Open(s, k'.pc.node, k'.pc.endpoint) && request in k'.wire)
       || (&& k.pc == k'.pc && !(Enabled(st.w, x) && x.Open? && x.s == s)
           && if Enabled(st.w, x) && x.Deliver? && x.s == s && x.m == request
              then t'.reply == Answer(st.w, Place(k.pc.node, k.pc.endpoint))
              else t'.reply == t.reply && (request in k.wire ==> request in k'.wire))
  }

  lemma OwnDelivery(st: State, s: Place, x: Action)
    requires Inv(st) && Enabled(st.w, x) && x.Deliver? && x.s == s
    requires s in Step(st, x).w.socks && Step(st, x).w.socks[s].pc.AwaitServer?
    ensures Waits(st, s, x, Step(st, x))
  {
    HandlersKeepThreads(st.w, x);
    assert s in st.h.tracks && SockAt(st, s);
    Addressee(st.w.heap, st.w.queues.Keys, s, st.w.socks[s], st.h.tracks[s], x.m);
    HandledReply(st.h, st.w, s, x);
    hide Inv, Effect, Record, SockAt;
  }

  /** Handling the request of s records the registry's answer; handling the answer records nothing. */
  lemma HandledReply(h: History, w: World, s: Place, x: Action)
    requires Enabled(w, x) && x.Deliver? && s in h.tracks
    ensures x.m.ConnectReq? && Place(x.m.from, x.m.cell) == s ==>
      s in Record(h, w, x).tracks && Record(h, w, x).tracks[s].reply == Answer(w, Place(x.m.to, x.m.endpoint))
    ensures x.m.SetCell? ==> Record(h, w, x) == h
  {
    hide LetterFits;
  }

  /** A socket that waits for a server has its request or the answer to it in flight. */
  lemma Addressee(heap: Heap, boxes: set<Place>, s: Place, k: Sock, t: Track, m: Msg)
    requires SockOk(heap, boxes, s, k, t) && m in k.wire
    ensures k.pc.AwaitServer? ==>
      (k.wire == multiset{m}
       && (m == ConnectReq(s.node, k.pc.node, k.pc.endpoint, s.addr) || m == SetCell(s.node, t.reply, s.addr)))
  {
  }

  lemma StepWaits(st: State, s: Place, x: Action)
    requires Inv(st) && s in Step(st, x).w.socks && Step(st, x).w.socks[s].pc.AwaitServer?
    ensures Waits(st, s, x, Step(st, x))
  {
    if x.Deliver? && Enabled(st.w, x) && x.s == s {
      OwnDelivery(st, s, x);
    } else if x.Deliver? && Enabled(st.w, x) {
      HandlersKeepThreads(st.w, x);
      hide Inv, Effect, Enabled, Record;
      OthersKeep(st, s, x);
    } else {
      OwnWaits(st, s, x);
    }
  }

  lemma OwnWaits(st: State, s: Place, x: Action)
    requires Domains(st) && s in Step(st, x).w.socks && Step(st, x).w.socks[s].pc.AwaitServer?
    requires !(x.Deliver? && Enabled(st.w, x))
    ensures Waits(st, s, x, Step(st, x))
  {
    hide PacketOf, LetterFits, Splice;
  }

  // ---------------------------------------------------------------- whole runs

  lemma OpensNow(st0: State, xs: seq<Action>, s: Place, node: nat, endpoint: nat)
    requires xs != [] && xs[|xs| - 1] == Open(s, node, endpoint) && Enabled(Run(st0, xs[..|xs| - 1]).w, xs[|xs| - 1])
    ensures OpensAt(st0, xs, |xs| - 1, s, node, endpoint)
  {
  }

  lemma AnsweredNow(st0: State, xs: seq<Action>, s: Place, node: nat, endpoint: nat, v: nat)
    requires xs != [] && var x, w := xs[|xs| - 1], Run(st0, xs[..|xs| - 1]).w;
      && x.Deliver? && x.s == s && x.m == ConnectReq(s.node, node, endpoint, s.addr) && Enabled(w, x)
      && v == Answer(w, Place(node, endpoint))
    ensures AnsweredAt(st0, xs, |xs| - 1, s, node, endpoint, v)
  {
  }

  lemma OpensLater(st0: State, xs: seq<Action>, o: nat, s: Place, node: nat, endpoint: nat)
    requires xs != [] && OpensAt(st0, xs[..|xs| - 1], o, s, node, endpoint)
    requires xs[|xs| - 1].Open? && xs[|xs| - 1].s == s ==> !Enabled(Run(st0, xs[..|xs| - 1]).w, xs[|xs| - 1])
    ensures OpensAt(st0, xs, o, s, node, endpoint)
  {
    var ys := xs[..|xs| - 1];
    hide Enabled, Run;
    assert ys[..o] == xs[..o];
    forall j | o < j < |xs| && xs[j].Open? && xs[j].s == s ensures !Enabled(Run(st0, xs[..j]).w, xs[j]) {
      if j < |ys| { assert ys[..j] == xs[..j] && ys[j] == xs[j]; }
    }
  }

  lemma OpensBefore(st0: State, xs: seq<Action>, o: nat, s: Place, node: nat, endpoint: nat)
    requires OpensAt(st0, xs, o, s, node, endpoint)
    ensures o < |xs|
  {
  }

  lemma AnsweredLater(st0: State, xs: seq<Action>, i: nat, s: Place, node: nat, endpoint: nat, v: nat)
    requires xs != [] && AnsweredAt(st0, xs[..|xs| - 1], i, s, node, endpoint, v)
    ensures AnsweredAt(st0, xs, i, s, node, endpoint, v)
  {
    hide Enabled, Run, Answer;
    assert xs[..|xs| - 1][..i] == xs[..i];
  }

  /** A waiting socket has opened its connection, and once its request is gone it was handled since. */
  ghost predicate TrailOk(st0: State, xs: seq<Action>, st: State, s: Place, o: nat, i: nat) {
    && s in st.w.socks && s in st.h.tracks && st.w.socks[s].pc.AwaitServer?
    && var k := st.w.socks[s];
       && OpensAt(st0, xs, o, s, k.pc.node, k.pc.endpoint)
       && (ConnectReq(s.node, k.pc.node, k.pc.endpoint, s.addr) in k.wire
           || (o < i && AnsweredAt(st0, xs, i, s, k.pc.node, k.pc.endpoint, st.h.tracks[s].reply)))
  }

  /** The socket goes on waiting. */
  lemma TrailStep(st0: State, xs: seq<Action>, st: State, s: Place, o: nat, i: nat, st': State) returns (i': nat)
    requires xs != [] && var x := xs[|xs| - 1]; Waits(st, s, x, st') && !(Enabled(st.w, x) && x.Open? && x.s == s)
    requires st == Run(st0, xs[..|xs| - 1]) && TrailOk(st0, xs[..|xs| - 1], st, s, o, i)
    ensures TrailOk(st0, xs, st', s, o, i')
  {
    hide Enabled, Run, OpensAt, AnsweredAt, Answer;
    var x, pc := xs[|xs| - 1], st.w.socks[s].pc;
    OpensLater(st0, xs, o, s, pc.node, pc.endpoint);
    OpensBefore(st0, xs[..|xs| - 1], o, s, pc.node, pc.endpoint);
    i' := i;
    if Enabled(st.w, x) && x.Deliver? && x.s == s && x.m == ConnectReq(s.node, pc.node, pc.endpoint, s.addr) {
      i' := |xs| - 1;
      AnsweredNow(st0, xs, s, pc.node, pc.endpoint, st'.h.tracks[s].reply);
    } else if ConnectReq(s.node, pc.node, pc.endpoint, s.addr) !in st.w.socks[s].wire {
      AnsweredLater(st0, xs, i, s, pc.node, pc.endpoint, st.h.tracks[s].reply);
    }
  }

  lemma {:induction false} Trail(st0: State, xs: seq<Action>, s: Place) returns (o: nat, i: nat)
    requires Start(st0) && s in Run(st0, xs).w.socks && Run(st0, xs).w.socks[s].pc.AwaitServer?
    ensures TrailOk(st0, xs, Run(st0, xs), s, o, i)
    decreases |xs|
  {
    o, i := 0, 0;
    if xs != [] {
      var ys, x := xs[..|xs| - 1], xs[|xs| - 1];
      var st, st' := Run(st0, ys), Run(st0, xs);
      Reached(st0, ys);
      StepWaits(st, s, x);
      hide Inv, Step, Enabled, Answer, Start, Run, OpensAt, AnsweredAt;
      if Enabled(st.w, x) && x.Open? && x.s == s {
        o := |ys|;
        OpensNow(st0, xs, s, st'.w.socks[s].pc.node, st'.w.socks[s].pc.endpoint);
      } else {
        o, i := Trail(st0, ys, s);
        i := TrailStep(st0, xs, st, s, o, i, st');
      }
    }
  }

  /**
   When a connect to (node, endpoint) returns, its own request was handled in some
   step i since it began, and the value it returns is what the registry said for that
   endpoint in the state just before that step: the mailbox of the server bound there,
   which exists on that node, or NULL exactly when there was none.
   */
  lemma ConnectAnswer(st0: State, xs: seq<Action>, s: Place) returns (o: nat, i: nat)
    requires Start(st0) && Enabled(Run(st0, xs).w, Opened(s))
    ensures var k := Run(st0, xs).w.socks[s];
      && OpensAt(st0, xs, o, s, k.pc.node, k.pc.endpoint)
      && o < i && AnsweredAt(st0, xs, i, s, k.pc.node, k.pc.endpoint, k.cell)
      && (k.cell == 0 <==> Place(k.pc.node, k.pc.endpoint) !in Run(st0, xs[..i]).w.bound)
      && (k.cell != 0 ==> Place(k.pc.node, k.cell) in Run(st0, xs).w.queues)
  {
    o, i := Trail(st0, xs, s);
    ConnectOutcome(st0, xs, s);
    Reached(st0, xs);
    NotAsking(Run(st0, xs), s);
    hide Run, Inv, Enabled;
    var k := Run(st0, xs).w.socks[s];
    Reached(st0, xs[..i]);
    BoundOk(Run(st0, xs[..i]), Place(k.pc.node, k.pc.endpoint));
  }

  lemma NotAsking(st: State, s: Place)
    requires Inv(st) && Enabled(st.w, Opened(s))
    ensures ConnectReq(s.node, st.w.socks[s].pc.node, st.w.socks[s].pc.endpoint, s.addr) !in st.w.socks[s].wire
  {
    hide HeapOk, BoxesOk, OrdersOk, Config;
    assert SockAt(st, s);
  }
}

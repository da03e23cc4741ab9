/**
 Calls go through: a send from any idle socket to any mailbox puts exactly its message
 there, a connect leaves the client with the mailbox of the server bound at the time,
 and a receipt takes the oldest message.
 */
module FloodCalls {
  import opened Picture
  import opened SockCodec
  import opened FloodModel
  import opened FloodInv
  import opened FloodDelivery
  import opened FloodResults
  import opened FloodProgress

  lemma {:induction false} RunSplit(st: State, xs: seq<Action>, ys: seq<Action>)
    ensures Run(st, xs + ys) == Run(Run(st, xs), ys)
    decreases |ys|
  {
    hide Step;
    if ys == [] {
      assert xs + ys == xs;
    } else {
      var n := |ys| - 1;
      RunSplit(st, xs, ys[..n]);
      assert (xs + ys)[..|xs| + n] == xs + ys[..n] && (xs + ys)[|xs| + n] == ys[n];
    }
  }

  // ---------------------------------------------------------------- what a call leaves alone

  /** The log grew by entries of s alone. */
  ghost predicate Grew(a: seq<Entry>, b: seq<Entry>, s: Place) {
    a <= b && forall i :: |a| <= i < |b| ==> b[i].src == s
  }

  ghost predicate LogsGrew(h: History, h': History, s: Place) {
    && h'.logs.Keys == h.logs.Keys
    && forall N :: N in h.logs ==> h'.logs[N].got == h.logs[N].got && Grew(h.logs[N].enq, h'.logs[N].enq, s)
  }

  lemma RecordGrew(h: History, w: World, x: Action)
    requires Enabled(w, x) && x.Deliver?
    requires Step(State(w, h), x).h.logs.Keys == h.logs.Keys
    ensures LogsGrew(h, Record(h, w, x), CellOf(x.m))
  {
    hide LetterFits, BlankFrames, Effect;
  }

  /** A step on behalf of s adds only to logs, and only entries of s. */
  lemma WorksGrew(st: State, s: Place, x: Action)
    requires Inv(st) && Works(x, s)
    ensures LogsGrew(st.h, Step(st, x).h, s)
  {
    if Enabled(st.w, x) {
      if x.Deliver? {
        assert SockAt(st, s);
        NamesCell(st.w.heap, st.w.queues.Keys, s, st.w.socks[s], st.h.tracks[s], x.m);
        LogKeys(st, x);
        hide Inv, CellOf, Effect, Enabled;
        RecordGrew(st.h, st.w, x);
      } else {
        OwnMoves(st, s, x);
      }
    }
  }

  lemma LogKeys(st: State, x: Action)
    requires Inv(st)
    ensures Step(st, x).h.logs.Keys == st.h.logs.Keys
  {
    StepInv(st, x);
    StepSocks(st, x);
    hide Step, Enabled, Config, SocksOk, HeapOk, BoxesOk, OrdersOk;
  }

  /** Sockets, mailboxes and their addresses stay. */
  ghost predicate SamePlaces(w: World, w': World) {
    && w'.socks.Keys == w.socks.Keys && w'.queues.Keys == w.queues.Keys
    && forall s :: s in w.socks ==> w'.socks[s].box == w.socks[s].box
  }

  lemma PostKeepsPlaces()
    ensures forall w, p, m :: SamePlaces(w, Post(w, p, m))
    ensures forall w, p, a :: SamePlaces(w, Enqueue(w, p, a))
  {
  }

  lemma HandleKeepsPlaces(w: World, m: Msg, a: nat)
    ensures SamePlaces(w, Handle(w, m, a))
  {
    PostKeepsPlaces();
    hide Post, Enqueue, Parse, Splice, BlankFrames;
  }

  lemma StepSocks(st: State, x: Action)
    ensures SamePlaces(st.w, Step(st, x).w)
  {
    if Enabled(st.w, x) {
      if x.Deliver? {
        HandleKeepsPlaces(Drop(st.w, x.s, x.m), x.m, x.a);
        hide Handle;
      } else {
        hide PacketOf, LetterFits;
      }
    }
  }

  lemma {:induction false} RunSocks(st: State, xs: seq<Action>)
    ensures SamePlaces(st.w, Run(st, xs).w)
  {
    hide Step;
    if xs != [] {
      RunSocks(st, xs[..|xs| - 1]);
      StepSocks(Run(st, xs[..|xs| - 1]), xs[|xs| - 1]);
    }
  }

  /** What was sent stays the same while s works on its call. */
  lemma WorksSendNothing(st: State, s: Place, x: Action)
    requires Inv(st) && Works(x, s) && s in st.h.tracks
    ensures s in Step(st, x).h.tracks && Step(st, x).h.tracks[s].sent == st.h.tracks[s].sent
  {
    StepInv(st, x);
    StepSocks(st, x);
    assert s in Step(st, x).h.tracks;
    if Enabled(st.w, x) {
      if x.Deliver? {
        SameSent(st.h, st.w, x, s);
      } else {
        OwnMoves(st, s, x);
      }
    }
    hide Inv, Effect, Enabled, Record;
  }

  lemma SameSent(h: History, w: World, x: Action, s: Place)
    requires Enabled(w, x) && x.Deliver? && s in h.tracks
    ensures s in Record(h, w, x).tracks && Record(h, w, x).tracks[s].sent == h.tracks[s].sent
  {
    hide Parse, LetterFits, BlankFrames;
  }

  lemma {:induction false} RunGrew(st: State, s: Place, ys: seq<Action>)
    requires Inv(st) && s in st.h.tracks && forall i :: 0 <= i < |ys| ==> Works(ys[i], s)
    ensures Inv(Run(st, ys)) && LogsGrew(st.h, Run(st, ys).h, s)
    ensures s in Run(st, ys).h.tracks && Run(st, ys).h.tracks[s].sent == st.h.tracks[s].sent
    decreases |ys|
  {
    hide Inv, Step, Works;
    if ys != [] {
      var n := |ys| - 1;
      RunGrew(st, s, ys[..n]);
      var mid := Run(st, ys[..n]);
      assert Works(ys[n], s);
      StepInv(mid, ys[n]);
      WorksGrew(mid, s, ys[n]);
      WorksSendNothing(mid, s, ys[n]);
      GrewTwice(st.h, mid.h, Step(mid, ys[n]).h, s);
    }
  }

  lemma GrewTwice(h: History, h': History, h'': History, s: Place)
    requires LogsGrew(h, h', s) && LogsGrew(h', h'', s)
    ensures LogsGrew(h, h'', s)
  {
    forall N | N in h.logs ensures Grew(h.logs[N].enq, h''.logs[N].enq, s) {
      var a, b, c := h.logs[N].enq, h'.logs[N].enq, h''.logs[N].enq;
      assert forall i :: 0 <= i < |b| ==> c[i] == b[i];
    }
  }

  lemma {:induction false} FromGrew(a: seq<Entry>, b: seq<Entry>, s: Place)
    requires Grew(a, b, s)
    ensures From(a, s) <= From(b, s) && |From(b, s)| == |From(a, s)| + |b| - |a|
    ensures |b| == |a| + 1 ==> From(b, s) == From(a, s) + [b[|a|].frames]
    decreases |b|
  {
    if |b| > |a| {
      assert Grew(a, b[..|b| - 1], s);
      FromGrew(a, b[..|b| - 1], s);
      if |b| == |a| + 1 { assert b[..|a|] == a; }
    } else {
      assert a == b;
    }
  }

  // ---------------------------------------------------------------- sending

  /** At rest, mailbox M has had from s all that s sent there. */
  lemma AtRest(st: State, s: Place, M: Place)
    requires Inv(st) && s in st.w.socks && st.w.socks[s].pc == Idle && M in st.w.queues
    ensures s in st.h.tracks && M in st.h.logs
    ensures From(st.h.logs[M].enq, s) == To(st.h.tracks[s].sent, s, st.w.socks[s].box, M)
  {
    hide HeapOk, BoxesOk, Config, From, To;
    assert SockAt(st, s) && OrderAt(st, s, M);
    var t := st.h.tracks[s];
    assert t.sent[..t.landed] == t.sent;
  }

  /**
   From any moment at which s is idle: a send of any arguments in range that fit the
   buffer, to any mailbox, can be run to its end by steps on its own behalf. Then s is
   idle again and that mailbox has been given exactly this message, and no other
   mailbox anything.
   */
  lemma SendLands(st0: State, xs: seq<Action>, s: Place, M: Place, args: seq<Arg>) returns (ys: seq<Action>)
    requires Start(st0) && s in Run(st0, xs).w.socks && Run(st0, xs).w.socks[s].pc == Idle
    requires M in Run(st0, xs).w.queues && M in Run(st0, xs).h.logs && M.addr < 0x1_0000_0000_0000_0000
    requires InRange(args) && 40 + |PackAll(args)| + 8 * |Payloads(args)| <= 4000
    ensures forall i :: 0 <= i < |ys| ==> Works(ys[i], s)
    ensures var st, st' := Run(st0, xs), Run(st0, xs + [Send(s, M, args)] + ys);
      && s in st'.w.socks && st'.w.socks[s].pc == Idle && st'.h.logs.Keys == st.h.logs.Keys
      && st'.h.logs[M].enq == st.h.logs[M].enq + [Entry(s, LetterFrames(s, st.w.socks[s].box, Letter(M, args)))]
      && forall N :: N in st.h.logs && N != M ==> st'.h.logs[N].enq == st.h.logs[N].enq
  {
    var st, x := Run(st0, xs), Send(s, M, args);
    Reached(st0, xs);
    SendBegins(st, s, M, args);
    StepInv(st, x);
    StepSocks(st, x);
    var st1 := Step(st, x);
    assert s in st1.w.socks && s in st1.h.tracks;
    hide Run, Step, Inv;
    ys := CanReturn(st1, s);
    RunSplit(st0, xs, [x]);
    RunSplit(st0, xs + [x], ys);
    RunOne(st, x);
    Landed1(st, st1, s, M, args, ys);
  }

  lemma RunOne(st: State, x: Action)
    ensures Run(st, [x]) == Step(st, x)
  {
    assert [x][..0] == [];
  }

  /** The send begins. */
  lemma SendBegins(st: State, s: Place, M: Place, args: seq<Arg>)
    requires Inv(st) && s in st.w.socks && st.w.socks[s].pc == Idle && M in st.w.queues
    requires M.addr < 0x1_0000_0000_0000_0000
    requires InRange(args) && 40 + |PackAll(args)| + 8 * |Payloads(args)| <= 4000
    ensures var st' := Step(st, Send(s, M, args));
      && s in st.h.tracks && s in st'.h.tracks
      && st'.h.tracks[s].sent == st.h.tracks[s].sent + [Letter(M, args)] && st'.h.logs == st.h.logs
  {
    hide SocksOk, HeapOk, BoxesOk, OrdersOk, PackAll, Payloads, InRange;
  }

  lemma Landed1(st: State, st1: State, s: Place, M: Place, args: seq<Arg>, ys: seq<Action>)
    requires Inv(st) && Inv(st1) && s in st.w.socks && st.w.socks[s].pc == Idle && M in st.w.queues
    requires SamePlaces(st.w, st1.w) && s in st.h.tracks && s in st1.h.tracks && st1.h.logs == st.h.logs
    requires st1.h.tracks[s].sent == st.h.tracks[s].sent + [Letter(M, args)]
    requires forall i :: 0 <= i < |ys| ==> Works(ys[i], s)
    requires s in Run(st1, ys).w.socks && Run(st1, ys).w.socks[s].pc == Idle
    ensures var st' := Run(st1, ys);
      && M in st.h.logs && st'.h.logs.Keys == st.h.logs.Keys
      && st'.h.logs[M].enq == st.h.logs[M].enq + [Entry(s, LetterFrames(s, st.w.socks[s].box, Letter(M, args)))]
      && forall N :: N in st.h.logs && N != M ==> st'.h.logs[N].enq == st.h.logs[N].enq
  {
    var st' := Run(st1, ys);
    RunGrew(st1, s, ys);
    RunSocks(st1, ys);
    DomainsOf(st);
    hide Run, Inv, Works, LetterFrames;
    forall N | N in st.h.logs
      ensures st'.h.logs[N].enq == st.h.logs[N].enq +
        if N == M then [Entry(s, LetterFrames(s, st.w.socks[s].box, Letter(M, args)))] else []
    {
      LandedIn(st, st', s, M, args, N);
    }
  }

  lemma DomainsOf(st: State)
    requires Inv(st)
    ensures st.w.queues.Keys == st.h.logs.Keys && st.w.socks.Keys == st.h.tracks.Keys
  {
  }

  lemma LandedIn(st: State, st': State, s: Place, M: Place, args: seq<Arg>, N: Place)
    requires Inv(st) && Inv(st') && s in st.w.socks && s in st'.w.socks && st.w.socks[s].pc == Idle == st'.w.socks[s].pc
    requires N in st.w.queues && N in st'.w.queues && N in st.h.logs && N in st'.h.logs && s in st.h.tracks
    requires s in st'.h.tracks
    requires st'.w.socks[s].box == st.w.socks[s].box && Grew(st.h.logs[N].enq, st'.h.logs[N].enq, s)
    requires st'.h.tracks[s].sent == st.h.tracks[s].sent + [Letter(M, args)]
    ensures st'.h.logs[N].enq == st.h.logs[N].enq +
        if N == M then [Entry(s, LetterFrames(s, st.w.socks[s].box, Letter(M, args)))] else []
  {
    AtRest(st, s, N);
    AtRest(st', s, N);
    hide Inv, LetterFrames, From;
    var a, b, sent, l := st.h.logs[N].enq, st'.h.logs[N].enq, st.h.tracks[s].sent, Letter(M, args);
    ToOne(sent, l, s, st.w.socks[s].box, N);
    hide To;
    OneMore(a, b, s, if N == M then [LetterFrames(s, st.w.socks[s].box, l)] else []);
  }

  lemma ToOne(sent: seq<Letter>, l: Letter, s: Place, box: nat, N: Place)
    ensures To(sent + [l], s, box, N) == To(sent, s, box, N) + if l.dest == N then [LetterFrames(s, box, l)] else []
  {
    hide LetterFrames;
    assert (sent + [l])[..|sent|] == sent;
  }

  lemma OneMore(a: seq<Entry>, b: seq<Entry>, s: Place, more: seq<seq<seq<Byte>>>)
    requires Grew(a, b, s) && |more| <= 1 && From(b, s) == From(a, s) + more
    ensures b == a + if more == [] then [] else [Entry(s, more[0])]
  {
    FromGrew(a, b, s);
    hide From;
    assert b == a + b[|a|..];
    if more != [] {
      assert From(b, s)[|From(a, s)|] == b[|a|].frames;
      assert b[|a|..] == [b[|a|]];
    }
  }
}

/**
 End to end: whatever a socket takes out of its mailbox is a message that some
 socket sent to it, and it decodes to the arguments that were sent.
 */
module FloodReceipt {
  import opened Picture
  import opened SockCodec
  import opened FloodModel
  import opened FloodInv
  import opened FloodResults

  /** Every message ever sent met the demands of the code. */
  ghost predicate SentFit(st: State) {
    forall s, j :: s in st.w.socks && s in st.h.tracks && 0 <= j < |st.h.tracks[s].sent| ==>
                     LetterFits(s, st.w.socks[s].box, st.h.tracks[s].sent[j])
  }

  /** No step moves a mailbox, and only Send adds to what was sent. */
  ghost predicate SendsOnly(st: State, st': State, x: Action) {
    forall s :: s in st'.w.socks && s in st'.h.tracks && st'.h.tracks[s].sent != [] ==>
                  && s in st.w.socks && s in st.h.tracks && st'.w.socks[s].box == st.w.socks[s].box
                  && (st'.h.tracks[s].sent == st.h.tracks[s].sent
                      || (x.Send? && x.s == s && st'.h.tracks[s].sent == st.h.tracks[s].sent + [Letter(x.dest, x.args)]
                          && LetterFits(s, st.w.socks[s].box, Letter(x.dest, x.args))))
  }

  /** No socket's mailbox or thread has moved. */
  ghost predicate SameThreads(w: World, w': World) {
    forall s :: s in w'.socks ==> s in w.socks && w'.socks[s].box == w.socks[s].box && w'.socks[s].pc == w.socks[s].pc
  }

  lemma PostKeepsThreads()
    ensures forall w, p, m :: SameThreads(w, Post(w, p, m))
    ensures forall w, p, a :: Enqueue(w, p, a).socks == w.socks
  {
  }

  lemma HandlersKeepThreads(w: World, x: Action)
    requires Enabled(w, x) && x.Deliver?
    ensures SameThreads(w, Effect(w, x))
  {
    PostKeepsThreads();
    hide Post, Enqueue, Parse, Splice, BlankFrames;
    assert SameThreads(w, Drop(w, x.s, x.m));
    HandleKeepsThreads(Drop(w, x.s, x.m), x.m, x.a);
  }

  lemma HandleKeepsThreads(w: World, m: Msg, a: nat)
    ensures SameThreads(w, Handle(w, m, a))
  {
    PostKeepsThreads();
    hide Post, Enqueue, Parse, Splice, BlankFrames;
  }

  lemma HandlersSendNothing(h: History, w: World, x: Action)
    requires Enabled(w, x) && x.Deliver?
    ensures forall s :: s in Record(h, w, x).tracks && Record(h, w, x).tracks[s].sent != [] ==>
                          s in h.tracks && Record(h, w, x).tracks[s].sent == h.tracks[s].sent
  {
    hide LetterFits, Parse, Splice, BlankFrames;
  }

  lemma StepSends(st: State, x: Action)
    requires Domains(st)
    ensures SendsOnly(st, Step(st, x), x)
  {
    if Enabled(st.w, x) && x.Deliver? {
      HandlersKeepThreads(st.w, x);
      HandlersSendNothing(st.h, st.w, x);
      hide Enabled, Effect, Record, LetterFits;
    } else {
      hide LetterFits, PacketOf;
    }
  }

  lemma {:induction false} RunSentFit(st0: State, xs: seq<Action>)
    requires Start(st0)
    ensures SentFit(Run(st0, xs))
  {
    if xs != [] {
      var ys, x := xs[..|xs| - 1], xs[|xs| - 1];
      RunSentFit(st0, ys);
      Reached(st0, ys);
      StepSends(Run(st0, ys), x);
      hide LetterFits, Enabled, Step;
    }
  }

  /** An entry is among those of its source. */
  lemma {:induction false} EntryIsFrom(es: seq<Entry>, k: nat)
    requires k < |es|
    ensures es[k].frames in From(es, es[k].src)
  {
    if k < |es| - 1 { EntryIsFrom(es[..|es| - 1], k); }
  }

  /** What is addressed to M is some message with that destination. */
  lemma {:induction false} ToIsLetter(ls: seq<Letter>, s: Place, box: nat, M: Place, f: seq<seq<Byte>>) returns (j: nat)
    requires f in To(ls, s, box, M)
    ensures j < |ls| && ls[j].dest == M && f == LetterFrames(s, box, ls[j])
  {
    var rest := ls[..|ls| - 1];
    if f in To(rest, s, box, M) {
      j := ToIsLetter(rest, s, box, M, f);
    } else {
      j := |ls| - 1;
    }
  }

  /** The frames decode, with the sender's picture behind an 's', to its address and its arguments. */
  ghost predicate Decodes(frames: seq<seq<Byte>>, sender: Place, args: seq<Arg>) {
    && |frames| >= 1 && |frames[0]| >= HEADER
    && forall targets: seq<bool> :: |targets| == |args| && AllWanted(targets) ==>
                                      Receive(frames, "s" + Codes(args), [true] + targets)
                                        == Done([Sender(sender.node, sender.addr)] + ReceivedAll(args))
  }

  /**
   The k-th message taken out of mailbox M was sent to M by a socket s, as its j-th
   message. It decodes to what s sent, together with an address at which s, and no
   other socket, takes its mail.
   */
  lemma Receipt(st0: State, xs: seq<Action>, M: Place, k: nat) returns (s: Place, j: nat)
    requires Start(st0) && M in Run(st0, xs).h.logs && k < |Run(st0, xs).h.logs[M].got|
    ensures var st := Run(st0, xs);
            && s in st.w.socks && s in st.h.tracks && j < |st.h.tracks[s].sent| && st.h.tracks[s].sent[j].dest == M
            && Decodes(st.h.logs[M].got[k], Mail(s, st.w.socks[s]), st.h.tracks[s].sent[j].args)
    ensures var w := Run(st0, xs).w; forall t :: t in w.socks && Mail(t, w.socks[t]) == Mail(s, w.socks[s]) ==> t == s
  {
    Reached(st0, xs);
    RunSentFit(st0, xs);
    var st := Run(st0, xs);
    hide Run, HeapOk, SocksOk, From, To, LetterFrames, LetterFits, Receive;
    var log := st.h.logs[M];
    assert BoxAt(st, M);
    s := log.enq[k].src;
    assert OrderAt(st, s, M);
    EntryIsFrom(log.enq, k);
    var t, box := st.h.tracks[s], st.w.socks[s].box;
    j := ToIsLetter(t.sent[..t.landed], s, box, M, log.got[k]);
    LetterDecodes(s, box, t.sent[j]);
  }

  lemma LetterDecodes(s: Place, box: nat, l: Letter)
    requires LetterFits(s, box, l)
    ensures Decodes(LetterFrames(s, box, l), Place(s.node, box), l.args)
  {
    forall targets: seq<bool> | |targets| == |l.args| && AllWanted(targets)
      ensures Receive(LetterFrames(s, box, l), "s" + Codes(l.args), [true] + targets)
        == Done([Sender(s.node, box)] + ReceivedAll(l.args))
    {
      DeliveredDecodes(s, box, l, targets);
    }
  }
}

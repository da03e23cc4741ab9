/** Calls of hpipe_vsend and hpipe_vrecv do what they are for: they go through, and the other end gets the letter. */
module PipeCalls {
  import opened Picture
  import R = RingModel
  import RG = Ring
  import RP = RingProof
  import opened PipeModel
  import opened PipeResults

  /** The accesses of one hpipe_vsend that finds room. */
  function SendCall(p: nat, l: Letter): seq<Action> {
    [NewMessage(p, l), Access(R.PushBegin(p)), Access(R.PushRefresh), Access(R.PushWrite), Access(R.PushPublish)]
  }

  /** The accesses of one hpipe_vrecv that finds a message. */
  function RecvCall(elements: string): seq<Action> {
    [Access(R.PopBegin), Access(R.PopRefresh), Access(R.PopRead), Access(R.PopPublish), Unpack(elements)]
  }

  lemma RunFive(c: Channel, v: Action, w: Action, x: Action, y: Action, z: Action)
    ensures Run(c, [v, w, x, y, z]) == Step(Step(Step(Step(Step(c, v), w), x), y), z)
  {
    assert Run(c, []) == c;
    hide Run, Step;
    RunSnoc(c, [], v);
    RunSnoc(c, [v], w);
    RunSnoc(c, [v, w], x);
    RunSnoc(c, [v, w, x], y);
    RunSnoc(c, [v, w, x, y], z);
    assert [] + [v] == [v] && [v] + [w] == [v, w] && [v, w] + [x] == [v, w, x];
    assert [v, w, x] + [y] == [v, w, x, y] && [v, w, x, y] + [z] == [v, w, x, y, z];
  }

  // ---------------------------------------------------------------- one access

  /** While a message is being sent, the producer's accesses go to the ring, whatever the other end does. */
  lemma ProducerMoves(c: Channel, x: R.Action)
    requires c.send.Sending? && (x == R.PushBegin(c.send.p) || x.PushRefresh? || x.PushWrite? || x.PushPublish?)
    ensures var c' := Step(c, Access(x));
      && c'.ring == R.Step(c.ring, x) && c'.heap == c.heap && c'.got == c.got && c'.recv == c.recv
      && (c'.fault ==> c.fault)
      && (!x.PushPublish? ==> c'.send == c.send && c'.letters == c.letters)
      && (x.PushPublish? && R.Enabled(c.ring.m, x) ==>
            c'.send == NotSending && c'.letters == c.letters + [c.send.letter])
  {
    hide R.Effect, R.Record;
  }

  /** While no message is held, the consumer's accesses go to the ring, whatever the other end does. */
  lemma ConsumerMoves(c: Channel, x: R.Action)
    requires c.recv.NotHolding? && (x.PopBegin? || x.PopRefresh? || x.PopRead? || x.PopPublish?)
    ensures var c' := Step(c, Access(x));
      && c'.ring == R.Step(c.ring, x) && c'.heap == c.heap && c'.got == c.got && c'.send == c.send
      && c'.letters == c.letters && (!x.PopPublish? ==> c'.recv == c.recv)
      && (x.PopPublish? && R.Enabled(c.ring.m, x) ==> c'.recv.Holding?)
  {
    hide R.Effect, R.Record;
  }

  // ---------------------------------------------------------------- whole calls

  /** Nothing is being sent, and the ring has a slot to spare. */
  ghost predicate CanSend(c: Channel) {
    c.send.NotSending? && |c.ring.h.pushed| - |c.ring.h.popped| < |c.ring.m.data| - 1
  }

  lemma SendGoesThrough(c: Channel, p: nat, l: Letter)
    requires Inv(c) && CanSend(c) && p !in c.heap
    requires Agree(l.elements, l.args) && forall k :: 0 <= k < |l.elements| ==> l.elements[k] in "i1248dp"
    ensures var c' := Run(c, SendCall(p, l)); c'.letters == c.letters + [l] && c'.send.NotSending? && c'.got == c.got
    ensures var c' := Run(c, SendCall(p, l)); c'.recv == c.recv && c'.ring.m.cons == c.ring.m.cons
  {
    AcceptedPictures(l.elements);
    FitsFrame(l);
    RunFive(c, NewMessage(p, l), Access(R.PushBegin(p)), Access(R.PushRefresh), Access(R.PushWrite),
            Access(R.PushPublish));
    RG.RoomIff(c.ring);
    assert c.ring.m.prod == R.ProdIdle;
    hide Run, HeapOk, GotOk, R.Inv, LetterOk, WellFormed, Agree, Frame;
    var c1 := Step(c, NewMessage(p, l));
    assert c1.ring == c.ring && c1.send == Sending(p, l) && c1.letters == c.letters;
    SendAccesses(c1);
  }

  lemma FitsFrame(l: Letter)
    requires LetterOk(l)
    ensures |PackAll(l.args)| <= 8 * |l.elements|
  {
    PackBound(l.args);
  }

  lemma SendAccesses(c: Channel)
    requires c.send.Sending? && R.WellSized(c.ring.m) && c.ring.m.prod == R.ProdIdle && RG.Room(c.ring.m)
    ensures var c' := Step(Step(Step(Step(c, Access(R.PushBegin(c.send.p))), Access(R.PushRefresh)),
                                Access(R.PushWrite)),
                           Access(R.PushPublish));
      && c'.letters == c.letters + [c.send.letter] && c'.send.NotSending? && c'.got == c.got
      && c'.recv == c.recv && c'.ring.m.cons == c.ring.m.cons
  {
    var p := c.send.p;
    var c1 := Step(c, Access(R.PushBegin(p)));
    ProducerMoves(c, R.PushBegin(p));
    var c2 := Step(c1, Access(R.PushRefresh));
    ProducerMoves(c1, R.PushRefresh);
    var c3 := Step(c2, Access(R.PushWrite));
    ProducerMoves(c2, R.PushWrite);
    ProducerMoves(c3, R.PushPublish);
    hide Step;
    assert c3.ring == R.Step(R.Step(R.Step(c.ring, R.PushBegin(p)), R.PushRefresh), R.PushWrite);
    assert c3.ring.m.prod.ProdPublish? && R.Enabled(c3.ring.m, R.PushPublish) && c3.ring.m.cons == c.ring.m.cons;
  }

  /** No message is held, none is being popped, and one is waiting. */
  ghost predicate CanReceive(c: Channel) {
    c.recv.NotHolding? && c.ring.m.cons == R.ConsIdle && |c.got| < |c.letters|
  }

  lemma RecvGoesThrough(c: Channel, elements: string)
    requires Inv(c) && CanReceive(c)
    ensures var c' := Run(c, RecvCall(elements));
      |c'.got| == |c.got| + 1 && c.got == c'.got[..|c.got|] && c'.got[|c.got|].elements == elements
    ensures var c' := Run(c, RecvCall(elements)); c'.letters == c.letters && c'.send == c.send && c'.recv.NotHolding?
  {
    RunFive(c, Access(R.PopBegin), Access(R.PopRefresh), Access(R.PopRead), Access(R.PopPublish), Unpack(elements));
    RG.AnyIff(c.ring);
    RP.EmptyIff(c.ring);
    RecvAccesses(c);
    var c1 := Step(Step(Step(Step(c, Access(R.PopBegin)), Access(R.PopRefresh)), Access(R.PopRead)),
                   Access(R.PopPublish));
    StepInv(c, Access(R.PopBegin));
    StepInv(Step(c, Access(R.PopBegin)), Access(R.PopRefresh));
    StepInv(Step(Step(c, Access(R.PopBegin)), Access(R.PopRefresh)), Access(R.PopRead));
    StepInv(Step(Step(Step(c, Access(R.PopBegin)), Access(R.PopRefresh)), Access(R.PopRead)), Access(R.PopPublish));
    hide Run;
    UnpackGoesThrough(c1, elements);
  }

  lemma RecvAccesses(c: Channel)
    requires c.recv.NotHolding? && R.WellSized(c.ring.m) && c.ring.m.cons == R.ConsIdle && RG.Any(c.ring.m)
    ensures var c' := Step(Step(Step(Step(c, Access(R.PopBegin)), Access(R.PopRefresh)), Access(R.PopRead)),
                           Access(R.PopPublish));
      c'.recv.Holding? && c'.got == c.got && c'.letters == c.letters && c'.send == c.send
  {
    var c1 := Step(c, Access(R.PopBegin));
    ConsumerMoves(c, R.PopBegin);
    var c2 := Step(c1, Access(R.PopRefresh));
    ConsumerMoves(c1, R.PopRefresh);
    var c3 := Step(c2, Access(R.PopRead));
    ConsumerMoves(c2, R.PopRead);
    ConsumerMoves(c3, R.PopPublish);
    hide Step;
    assert c3.ring == R.Step(R.Step(R.Step(c.ring, R.PopBegin), R.PopRefresh), R.PopRead);
    assert c3.ring.m.cons.ConsPublish? && R.Enabled(c3.ring.m, R.PopPublish);
  }

  lemma UnpackGoesThrough(c: Channel, elements: string)
    requires Inv(c) && c.recv.Holding?
    ensures var c' := Step(c, Unpack(elements));
      && |c'.got| == |c.got| + 1 && c.got == c'.got[..|c.got|] && c'.got[|c.got|].elements == elements
      && c'.recv.NotHolding? && c'.letters == c.letters && c'.send == c.send
  {
    HeldIsOldest(c);
    hide R.Inv, HeapOk, GotOk, Picture.Unpack;
  }

  // ---------------------------------------------------------------- from end to end

  /** The same actions, by endpoint e. */
  function ByEnd(e: nat, acts: seq<Action>): (xs: seq<(nat, Action)>)
    ensures |xs| == |acts|
  {
    seq(|acts|, i requires 0 <= i < |acts| => (e, acts[i]))
  }

  lemma {:induction false} RunPairSplit(d: Duplex, xs: seq<(nat, Action)>, ys: seq<(nat, Action)>)
    ensures RunPair(d, xs + ys) == RunPair(RunPair(d, xs), ys)
    decreases |ys|
  {
    hide StepPair;
    if ys == [] {
      assert xs + ys == xs;
    } else {
      var n := |ys| - 1;
      RunPairSplit(d, xs, ys[..n]);
      assert (xs + ys)[..|xs| + n] == xs + ys[..n] && (xs + ys)[|xs| + n] == ys[n];
    }
  }

  /** The sender's accesses by e, and the receiver's by 1 - e, fall on the direction from e. */
  lemma {:induction false} ByEndRuns(d: Duplex, e: nat, acts: seq<Action>, sender: bool)
    requires e < 2 && forall i :: 0 <= i < |acts| ==> OfSender(acts[i]) == sender
    ensures Queue(RunPair(d, ByEnd(if sender then e else 1 - e, acts)), e) == Run(Queue(d, e), acts)
  {
    hide Step;
    if acts != [] {
      var n := |acts| - 1;
      ByEndRuns(d, e, acts[..n], sender);
      var who := if sender then e else 1 - e;
      assert ByEnd(who, acts)[..n] == ByEnd(who, acts[..n]);
    }
  }

  /**
   From any moment at which endpoint e is not sending and finds room, and the other end
   is not receiving: a send by e and a receipt by 1 - e go through. When nothing was
   waiting before, what 1 - e is delivered is what e just sent.
   */
  lemma Exchange(data0: seq<nat>, data1: seq<nat>, xs: seq<(nat, Action)>, e: nat, p: nat, l: Letter, elements: string)
    returns (ys: seq<(nat, Action)>)
    requires |data0| > 0 && |data1| > 0 && e < 2 && forall i :: 0 <= i < |xs| ==> xs[i].0 < 2
    requires Agree(l.elements, l.args) && forall k :: 0 <= k < |l.elements| ==> l.elements[k] in "i1248dp"
    requires var d := RunPair(Duplex(Init(data0), Init(data1)), xs); var c := if e == 0 then d.queue0 else d.queue1;
      CanSend(c) && p !in c.heap && c.recv.NotHolding? && c.ring.m.cons == R.ConsIdle
    ensures ys == ByEnd(e, SendCall(p, l)) + ByEnd(1 - e, RecvCall(elements))
    ensures var d0 := Duplex(Init(data0), Init(data1));
      && Offered(d0, e, xs + ys) == Offered(d0, e, xs) + [l]
      && |Deliveries(d0, 1 - e, xs + ys)| == |Deliveries(d0, 1 - e, xs)| + 1
      && Deliveries(d0, 1 - e, xs + ys)[|Deliveries(d0, 1 - e, xs)|].elements == elements
    ensures var d0 := Duplex(Init(data0), Init(data1));
      |Deliveries(d0, 1 - e, xs)| == |Offered(d0, e, xs)| ==>
        Answers(Deliveries(d0, 1 - e, xs + ys)[|Deliveries(d0, 1 - e, xs)|], l)
  {
    hide RunPair, Offered, Deliveries, Run, ByEnd, SendCall, RecvCall, Answers, Inv, CanSend;
    var d0 := Duplex(Init(data0), Init(data1));
    var d := RunPair(d0, xs);
    ys := ByEnd(e, SendCall(p, l)) + ByEnd(1 - e, RecvCall(elements));
    Directions(data0, data1, xs, e);
    TwoEnds(e, SendCall(p, l), RecvCall(elements));
    assert forall i :: 0 <= i < |xs + ys| ==> (xs + ys)[i].0 < 2;
    Directions(data0, data1, xs + ys, e);
    BothDirections(data0, data1, xs + ys, e);
    RunPairSplit(d0, xs, ys);
    hide Given;
    ExchangeRuns(d, e, p, l, elements);
    assert Offered(d0, e, xs + ys) == Offered(d0, e, xs) + [l];
    var k := |Deliveries(d0, 1 - e, xs)|;
    assert Answers(Deliveries(d0, 1 - e, xs + ys)[k], Offered(d0, e, xs + ys)[k]);
  }

  lemma TwoEnds(e: nat, send: seq<Action>, recv: seq<Action>)
    requires e < 2
    ensures var ys := ByEnd(e, send) + ByEnd(1 - e, recv); forall i :: 0 <= i < |ys| ==> ys[i].0 < 2
  {
  }

  lemma SendByEnd(d: Duplex, e: nat, p: nat, l: Letter) returns (d': Duplex)
    requires e < 2 && Inv(Queue(d, e)) && CanSend(Queue(d, e)) && p !in Queue(d, e).heap
    requires Agree(l.elements, l.args) && forall k :: 0 <= k < |l.elements| ==> l.elements[k] in "i1248dp"
    ensures d' == RunPair(d, ByEnd(e, SendCall(p, l))) && Inv(Queue(d', e))
    ensures var c, c' := Queue(d, e), Queue(d', e);
      && c.send.NotSending? && c'.letters == c.letters + [l] && c'.send.NotSending? && c'.got == c.got
      && c'.recv == c.recv && c'.ring.m.cons == c.ring.m.cons
  {
    d' := RunPair(d, ByEnd(e, SendCall(p, l)));
    ByEndRuns(d, e, SendCall(p, l), true);
    hide Inv, Run, RunPair, ByEnd, SendCall, Queue;
    RunInv(Queue(d, e), SendCall(p, l));
    SendGoesThrough(Queue(d, e), p, l);
  }

  lemma RecvByEnd(d: Duplex, e: nat, elements: string) returns (d': Duplex)
    requires e < 2 && Inv(Queue(d, e)) && CanReceive(Queue(d, e))
    ensures d' == RunPair(d, ByEnd(1 - e, RecvCall(elements)))
    ensures var c, c' := Queue(d, e), Queue(d', e);
      && |c'.got| == |c.got| + 1 && c'.got[|c.got|].elements == elements && c'.letters == c.letters && c'.send == c.send
  {
    d' := RunPair(d, ByEnd(1 - e, RecvCall(elements)));
    ByEndRuns(d, e, RecvCall(elements), false);
    hide Inv, Run, RunPair, ByEnd, RecvCall, Queue, CanReceive;
    RecvGoesThrough(Queue(d, e), elements);
  }

  lemma ExchangeRuns(d: Duplex, e: nat, p: nat, l: Letter, elements: string)
    requires e < 2 && Inv(Queue(d, e)) && CanSend(Queue(d, e)) && p !in Queue(d, e).heap
    requires Queue(d, e).recv.NotHolding? && Queue(d, e).ring.m.cons == R.ConsIdle
    requires Agree(l.elements, l.args) && forall k :: 0 <= k < |l.elements| ==> l.elements[k] in "i1248dp"
    ensures var c, c' := Queue(d, e), Queue(RunPair(d, ByEnd(e, SendCall(p, l)) + ByEnd(1 - e, RecvCall(elements))), e);
      && Given(c') == Given(c) + [l] && |c'.got| == |c.got| + 1 && c'.got[|c.got|].elements == elements
  {
    hide Inv, CanSend, RunPair, ByEnd, SendCall, RecvCall, Queue;
    RunPairSplit(d, ByEnd(e, SendCall(p, l)), ByEnd(1 - e, RecvCall(elements)));
    var d1 := SendByEnd(d, e, p, l);
    InvGot(Queue(d, e));
    var d2 := RecvByEnd(d1, e, elements);
  }

  lemma InvGot(c: Channel)
    requires Inv(c)
    ensures |c.got| <= |c.letters|
  {
  }
}

/** Each direction of a pipe pair is a typed first-in first-out channel. */
module PipeResults {
  import opened Picture
  import Message
  import R = RingModel
  import RP = RingProof
  import opened PipeModel

  lemma InitInv(data: seq<nat>)
    requires |data| > 0
    ensures Inv(Init(data))
  {
  }

  lemma NewMessageInv(c: Channel, p: nat, l: Letter)
    requires Inv(c) && Enabled(c, NewMessage(p, l))
    ensures Inv(Step(c, NewMessage(p, l)))
  {
    hide R.Inv, Frame, LetterOk;
    var c' := Step(c, NewMessage(p, l));
    forall k: nat | |c'.got| <= k < |c'.letters| ensures Stored(c', k) {
      assert Stored(c, k);
    }
  }

  /** Ring accesses that neither publish nor take a message. */
  lemma QuietAccessInv(c: Channel, x: R.Action)
    requires Inv(c) && Enabled(c, Access(x)) && !x.PushPublish? && !x.PopPublish?
    ensures Inv(Step(c, Access(x)))
  {
    RP.StepInv(c.ring, x);
    hide R.Inv, Frame, LetterOk;
    var c' := Step(c, Access(x));
    forall k: nat | |c'.got| <= k < |c'.letters| ensures Stored(c', k) {
      assert Stored(c, k);
    }
  }

  lemma PublishInv(c: Channel)
    requires Inv(c) && Enabled(c, Access(R.PushPublish))
    ensures Inv(Step(c, Access(R.PushPublish)))
  {
    RP.StepInv(c.ring, R.PushPublish);
    assert c.ring.h.arg == c.send.p;
    hide R.Inv, Frame, LetterOk;
    var c' := Step(c, Access(R.PushPublish));
    forall k: nat | |c'.got| <= k < |c'.letters| ensures Stored(c', k) {
      if k < |c.letters| { assert Stored(c, k); }
    }
    forall j: nat, k: nat | |c'.got| <= j < k < |c'.letters| ensures c'.ring.h.pushed[j] != c'.ring.h.pushed[k] {
      assert Stored(c, j);
    }
  }

  lemma TakeInv(c: Channel)
    requires Inv(c) && Enabled(c, Access(R.PopPublish))
    ensures Inv(Step(c, Access(R.PopPublish)))
  {
    RP.StepInv(c.ring, R.PopPublish);
    hide R.Inv, Frame, LetterOk;
    var c' := Step(c, Access(R.PopPublish));
    forall k: nat | |c'.got| <= k < |c'.letters| ensures Stored(c', k) {
      assert Stored(c, k);
    }
  }

  /** The message held is the oldest not yet delivered. */
  lemma HeldIsOldest(c: Channel)
    requires Inv(c) && c.recv.Holding?
    ensures |c.got| < |c.letters| && c.ring.h.pushed[|c.got|] == c.recv.p && Stored(c, |c.got|)
  {
  }

  lemma UnpackMatches(l: Letter, elements: string)
    requires LetterOk(l)
    ensures Matches(Delivery(elements, Picture.Unpack(Frame(l), [], elements, AllTrue(|elements|), false, 0, 0)), l)
  {
    if elements <= l.elements {
      Message.MessageRoundTrip(Frame(l), l.elements, l.args, |elements|, AllTrue(|elements|));
      assert l.elements[..|elements|] == elements;
    }
  }

  lemma UnpackInv(c: Channel, elements: string)
    requires Inv(c) && Enabled(c, Unpack(elements))
    ensures Inv(Step(c, Unpack(elements)))
  {
    HeldIsOldest(c);
    UnpackMatches(c.letters[|c.got|], elements);
    hide R.Inv, Frame, LetterOk, Picture.Unpack, Matches;
    var c' := Step(c, Unpack(elements));
    forall k: nat | |c'.got| <= k < |c'.letters| ensures Stored(c', k) {
      assert Stored(c, k);
    }
  }

  lemma StepInv(c: Channel, a: Action)
    requires Inv(c)
    ensures Inv(Step(c, a))
  {
    if Enabled(c, a) {
      match a
      case NewMessage(p, l) => NewMessageInv(c, p, l);
      case Unpack(elements) => UnpackInv(c, elements);
      case Access(x) =>
        if x.PushPublish? { PublishInv(c); } else if x.PopPublish? { TakeInv(c); } else { QuietAccessInv(c, x); }
    }
  }

  lemma {:induction false} RunInv(c: Channel, xs: seq<Action>)
    requires Inv(c)
    ensures Inv(Run(c, xs))
  {
    hide Inv, Step;
    if xs != [] {
      RunInv(c, xs[..|xs| - 1]);
      StepInv(Run(c, xs[..|xs| - 1]), xs[|xs| - 1]);
    }
  }

  /**
   One direction: the k-th delivery answers the k-th message sent. If it was asked
   for with a prefix of that message's picture it carries the matching prefix of its
   values. No message is touched after it was destroyed.
   */
  lemma TypedFifo(data: seq<nat>, xs: seq<Action>)
    requires |data| > 0
    ensures GotOk(Run(Init(data), xs)) && !Run(Init(data), xs).fault
  {
    InitInv(data);
    RunInv(Init(data), xs);
  }

  /** Every message in memory is being sent or waiting: nothing leaks. */
  ghost predicate NoLeak(c: Channel) {
    forall p :: p in c.heap ==>
      (c.send.Sending? && c.send.p == p) || Waiting(c, p)
  }

  ghost predicate Waiting(c: Channel, p: nat) {
    exists k :: |c.got| <= k < |c.ring.h.pushed| && c.ring.h.pushed[k] == p
  }

  lemma StepNoLeak(c: Channel, a: Action)
    requires Inv(c) && NoLeak(c)
    ensures NoLeak(Step(c, a))
  {
    var c' := Step(c, a);
    if a.Unpack? && Enabled(c, a) { HeldIsOldest(c); }
    if a.Access? && Enabled(c, a) { PushedGrows(c, a.x); }
    hide R.Inv, R.Step, GotOk, Frame, Picture.Unpack, LetterOk;
    forall p | p in c'.heap && !(c'.send.Sending? && c'.send.p == p) ensures Waiting(c', p) {
      if p in c.heap {
        if c.send.Sending? && c.send.p == p {
          assert c'.ring.h.pushed[|c.ring.h.pushed|] == p;
        } else {
          var k :| |c.got| <= k < |c.ring.h.pushed| && c.ring.h.pushed[k] == p;
          assert c'.ring.h.pushed[k] == p;
        }
      }
    }
  }

  lemma PushedGrows(c: Channel, x: R.Action)
    requires Inv(c) && Enabled(c, Access(x))
    ensures R.Step(c.ring, x).h.pushed == c.ring.h.pushed + if x.PushPublish? then [c.send.p] else []
  {
    hide HeapOk, GotOk;
  }

  lemma {:induction false} NothingLeaks(data: seq<nat>, xs: seq<Action>)
    requires |data| > 0
    ensures NoLeak(Run(Init(data), xs))
  {
    if xs != [] {
      NothingLeaks(data, xs[..|xs| - 1]);
      InitInv(data);
      RunInv(Init(data), xs[..|xs| - 1]);
      hide Inv, NoLeak, Step;
      StepNoLeak(Run(Init(data), xs[..|xs| - 1]), xs[|xs| - 1]);
    }
  }

  // ---------------------------------------------------------------- two pipes on one pair

  /** hpair_t: queue[0] and queue[1], each with its messages. */
  datatype Duplex = Duplex(queue0: Channel, queue1: Channel)

  /** hpipe_new: endpoint e sends through queue e and receives from the other queue. */
  function SendQueue(e: nat): nat { e }

  function RecvQueue(e: nat): nat { if e == 0 then 1 else 0 }

  predicate OfSender(a: Action) {
    a.NewMessage? || (a.Access? && OfProducer(a.x))
  }

  /** The queue that endpoint e works on when it does a. */
  function QueueOf(e: nat, a: Action): nat {
    if OfSender(a) then SendQueue(e) else RecvQueue(e)
  }

  function StepPair(d: Duplex, e: nat, a: Action): Duplex {
    if QueueOf(e, a) == 0 then d.(queue0 := Step(d.queue0, a)) else d.(queue1 := Step(d.queue1, a))
  }

  function RunPair(d: Duplex, xs: seq<(nat, Action)>): Duplex {
    if xs == [] then d else StepPair(RunPair(d, xs[..|xs| - 1]), xs[|xs| - 1].0, xs[|xs| - 1].1)
  }

  /** The actions of a schedule that fall on queue q. */
  function OnQueue(q: nat, xs: seq<(nat, Action)>): seq<Action> {
    if xs == [] then []
    else
      var e, a := xs[|xs| - 1].0, xs[|xs| - 1].1;
      OnQueue(q, xs[..|xs| - 1]) + if (QueueOf(e, a) == 0) == (q == 0) then [a] else []
  }

  lemma RunSnoc(c: Channel, xs: seq<Action>, a: Action)
    ensures Run(c, xs + [a]) == Step(Run(c, xs), a)
  {
    assert (xs + [a])[..|xs|] == xs;
  }

  /** The two directions do not influence each other. */
  lemma {:induction false} Independent(d: Duplex, xs: seq<(nat, Action)>)
    ensures RunPair(d, xs).queue0 == Run(d.queue0, OnQueue(0, xs))
    ensures RunPair(d, xs).queue1 == Run(d.queue1, OnQueue(1, xs))
  {
    hide Step;
    if xs != [] {
      var ys, a := xs[..|xs| - 1], xs[|xs| - 1].1;
      Independent(d, ys);
      RunSnoc(d.queue0, OnQueue(0, ys), a);
      RunSnoc(d.queue1, OnQueue(1, ys), a);
      assert OnQueue(0, ys) + [] == OnQueue(0, ys) && OnQueue(1, ys) + [] == OnQueue(1, ys);
    }
  }

  // ---------------------------------------------------------------- what the two ends see

  /** The letters that endpoint e was given to send, in order: its calls of hpipe_vsend that began. */
  function Offered(d0: Duplex, e: nat, xs: seq<(nat, Action)>): seq<Letter> {
    if xs == [] then []
    else
      var ys, x := xs[..|xs| - 1], xs[|xs| - 1];
      var d := RunPair(d0, ys);
      Offered(d0, e, ys) + if x.0 == e && x.1.NewMessage? && StepPair(d, e, x.1) != d then [x.1.letter] else []
  }

  /** The result that a step added. */
  function Newest(d: Duplex, d': Duplex): Outcome<seq<Out>> {
    if |d'.queue0.got| > |d.queue0.got| then d'.queue0.got[|d.queue0.got|].result
    else if |d'.queue1.got| > |d.queue1.got| then d'.queue1.got[|d.queue1.got|].result
    else Overrun
  }

  /** What endpoint e asked for and was delivered, in order: its calls of hpipe_vrecv that ended. */
  function Deliveries(d0: Duplex, e: nat, xs: seq<(nat, Action)>): seq<Delivery> {
    if xs == [] then []
    else
      var ys, x := xs[..|xs| - 1], xs[|xs| - 1];
      var d := RunPair(d0, ys);
      Deliveries(d0, e, ys) +
      if x.0 == e && x.1.Unpack? && StepPair(d, e, x.1) != d
      then [Delivery(x.1.elements, Newest(d, StepPair(d, e, x.1)))] else []
  }

  /** Letters published, and the one being sent. */
  function Given(c: Channel): seq<Letter> {
    c.letters + if c.send.Sending? then [c.send.letter] else []
  }

  lemma GivenStep(c: Channel, a: Action)
    requires Inv(c)
    ensures Given(Step(c, a)) == Given(c) + if a.NewMessage? && Step(c, a) != c then [a.letter] else []
  {
    hide R.Inv, HeapOk, GotOk, R.Step;
  }

  lemma GotStep(c: Channel, a: Action)
    requires Inv(c)
    ensures a.Unpack? && Step(c, a) != c ==> |Step(c, a).got| == |c.got| + 1
    ensures a.Unpack? && Step(c, a) != c ==>
      Step(c, a).got == c.got + [Delivery(a.elements, Step(c, a).got[|c.got|].result)]
    ensures !(a.Unpack? && Step(c, a) != c) ==> Step(c, a).got == c.got
  {
    if a.Unpack? && Enabled(c, a) { HeldIsOldest(c); }
    hide R.Inv, HeapOk, GotOk, R.Step, Picture.Unpack;
  }

  /** The direction from endpoint e, as the two ends see it. */
  ghost predicate Direction(d0: Duplex, xs: seq<(nat, Action)>, e: nat, c: Channel) {
    e < 2 && Inv(c) && Offered(d0, e, xs) == Given(c) && Deliveries(d0, 1 - e, xs) == c.got
  }

  function Queue(d: Duplex, e: nat): Channel {
    if e == 0 then d.queue0 else d.queue1
  }

  lemma PairInv(data0: seq<nat>, data1: seq<nat>, xs: seq<(nat, Action)>)
    requires |data0| > 0 && |data1| > 0
    ensures var d := RunPair(Duplex(Init(data0), Init(data1)), xs); Inv(d.queue0) && Inv(d.queue1)
  {
    hide Inv, Run;
    Independent(Duplex(Init(data0), Init(data1)), xs);
    InitInv(data0);
    InitInv(data1);
    RunInv(Init(data0), OnQueue(0, xs));
    RunInv(Init(data1), OnQueue(1, xs));
  }

  /** One step, as the two ends of the direction from e see it. */
  lemma DirectionStep(d: Duplex, x: (nat, Action), e: nat)
    requires Inv(d.queue0) && Inv(d.queue1) && e < 2 && x.0 < 2
    ensures var d' := StepPair(d, x.0, x.1);
      && Given(Queue(d', e)) == Given(Queue(d, e)) +
           (if x.0 == e && x.1.NewMessage? && d' != d then [x.1.letter] else [])
      && Queue(d', e).got == Queue(d, e).got +
           (if x.0 == 1 - e && x.1.Unpack? && d' != d then [Delivery(x.1.elements, Newest(d, d'))] else [])
  {
    var c := Queue(d, QueueOf(x.0, x.1));
    GivenStep(c, x.1);
    GotStep(c, x.1);
    hide Inv, Step, Given;
  }

  lemma {:induction false} Directions(data0: seq<nat>, data1: seq<nat>, xs: seq<(nat, Action)>, e: nat)
    requires |data0| > 0 && |data1| > 0 && e < 2 && forall i :: 0 <= i < |xs| ==> xs[i].0 < 2
    ensures Direction(Duplex(Init(data0), Init(data1)), xs, e, Queue(RunPair(Duplex(Init(data0), Init(data1)), xs), e))
  {
    PairInv(data0, data1, xs);
    if xs != [] {
      var ys, x := xs[..|xs| - 1], xs[|xs| - 1];
      Directions(data0, data1, ys, e);
      PairInv(data0, data1, ys);
      DirectionStep(RunPair(Duplex(Init(data0), Init(data1)), ys), x, e);
      hide Inv, StepPair, Given, Newest;
    }
  }

  /**
   Whatever the two ends do, what endpoint 1 - e is delivered answers, one by one and
   in order, what endpoint e was given to send, for e = 0 and for e = 1. A delivery
   asked for with a prefix of the sent picture carries the matching prefix of the
   values. No message is touched after it was destroyed.
   */
  lemma BothDirections(data0: seq<nat>, data1: seq<nat>, xs: seq<(nat, Action)>, e: nat)
    requires |data0| > 0 && |data1| > 0 && e < 2 && forall i :: 0 <= i < |xs| ==> xs[i].0 < 2
    ensures var d0 := Duplex(Init(data0), Init(data1));
      && |Deliveries(d0, 1 - e, xs)| <= |Offered(d0, e, xs)|
      && forall k :: 0 <= k < |Deliveries(d0, 1 - e, xs)| ==>
           Answers(Deliveries(d0, 1 - e, xs)[k], Offered(d0, e, xs)[k])
    ensures var d := RunPair(Duplex(Init(data0), Init(data1)), xs); !d.queue0.fault && !d.queue1.fault
  {
    var d0 := Duplex(Init(data0), Init(data1));
    Directions(data0, data1, xs, e);
    PairInv(data0, data1, xs);
    var c := Queue(RunPair(d0, xs), e);
    hide Queue, RunPair, Offered, Deliveries;
    forall k | 0 <= k < |c.got| ensures Answers(c.got[k], Given(c)[k]) {
      assert Matches(c.got[k], c.letters[k]) && Given(c)[k] == c.letters[k];
      MatchesAnswers(c.got[k], c.letters[k]);
    }
  }

  /** The letter was one that hmsg_vset accepts, and the delivery has its values. */
  ghost predicate Answers(d: Delivery, l: Letter) {
    && Agree(l.elements, l.args) && (forall k :: 0 <= k < |l.elements| ==> l.elements[k] in "i1248dp")
    && (d.elements <= l.elements ==>
          d.result.Done? && |d.result.value| == |d.elements| && Delivered(l.args[..|d.elements|], d.result.value))
  }

  lemma MatchesAnswers(d: Delivery, l: Letter)
    requires LetterOk(l) && Matches(d, l)
    ensures Answers(d, l)
  {
    AcceptedPictures(l.elements);
    if d.elements <= l.elements {
      ReceivedValues(l.args[..|d.elements|], ReceivedAll(l.args[..|d.elements|]));
    }
    hide Delivered;
  }
}

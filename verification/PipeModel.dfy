/**
 Typed pipes (hpipe.c over hpair.c): each direction packs messages, passes their
 addresses through a ring, and unpacks them at the other end. One channel is the
 ring's step machine together with the messages in memory; a pipe pair is two
 channels, crossed.
 */
module PipeModel {
  import opened Picture
  import R = RingModel

  /** What was given to hpipe_vsend. */
  datatype Letter = Letter(elements: string, args: seq<Arg>)

  /** What hpipe_vrecv was asked for and delivered. */
  datatype Delivery = Delivery(elements: string, result: Outcome<seq<Out>>)

  /** Sending: inside hpair_send, retrying until a push succeeds. */
  datatype SendPc = NotSending | Sending(p: nat, letter: Letter)

  /** Holding: popped, not yet unpacked and destroyed. */
  datatype RecvPc = NotHolding | Holding(p: nat)

  datatype Channel = Channel(ring: R.State, heap: map<nat, seq<Byte>>, send: SendPc, recv: RecvPc,
                             letters: seq<Letter>, got: seq<Delivery>, fault: bool)

  datatype Action =
    | NewMessage(p: nat, letter: Letter)    // hmsg_new and hmsg_vset; p is the message's address
    | Access(x: R.Action)                   // one access of hqueue_try_push or hqueue_try_pop
    | Unpack(elements: string)              // hmsg_vget and hmsg_destroy

  /** hmsg_vset's frame: the packed arguments in eight bytes per element, zero beyond them. */
  function Frame(l: Letter): seq<Byte> {
    var size, used := 8 * |l.elements|, |PackAll(l.args)|;
    PackAll(l.args) + if used <= size then seq(size - used, i => 0) else []
  }

  predicate LetterOk(l: Letter) {
    Agree(l.elements, l.args) && WellFormed(l.elements, false)
  }

  predicate OfProducer(x: R.Action) {
    x.PushBegin? || x.PushRefresh? || x.PushWrite? || x.PushPublish?
  }

  predicate Enabled(c: Channel, a: Action) {
    match a
    case NewMessage(p, l) => c.send.NotSending? && LetterOk(l) && |PackAll(l.args)| <= 8 * |l.elements| && p !in c.heap
    case Access(x) =>
      && R.Enabled(c.ring.m, x)
      && (if OfProducer(x) then c.send.Sending? && (x.PushBegin? ==> x.item == c.send.p) else c.recv.NotHolding?)
    case Unpack(_) => c.recv.Holding?
  }

  function AllTrue(n: nat): seq<bool> {
    seq(n, i => true)
  }

  function Step(c: Channel, a: Action): Channel {
    if !Enabled(c, a) then c else
    match a
    case NewMessage(p, l) => c.(heap := c.heap[p := Frame(l)], send := Sending(p, l))
    case Access(x) =>
      var c1 := c.(ring := R.Step(c.ring, x));
      if x.PushPublish? then c1.(send := NotSending, letters := c.letters + [c.send.letter])
      else if x.PopPublish? then c1.(recv := Holding(c.ring.m.cons.item))
      else c1
    case Unpack(elements) =>
      if c.recv.p !in c.heap then c.(fault := true)
      else
        var r := Picture.Unpack(c.heap[c.recv.p], [], elements, AllTrue(|elements|), false, 0, 0);
        c.(heap := c.heap - {c.recv.p}, recv := NotHolding, got := c.got + [Delivery(elements, r)])
  }

  function Run(c: Channel, xs: seq<Action>): Channel {
    if xs == [] then c else Step(Run(c, xs[..|xs| - 1]), xs[|xs| - 1])
  }

  function Init(data: seq<nat>): Channel {
    Channel(R.Init(data), map[], NotSending, NotHolding, [], [], false)
  }

  // ---------------------------------------------------------------- invariant

  /** The producer's accesses carry the message being sent. */
  predicate ItemOk(c: Channel) {
    match c.ring.m.prod
    case ProdIdle => true
    case ProdRefresh(item, _, _) => c.send.Sending? && item == c.send.p
    case ProdWrite(item, _, _) => c.send.Sending? && item == c.send.p
    case ProdPublish(item, _) => c.send.Sending? && item == c.send.p
  }

  /** The k-th message pushed is still in memory, unchanged. */
  ghost predicate Stored(c: Channel, k: nat)
    requires k < |c.letters| == |c.ring.h.pushed|
  {
    c.ring.h.pushed[k] in c.heap && c.heap[c.ring.h.pushed[k]] == Frame(c.letters[k])
    && (c.send.Sending? ==> c.ring.h.pushed[k] != c.send.p)
  }

  ghost predicate HeapOk(c: Channel) {
    && |c.letters| == |c.ring.h.pushed| && |c.got| <= |c.letters|
    && (forall k: nat {:trigger Stored(c, k)} :: |c.got| <= k < |c.letters| ==> Stored(c, k))
    && (forall j: nat, k: nat :: |c.got| <= j < k < |c.letters| ==> c.ring.h.pushed[j] != c.ring.h.pushed[k])
    && (forall k: nat :: k < |c.letters| ==> LetterOk(c.letters[k]))
    && (c.send.Sending? ==> c.send.p in c.heap && c.heap[c.send.p] == Frame(c.send.letter) && LetterOk(c.send.letter))
  }

  /** A delivery asked for with a prefix of the sent picture carries the matching prefix of the sent values. */
  predicate Matches(d: Delivery, l: Letter)
    requires LetterOk(l)
  {
    d.elements <= l.elements ==> d.result == Done(ReceivedAll(l.args)[..|d.elements|])
  }

  ghost predicate GotOk(c: Channel) {
    && (forall k: nat :: k < |c.letters| ==> LetterOk(c.letters[k]))
    && |c.got| <= |c.letters| && forall k: nat :: k < |c.got| ==> Matches(c.got[k], c.letters[k])
  }

  ghost predicate RecvOk(c: Channel) {
    match c.recv
    case NotHolding => |c.ring.h.popped| == |c.got|
    case Holding(p) => |c.ring.h.popped| == |c.got| + 1 && p == c.ring.h.popped[|c.got|]
  }

  ghost predicate Inv(c: Channel) {
    R.Inv(c.ring) && ItemOk(c) && HeapOk(c) && GotOk(c) && RecvOk(c) && !c.fault
  }
}

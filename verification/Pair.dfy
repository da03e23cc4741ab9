/**
 hpair.c and the wiring of hpipe.c as code: two rings, two endpoints, two signals.
 A spinning send, receive, signal or wait is its loop body here, repeated by the
 caller until it succeeds.
 */
module Pair {
  import opened Words
  import opened Bits
  import opened RingModel
  import opened Ring

  /** An int passed as a size_t. */
  function AsSize(hwm: int): (size: nat)
    requires -0x8000_0000 <= hwm < 0x8000_0000
    ensures size < U64
  {
    if hwm < 0 then U64 + hwm else hwm
  }

  const HACTOR_HWM: nat := 512

  class Pair {
    const queues: seq<HQueue>
    const endpoints: array<nat>    // 1 when connected
    const signals: array<nat>
    ghost var sgnls: seq<nat>      // completed signals of each direction
    ghost var waits: seq<nat>      // completed waits of each direction

    ghost predicate Valid()
      reads this, endpoints, signals, queues, set q | q in queues :: q.data
    {
      && |queues| == 2 && endpoints.Length == 2 && signals.Length == 2 && |sgnls| == 2 && |waits| == 2
      && endpoints != signals && queues[0] != queues[1] && queues[0].data != queues[1].data
      && (forall i, j :: 0 <= i < 2 && 0 <= j < 2 ==> queues[i].data != endpoints && queues[j].data != signals)
      && Inv(queues[0].Now()) && Inv(queues[1].Now())
      && endpoints[0] <= 1 && endpoints[1] <= 1
      && Binary(0) && Binary(1)
    }

    /** The signal cell of direction d is a binary semaphore. */
    ghost predicate Binary(d: nat)
      requires d < |sgnls| && d < |waits| && d < signals.Length
      reads this, signals
    {
      signals[d] <= 1 && sgnls[d] == waits[d] + signals[d]
    }

    /** hpair_new: high-water marks that are not positive leave rings without slots. */
    constructor (hwm0: int, hwm1: int)
      requires -0x8000_0000 <= hwm0 < 0x8000_0000 && -0x8000_0000 <= hwm1 < 0x8000_0000
      ensures Valid() <==> hwm0 >= 1 && hwm1 >= 1
      ensures endpoints[..] == [0, 0] && signals[..] == [0, 0] && sgnls == waits == [0, 0] && |queues| == 2
      ensures SizeFor(AsSize(hwm0), queues[0].data.Length) && SizeFor(AsSize(hwm1), queues[1].data.Length)
      ensures fresh(endpoints) && fresh(signals) && forall q :: q in queues ==> fresh(q) && fresh(q.data)
    {
      var q0 := new HQueue(AsSize(hwm0));
      var q1 := new HQueue(AsSize(hwm1));
      queues := [q0, q1];
      endpoints := new nat[2](i => 0);
      signals := new nat[2](i => 0);
      sgnls, waits := [0, 0], [0, 0];
    }

    /** hpair_connect: the first free endpoint; -1 stands for the process exit when both are taken. */
    method Connect() returns (e: int)
      requires Valid()
      modifies endpoints
      ensures Valid()
      ensures e == if old(endpoints[0]) == 0 then 0 else if old(endpoints[1]) == 0 then 1 else -1
      ensures e != -1 ==> old(endpoints[e]) == 0 && endpoints[..] == old(endpoints[..])[e := 1]
      ensures e == -1 ==> endpoints[..] == old(endpoints[..])
    {
      if endpoints[0] == 0 {
        endpoints[0] := 1;
        e := 0;
      } else if endpoints[1] == 0 {
        endpoints[1] := 1;
        e := 1;
      } else {
        e := -1;
      }
    }

    /** One turn of hpair_sgnl_d: compare-and-swap 0 -> 1. */
    method TrySgnl(d: nat) returns (ok: bool)
      requires Valid() && d < 2
      modifies this`sgnls, signals
      ensures Valid() && ok == (old(signals[d]) == 0) && signals[..] == old(signals[..])[d := 1]
      ensures sgnls == if ok then old(sgnls)[d := old(sgnls)[d] + 1] else old(sgnls)
    {
      ok := signals[d] == 0;
      if ok {
        signals[d] := 1;
        sgnls := sgnls[d := sgnls[d] + 1];
      }
    }

    /** One turn of hpair_wait_d: compare-and-swap 1 -> 0. */
    method TryWait(d: nat) returns (ok: bool)
      requires Valid() && d < 2
      modifies this`waits, signals
      ensures Valid() && ok == (old(signals[d]) == 1) && signals[..] == old(signals[..])[d := 0]
      ensures waits == if ok then old(waits)[d := old(waits)[d] + 1] else old(waits)
    {
      ok := signals[d] == 1;
      if ok {
        signals[d] := 0;
        waits := waits[d := waits[d] + 1];
      }
    }
  }

  /** hpipe_t: one endpoint of a pair. */
  class Pipe {
    const pair: Pair
    const endpoint: int

    /** hpipe_new: connects to the pair; endpoint e sends and signals on e, receives and waits on the other. */
    constructor (pair: Pair)
      requires pair.Valid()
      modifies pair.endpoints
      ensures this.pair == pair && pair.Valid()
      ensures endpoint == if old(pair.endpoints[0]) == 0 then 0 else if old(pair.endpoints[1]) == 0 then 1 else -1
      ensures pair.endpoints[..]
        == if Connected() then old(pair.endpoints[..])[endpoint := 1] else old(pair.endpoints[..])
    {
      var e := pair.Connect();
      this.pair, endpoint := pair, e;
    }

    /** Otherwise both endpoints were taken, and the process ends. */
    predicate Connected() { 0 <= endpoint < 2 }

    function Outgoing(): nat { if endpoint == 1 then 1 else 0 }

    function Incoming(): nat { if endpoint == 0 then 1 else 0 }

    static lemma ContentsDefined(q: HQueue)
      requires Inv(q.Now())
      ensures |q.history.popped| <= |q.history.pushed|
    {
    }

    /** One turn of send_fn: succeeds exactly when the outgoing ring has a slot to spare. */
    method TrySend(msg: nat) returns (ok: bool)
      requires pair.Valid() && Connected()
      modifies pair.queues[Outgoing()], pair.queues[Outgoing()].data
      ensures pair.Valid()
      ensures var q := pair.queues[Outgoing()];
        |q.history.popped| <= |q.history.pushed| && old(|q.history.popped| <= |q.history.pushed|)
      ensures var q := pair.queues[Outgoing()]; ok == (|old(q.Contents())| < q.data.Length - 1)
      ensures var q := pair.queues[Outgoing()]; q.Contents() == old(q.Contents()) + if ok then [msg] else []
      ensures var q := pair.queues[Incoming()]; q.history == old(q.history)
    {
      hide Inv;
      ContentsDefined(pair.queues[Outgoing()]);
      ok := pair.queues[Outgoing()].TryPush(msg);
      ContentsDefined(pair.queues[Outgoing()]);
    }

    /** One turn of recv_fn, and the whole of peek_fn, which also takes the message out. */
    method TryRecv() returns (ok: bool, msg: nat)
      requires pair.Valid() && Connected()
      modifies pair.queues[Incoming()]
      ensures pair.Valid()
      ensures var q := pair.queues[Incoming()];
        |q.history.popped| <= |q.history.pushed| && old(|q.history.popped| <= |q.history.pushed|)
      ensures var q := pair.queues[Incoming()]; old(q.Contents()) == (if ok then [msg] else []) + q.Contents()
      ensures var q := pair.queues[Incoming()]; ok == (old(q.Contents()) != [])
      ensures var q := pair.queues[Outgoing()]; q.history == old(q.history)
    {
      hide Inv;
      ContentsDefined(pair.queues[Incoming()]);
      ok, msg := pair.queues[Incoming()].TryPop();
      ContentsDefined(pair.queues[Incoming()]);
    }

    /** One turn of sgnl_fn. */
    method TrySgnl() returns (ok: bool)
      requires pair.Valid() && Connected()
      modifies pair`sgnls, pair.signals
      ensures pair.Valid() && ok == (old(pair.signals[Outgoing()]) == 0)
      ensures pair.signals[Outgoing()] == 1 && pair.signals[Incoming()] == old(pair.signals[Incoming()])
    {
      ok := pair.TrySgnl(Outgoing());
    }

    /** One turn of wait_fn. */
    method TryWait() returns (ok: bool)
      requires pair.Valid() && Connected()
      modifies pair`waits, pair.signals
      ensures pair.Valid() && ok == (old(pair.signals[Incoming()]) == 1)
      ensures pair.signals[Incoming()] == 0 && pair.signals[Outgoing()] == old(pair.signals[Outgoing()])
    {
      ok := pair.TryWait(Incoming());
    }
  }

  /**
   The pair and the two pipes that hactor_new makes: what one end sends or signals,
   the other receives or waits for. Each ring has 512 slots and room for 511 messages.
   */
  method NewPipes() returns (pair: Pair, prnt: Pipe, chld: Pipe)
    ensures pair.Valid() && prnt.pair == pair == chld.pair && prnt.Connected() && chld.Connected()
    ensures prnt.Outgoing() == chld.Incoming() != prnt.Incoming() == chld.Outgoing()
    ensures pair.endpoints[..] == [1, 1] && pair.signals[..] == [0, 0]
    ensures pair.queues[0].data.Length == pair.queues[1].data.Length == 512
  {
    assert Pow2(9) == HACTOR_HWM;
    pair := new Pair(HACTOR_HWM, HACTOR_HWM);
    PowerCapacity(9, pair.queues[0].data.Length);
    PowerCapacity(9, pair.queues[1].data.Length);
    prnt := new Pipe(pair);
    chld := new Pipe(pair);
  }
}

/**
 The single-producer single-consumer ring of hqueue.c as a step machine.

 One action is one access to the shared indices or the shared buffer. Each side
 keeps a cached copy of the other side's index and refreshes it only when the
 cache says "full" or "empty". `Memory` is what the code sees; `History` records
 unbounded counters and the items.
 */
module RingModel {
  import opened Probing

  /** Inside hqueue_try_push; tail and next are its local variables. */
  datatype ProdPc = ProdIdle | ProdRefresh(item: nat, tail: nat, next: nat)
    | ProdWrite(item: nat, tail: nat, next: nat) | ProdPublish(item: nat, next: nat)

  /** Inside hqueue_try_pop; head is its local variable. */
  datatype ConsPc = ConsIdle | ConsRefresh(head: nat) | ConsRead(head: nat) | ConsPublish(head: nat, item: nat)

  datatype Memory = Memory(
    head: nat, localTail: nat, tail: nat, localHead: nat,
    data: seq<nat>, prod: ProdPc, cons: ConsPc)

  /**
   pushed: the arguments of the pushes that succeeded; popped: the items returned by
   finished pops; seenPushed, seenPopped: how many of each the other side's cache
   knows of; arg: the argument of the latest push. Nothing in `pushed` is read from
   memory.
   */
  datatype History = History(pushed: seq<nat>, popped: seq<nat>, seenPushed: nat, seenPopped: nat, arg: nat)

  datatype State = State(m: Memory, h: History)

  datatype Action = PushBegin(item: nat) | PushRefresh | PushWrite | PushPublish | PopBegin | PopRefresh | PopRead
    | PopPublish

  /** The ring's size, a power of two in the code; index + 1 is masked with size - 1. */
  predicate WellSized(m: Memory) {
    |m.data| > 0 && m.head < |m.data| && m.tail < |m.data| && m.localHead < |m.data| && m.localTail < |m.data|
  }

  predicate Enabled(m: Memory, x: Action) {
    WellSized(m) &&
    match x
    case PushBegin(_) => m.prod.ProdIdle?
    case PushRefresh => m.prod.ProdRefresh?
    case PushWrite => m.prod.ProdWrite? && m.prod.tail < |m.data|
    case PushPublish => m.prod.ProdPublish? && m.prod.next < |m.data|
    case PopBegin => m.cons.ConsIdle?
    case PopRefresh => m.cons.ConsRefresh?
    case PopRead => m.cons.ConsRead? && m.cons.head < |m.data|
    case PopPublish => m.cons.ConsPublish?
  }

  function Effect(m: Memory, x: Action): Memory
    requires Enabled(m, x)
  {
    match x
    case PushBegin(item) =>
      var next := (m.tail + 1) % |m.data|;
      m.(prod := if next != m.localHead then ProdWrite(item, m.tail, next) else ProdRefresh(item, m.tail, next))
    case PushRefresh =>
      var ProdRefresh(item, tail, next) := m.prod;
      m.(localHead := m.head, prod := if next != m.head then ProdWrite(item, tail, next) else ProdIdle)
    case PushWrite => m.(data := m.data[m.prod.tail := m.prod.item], prod := ProdPublish(m.prod.item, m.prod.next))
    case PushPublish => m.(tail := m.prod.next, prod := ProdIdle)
    case PopBegin => m.(cons := if m.head != m.localTail then ConsRead(m.head) else ConsRefresh(m.head))
    case PopRefresh =>
      m.(localTail := m.tail, cons := if m.cons.head != m.tail then ConsRead(m.cons.head) else ConsIdle)
    case PopRead => m.(cons := ConsPublish(m.cons.head, m.data[m.cons.head]))
    case PopPublish => m.(head := (m.cons.head + 1) % |m.data|, cons := ConsIdle)
  }

  function Record(h: History, m: Memory, x: Action): History
    requires Enabled(m, x)
  {
    match x
    case PushBegin(item) => h.(arg := item)
    case PushRefresh => h.(seenPopped := |h.popped|)
    case PushPublish => h.(pushed := h.pushed + [h.arg])
    case PopRefresh => h.(seenPushed := |h.pushed|)
    case PopPublish => h.(popped := h.popped + [m.cons.item])
    case _ => h
  }

  function Step(s: State, x: Action): State {
    if Enabled(s.m, x) then State(Effect(s.m, x), Record(s.h, s.m, x)) else s
  }

  /** hqueue_new with a buffer of n slots. */
  function Init(data: seq<nat>): State {
    State(Memory(0, 0, 0, 0, data, ProdIdle, ConsIdle), History([], [], 0, 0, 0))
  }

  function Run(s: State, xs: seq<Action>): State {
    if xs == [] then s else Step(Run(s, xs[..|xs| - 1]), xs[|xs| - 1])
  }

  // ---------------------------------------------------------------- the schedule alone

  /** The argument of the latest push that began in this schedule. */
  function LatestArgument(s: State, xs: seq<Action>): nat {
    if xs == [] then s.h.arg
    else
      var ys, x := xs[..|xs| - 1], xs[|xs| - 1];
      if x.PushBegin? && Enabled(Run(s, ys).m, x) then x.item else LatestArgument(s, ys)
  }

  /** The arguments of the pushes that took effect in this schedule, in order. */
  function Accepted(s: State, xs: seq<Action>): seq<nat> {
    if xs == [] then s.h.pushed
    else
      var ys, x := xs[..|xs| - 1], xs[|xs| - 1];
      Accepted(s, ys) + if x.PushPublish? && Enabled(Run(s, ys).m, x) then [LatestArgument(s, ys)] else []
  }

  // ---------------------------------------------------------------- invariant

  /** Indices are the counters modulo the size, caches lag behind, and the ring never overfills. */
  ghost predicate CountersOk(s: State) {
    var n, T, H := |s.m.data|, |s.h.pushed|, |s.h.popped|;
    && n > 0
    && s.m.tail == T % n && s.m.head == H % n
    && s.m.localTail == s.h.seenPushed % n && s.m.localHead == s.h.seenPopped % n
    && s.h.seenPopped <= H <= s.h.seenPushed <= T <= s.h.seenPopped + n - 1
  }

  /** Slot of the k-th item ever pushed. */
  ghost predicate SlotHolds(s: State, k: nat)
    requires |s.m.data| > 0 && k < |s.h.pushed|
  {
    s.m.data[k % |s.m.data|] == s.h.pushed[k]
  }

  /** The slots from head to tail hold the items pushed and not yet popped. */
  ghost predicate ItemsOk(s: State)
    requires CountersOk(s)
  {
    && s.h.popped == s.h.pushed[..|s.h.popped|]
    && forall k: nat {:trigger SlotHolds(s, k)} :: |s.h.popped| <= k < |s.h.pushed| ==> SlotHolds(s, k)
  }

  ghost predicate ProdOk(s: State)
    requires CountersOk(s)
  {
    var n, T := |s.m.data|, |s.h.pushed|;
    match s.m.prod
    case ProdIdle => true
    case ProdRefresh(item, tail, next) =>
      item == s.h.arg && tail == s.m.tail && next == (T + 1) % n && T == s.h.seenPopped + n - 1
    case ProdWrite(item, tail, next) =>
      item == s.h.arg && tail == s.m.tail && next == (T + 1) % n && T < s.h.seenPopped + n - 1
    case ProdPublish(item, next) =>
      next == (T + 1) % n && T < s.h.seenPopped + n - 1 && s.m.data[s.m.tail] == item == s.h.arg
  }

  ghost predicate ConsOk(s: State)
    requires CountersOk(s)
  {
    var H := |s.h.popped|;
    match s.m.cons
    case ConsIdle => true
    case ConsRefresh(head) => head == s.m.head && H == s.h.seenPushed
    case ConsRead(head) => head == s.m.head && H < s.h.seenPushed
    case ConsPublish(head, item) => head == s.m.head && H < s.h.seenPushed && item == s.h.pushed[H]
  }

  ghost predicate Inv(s: State) {
    CountersOk(s) && ItemsOk(s) && ProdOk(s) && ConsOk(s)
  }

  // ---------------------------------------------------------------- residues

  lemma Residues(a: nat, b: nat, n: nat)
    requires n > 0 && a <= b < a + n
    ensures a % n == b % n <==> a == b
  {
    if a % n == b % n && a < b {
      var m := SameResidue(a, b, n);
      NoSmallMultiple(n, m, b - a);
    }
  }

  lemma NextIndex(k: nat, n: nat)
    requires n > 0
    ensures (k % n + 1) % n == (k + 1) % n
  {
    ModAdd(k, 1, n);
  }

  /** The slot n items later is the same slot. */
  lemma WrapIndex(k: nat, n: nat)
    requires n > 0
    ensures (k + n) % n == k % n
  {
    ModMultiple(1, k, n);
  }
}

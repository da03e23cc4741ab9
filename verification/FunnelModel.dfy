/**
 The many-producer single-consumer queue of hfunnel.c as a step machine.

 One action is one shared-memory access of one thread; a schedule is any sequence
 of actions, and an action that its thread is not ready for does nothing. `Memory`
 is what the code can see; `History` only records what happened.
 */
module FunnelModel {

  type Addr = nat    // 0 is NULL
  type Tid = nat

  datatype Node = Node(next: Addr, value: nat)

  /** Where a thread is inside hfunnel_push, with its local variables. */
  datatype PushPc = Outside | HasNode(node: Addr) | Cleared(node: Addr) | Swapped(node: Addr, prev: Addr)

  /** Where the consumer is inside hfunnel_pop, with its local variables. */
  datatype PopPc = Idle | HasHead(head: Addr) | HasNext(head: Addr, next: Addr) | Moved(head: Addr, next: Addr)
    | HasValue(head: Addr, value: nat)

  /** fault is set by any access to memory that is not allocated. */
  datatype Memory = Memory(
    head: Addr, tail: Addr, heap: map<Addr, Node>,
    push: map<Tid, PushPc>, pop: PopPc, fault: bool)

  /**
   calls: arguments of the pushes that each thread began; order: arguments of the
   pushes in the order of their tail swaps; owner: the thread of each swap; popped:
   values returned by finished pops; chain: the nodes from head to tail in swap
   order; base: how many nodes have been cut off the front; ticket: number of the
   latest swap of each thread; nulls: how many pops returned NULL. Nothing in calls,
   order and owner is read from memory.
   */
  datatype History = History(
    calls: map<Tid, seq<nat>>, order: seq<nat>, owner: seq<Tid>, popped: seq<nat>,
    chain: seq<Addr>, base: nat, ticket: map<Tid, nat>, nulls: nat)

  datatype State = State(m: Memory, h: History)

  datatype Action =
    | PushBegin(t: Tid, v: nat, a: Addr)   // hmalloc returns a; node->value = v
    | PushClear(t: Tid)                    // node->next = NULL
    | PushSwap(t: Tid)                     // prev = XCHG(tail, node)
    | PushLink(t: Tid)                     // prev->next = node
    | PopReadHead | PopReadNext | PopSetHead | PopReadValue | PopFree

  function Pc(m: Memory, t: Tid): PushPc {
    if t in m.push then m.push[t] else Outside
  }

  /** Is the thread at the point where it performs this access? */
  predicate Enabled(m: Memory, x: Action) {
    match x
    case PushBegin(t, v, a) => Pc(m, t) == Outside && v != 0 && a != 0 && a !in m.heap
    case PushClear(t) => Pc(m, t).HasNode?
    case PushSwap(t) => Pc(m, t).Cleared?
    case PushLink(t) => Pc(m, t).Swapped?
    case PopReadHead => m.pop.Idle?
    case PopReadNext => m.pop.HasHead?
    case PopSetHead => m.pop.HasNext?
    case PopReadValue => m.pop.Moved?
    case PopFree => m.pop.HasValue?
  }

  /** The effect of one access on memory. */
  function Effect(m: Memory, x: Action): Memory
    requires Enabled(m, x)
  {
    match x
    case PushBegin(t, v, a) => m.(heap := m.heap[a := Node(0, v)], push := m.push[t := HasNode(a)])
    case PushClear(t) =>
      var n := m.push[t].node;
      if n !in m.heap then m.(fault := true)
      else m.(heap := m.heap[n := m.heap[n].(next := 0)], push := m.push[t := Cleared(n)])
    case PushSwap(t) =>
      var n := m.push[t].node;
      m.(tail := n, push := m.push[t := Swapped(n, m.tail)])
    case PushLink(t) =>
      var Swapped(n, prev) := m.push[t];
      if prev !in m.heap then m.(fault := true)
      else m.(heap := m.heap[prev := m.heap[prev].(next := n)], push := m.push[t := Outside])
    case PopReadHead => m.(pop := HasHead(m.head))
    case PopReadNext =>
      var h := m.pop.head;
      if h !in m.heap then m.(fault := true)
      else m.(pop := if m.heap[h].next == 0 then Idle else HasNext(h, m.heap[h].next))
    case PopSetHead => m.(head := m.pop.next, pop := Moved(m.pop.head, m.pop.next))
    case PopReadValue =>
      var n := m.pop.next;
      if n !in m.heap then m.(fault := true) else m.(pop := HasValue(m.pop.head, m.heap[n].value))
    case PopFree =>
      if m.pop.head !in m.heap then m.(fault := true) else m.(heap := m.heap - {m.pop.head}, pop := Idle)
  }

  function Calls(h: History, t: Tid): seq<nat> {
    if t in h.calls then h.calls[t] else []
  }

  /** The argument of the push that thread t began last. */
  function Latest(h: History, t: Tid): nat {
    if Calls(h, t) == [] then 0 else Calls(h, t)[|Calls(h, t)| - 1]
  }

  /** What the access adds to the record. */
  function Record(h: History, m: Memory, x: Action): History
    requires Enabled(m, x)
  {
    match x
    case PushBegin(t, v, _) => h.(calls := h.calls[t := Calls(h, t) + [v]])
    case PushSwap(t) =>
      h.(order := h.order + [Latest(h, t)], owner := h.owner + [t],
         chain := h.chain + [m.push[t].node], ticket := h.ticket[t := |h.order|])
    case PopReadNext => if m.pop.head in m.heap && m.heap[m.pop.head].next == 0 then h.(nulls := h.nulls + 1) else h
    case PopSetHead => if |h.chain| > 0 then h.(chain := h.chain[1..], base := h.base + 1) else h
    case PopFree => h.(popped := h.popped + [m.pop.value])
    case _ => h
  }

  function Step(s: State, x: Action): State {
    if Enabled(s.m, x) then State(Effect(s.m, x), Record(s.h, s.m, x)) else s
  }

  /** hfunnel_new with its stub node at address a. */
  function Init(a: Addr): State {
    State(Memory(a, a, map[a := Node(0, 0)], map[], Idle, false), History(map[], [], [], [], [a], 0, map[], 0))
  }

  /** Any interleaving of any number of pushers and the one consumer. */
  function Run(s: State, xs: seq<Action>): State {
    if xs == [] then s else Step(Run(s, xs[..|xs| - 1]), xs[|xs| - 1])
  }

  // ---------------------------------------------------------------- invariant

  predicate Private(pc: PushPc, a: Addr) {
    (pc.HasNode? || pc.Cleared?) && pc.node == a
  }

  /** The node that the consumer has cut off but not yet freed. */
  predicate Detached(pop: PopPc, a: Addr) {
    (pop.Moved? || pop.HasValue?) && pop.head == a
  }

  ghost predicate ChainOk(s: State) {
    && |s.h.chain| >= 1 && |s.h.order| == |s.h.owner| == s.h.base + |s.h.chain| - 1
    && s.m.head == s.h.chain[0] && s.m.tail == s.h.chain[|s.h.chain| - 1]
    && (forall i :: 0 <= i < |s.h.chain| ==> s.h.chain[i] != 0 && s.h.chain[i] in s.m.heap)
    && (forall i, j :: 0 <= i < j < |s.h.chain| ==> s.h.chain[i] != s.h.chain[j])
  }

  /** Node i is linked to node i + 1, or the push that swapped in node i + 1 is still to store the link. */
  ghost predicate LinkAt(s: State, i: int)
    requires ChainOk(s) && 0 <= i < |s.h.chain| - 1
  {
    var next, t := s.m.heap[s.h.chain[i]].next, s.h.owner[s.h.base + i];
    || next == s.h.chain[i + 1]
    || (next == 0 && Pc(s.m, t) == Swapped(s.h.chain[i + 1], s.h.chain[i])
        && t in s.h.ticket && s.h.ticket[t] == s.h.base + i)
  }

  ghost predicate LinksOk(s: State)
    requires ChainOk(s)
  {
    && (forall i {:trigger LinkAt(s, i)} :: 0 <= i < |s.h.chain| - 1 ==> LinkAt(s, i))
    && s.m.heap[s.h.chain[|s.h.chain| - 1]].next == 0
  }

  /** A push between its swap and its link sits in a gap of the chain. */
  ghost predicate GapAt(s: State, t: Tid)
    requires ChainOk(s)
  {
    && t in s.h.ticket && s.h.base <= s.h.ticket[t] < |s.h.order|
    && s.h.owner[s.h.ticket[t]] == t
    && var i := s.h.ticket[t] - s.h.base;
    Pc(s.m, t) == Swapped(s.h.chain[i + 1], s.h.chain[i]) && s.m.heap[s.h.chain[i]].next == 0
  }

  ghost predicate GapsOk(s: State)
    requires ChainOk(s)
  {
    forall t {:trigger GapAt(s, t)} :: Pc(s.m, t).Swapped? ==> GapAt(s, t)
  }

  /** A node that is not yet swapped in: nobody else refers to it, and it holds the argument of thread t's push. */
  ghost predicate PrivateAt(s: State, t: Tid, a: Addr) {
    && a != 0 && a in s.m.heap && a !in s.h.chain && !Detached(s.m.pop, a)
    && s.m.heap[a].next == 0 && s.m.heap[a].value == Latest(s.h, t) != 0
  }

  /** Nodes not yet swapped in belong to one push each. */
  ghost predicate PrivateOk(s: State) {
    && (forall t, a :: Private(Pc(s.m, t), a) ==> PrivateAt(s, t, a))
    && (forall t, u, a :: Private(Pc(s.m, t), a) && Private(Pc(s.m, u), a) ==> t == u)
  }

  ghost predicate ValuesOk(s: State)
    requires ChainOk(s)
  {
    forall i :: 0 <= i < |s.h.chain| && s.h.base + i > 0 ==>
      s.m.heap[s.h.chain[i]].value == s.h.order[s.h.base + i - 1] != 0
  }

  ghost predicate PopOk(s: State)
    requires ChainOk(s)
  {
    match s.m.pop
    case Idle => s.h.popped == s.h.order[..s.h.base]
    case HasHead(h) => h == s.m.head && s.h.popped == s.h.order[..s.h.base]
    case HasNext(h, n) =>
      && h == s.m.head && |s.h.chain| >= 2 && n == s.h.chain[1] && s.m.heap[h].next == n
      && s.h.popped == s.h.order[..s.h.base]
    case Moved(h, n) =>
      && n == s.m.head && h != 0 && h in s.m.heap && h !in s.h.chain
      && s.h.base >= 1 && s.h.popped == s.h.order[..s.h.base - 1]
    case HasValue(h, v) =>
      && h != 0 && h in s.m.heap && h !in s.h.chain
      && s.h.base >= 1 && s.h.popped == s.h.order[..s.h.base - 1] && v == s.h.order[s.h.base - 1]
  }

  /** Every allocated node is accounted for: nothing leaks. */
  ghost predicate HeapOk(s: State) {
    forall a :: a in s.m.heap ==> a in s.h.chain || Detached(s.m.pop, a) || exists t :: Private(Pc(s.m, t), a)
  }

  ghost predicate Inv(s: State) {
    && ChainOk(s) && LinksOk(s) && GapsOk(s) && PrivateOk(s) && ValuesOk(s) && PopOk(s) && HeapOk(s)
    && 0 !in s.m.heap && !s.m.fault
  }
}

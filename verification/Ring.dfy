/**
 hqueue.c itself: rounding and placement in `hqueue_new`, and the two operations
 as code on the queue's fields.
 */
module Ring {
  import opened Words
  import opened Bits
  import opened Probing
  import opened RingModel
  import opened RingProof

  /**
   The rounding at the head of hqueue_new, on 64-bit words: the least power of two
   that is at least the capacity, or 0 when there is none that fits.
   */
  method RoundCapacity(capacity: nat) returns (c: nat)
    requires capacity < U64
    ensures 1 <= capacity <= U64 / 2 ==> LeastPow2(capacity, c)
    ensures capacity == 0 || capacity > U64 / 2 ==> c == 0
    ensures SizeFor(capacity, c)
  {
    hide ShiftOr, Smeared, TopOnes, LeastPow2;
    var x: nat := if capacity == 0 then U64 - 1 else capacity - 1;
    ghost var l := WordLength(x);
    SmearStep(x, l, 1, 1);
    x := ShiftOr(x, 1);
    SmearStep(x, l, Min(2, l), 2);
    x := ShiftOr(x, 2);
    SmearStep(x, l, Min(4, l), 4);
    x := ShiftOr(x, 4);
    var i: nat := 1;
    while i < 8
      invariant i == 1 || i == 2 || i == 4 || i == 8
      invariant Smeared(x, l, Min(8 * i, l))
    {
      SmearStep(x, l, Min(8 * i, l), 8 * i);
      x := ShiftOr(x, 8 * i);
      i := 2 * i;
    }
    Rounded(capacity, l, x);
    c := (x + 1) % U64;
  }

  /** x has bit length l and its top m bits are ones; l == 0 stands for x == 0. */
  ghost predicate Smeared(x: nat, l: nat, m: nat) {
    l <= 64 && if l == 0 then x == 0 else 1 <= m <= l && TopOnes(x, l, m)
  }

  lemma WordLength(x: nat) returns (l: nat)
    requires x < U64
    ensures Smeared(x, l, Min(1, l))
    ensures l >= 1 ==> TopOnes(x, l, 1)
  {
    if x == 0 {
      l := 0;
    } else {
      l := BitLength(x);
      BitLengthBound(x, l, 64) by { Pow2Values(); }
    }
  }

  lemma SmearStep(x: nat, l: nat, m: nat, s: nat)
    requires Smeared(x, l, Min(m, l)) && s >= 1 && (m >= l || m == s)
    ensures Smeared(ShiftOr(x, s), l, Min(2 * s, l))
  {
    if l == 0 {
      ShiftOrFull(0, 0, s);
    } else {
      ShiftOrWithin(x, l, Min(m, l), s);
      if m >= l && 2 * s < l { AllOnesRun(ShiftOr(x, s), l, 2 * s); }
    }
  }

  lemma AllOnesRun(x: nat, l: nat, m: nat)
    requires 1 <= m <= l && TopOnes(x, l, l)
    ensures TopOnes(x, l, m)
  {
    Pow2Mono(0, l - m);
  }

  lemma Rounded(capacity: nat, l: nat, x: nat)
    requires capacity < U64 && Smeared(x, l, Min(64, l))
    requires var a := if capacity == 0 then U64 - 1 else capacity - 1; Smeared(a, l, Min(1, l))
    ensures 1 <= capacity <= U64 / 2 ==> LeastPow2(capacity, (x + 1) % U64)
    ensures capacity == 0 || capacity > U64 / 2 ==> (x + 1) % U64 == 0
  {
    var a := if capacity == 0 then U64 - 1 else capacity - 1;
    if l == 0 {
      assert Pow2(0) == 1;
      assert capacity == 1;
    } else {
      SmearedIsLeast(a + 1, l, x);
      RoundedRange(a, l);
    }
  }

  lemma RoundedRange(a: nat, l: nat)
    requires 1 <= l <= 64 && TopOnes(a, l, 1)
    ensures a + 1 <= U64 / 2 ==> Pow2(l) <= U64 / 2
    ensures a + 1 > U64 / 2 ==> Pow2(l) == U64
  {
    Pow2Values();
    if a + 1 <= U64 / 2 {
      BitLengthBound(a, l, 63);
      Pow2Mono(l, 63);
    } else if l < 64 {
      Pow2Mono(l, 63);
    }
  }

  /** The size that hqueue_new makes of a capacity, on 64-bit words. */
  ghost predicate SizeFor(capacity: nat, size: nat) {
    if 1 <= capacity <= U64 / 2 then LeastPow2(capacity, size) else size == 0
  }

  /**
   A ring of the size that hqueue_new makes keeps one slot free. It therefore holds at
   least `capacity` items, as its header file says, exactly when the capacity is from 1
   to 2^63 and not itself a power of two.
   */
  lemma CapacityPromise(capacity: nat, size: nat)
    requires capacity < U64 && SizeFor(capacity, size)
    ensures size > 0 && size - 1 >= capacity <==> 1 <= capacity <= U64 / 2 && !IsPow2(capacity)
  {
    if 1 <= capacity <= U64 / 2 && IsPow2(capacity) {
      var k: nat :| capacity == Pow2(k);
      assert size <= Pow2(k);
    }
  }

  /** A power of two is its own size, and one slot short. */
  lemma PowerCapacity(k: nat, size: nat)
    requires k <= 63 && SizeFor(Pow2(k), size)
    ensures size == Pow2(k) && size - 1 < Pow2(k)
  {
    Pow2Values();
    Pow2Mono(k, 63);
    assert IsPow2(Pow2(k));
    CapacityPromise(Pow2(k), size);
  }

  function Align(p: nat, alignment: nat): (q: nat)
    requires alignment > 0
    ensures q % alignment == 0 && p <= q <= p + alignment - 1
  {
    AlignFacts(p, alignment);
    p + (alignment - p % alignment) % alignment
  }

  lemma AlignFacts(p: nat, alignment: nat)
    requires alignment > 0
    ensures (p + (alignment - p % alignment) % alignment) % alignment == 0
  {
    var r := p % alignment;
    if r == 0 {
      assert alignment % alignment == 0 by { ModUnique(alignment, 1, 0, alignment); }
    } else {
      ModUnique(alignment - r, 0, alignment - r, alignment);
      ModUnique(alignment, 1, 0, alignment);
      ModAdd(p, alignment - r, alignment);
    }
  }

  /**
   Placement of the header and of the item array inside the one allocated block,
   for any address and any alignments: aligned, disjoint, and inside.
   */
  method Place(raw: nat, headerSize: nat, headerAlign: nat, itemSize: nat, itemAlign: nat, capacity: nat)
    returns (size: nat, header: nat, items: nat)
    requires headerAlign > 0 && itemAlign > 0
    ensures header % headerAlign == 0 && items % itemAlign == 0
    ensures raw <= header && header + headerSize <= items && items + itemSize * capacity <= raw + size
    ensures size == headerSize + headerAlign - 1 + (itemSize * capacity + itemAlign - 1)
  {
    size := headerSize + headerAlign - 1;
    size := size + itemSize * capacity + itemAlign - 1;
    header := Align(raw, headerAlign);
    items := header + headerSize;
    items := Align(items, itemAlign);
  }

  class HQueue {
    var head: nat
    var localTail: nat
    var tail: nat
    var localHead: nat
    const data: array<nat>
    ghost var history: History

    /** The state as the step machine sees it, between calls. */
    ghost function Now(): State
      reads this, data
    {
      State(Memory(head, localTail, tail, localHead, data[..], ProdIdle, ConsIdle), history)
    }

    /** Items pushed and not yet popped. */
    ghost function Contents(): seq<nat>
      requires |history.popped| <= |history.pushed|
      reads this
    {
      history.pushed[|history.popped|..]
    }

    /** hqueue_new: a capacity whose rounding does not fit a word leaves a ring without slots, which is no queue. */
    constructor (capacity: nat)
      requires capacity < U64
      ensures Inv(Now()) <==> 1 <= capacity <= U64 / 2
      ensures 1 <= capacity <= U64 / 2 ==> LeastPow2(capacity, data.Length)
      ensures !(1 <= capacity <= U64 / 2) ==> data.Length == 0
      ensures data.Length - 1 >= capacity <==> 1 <= capacity <= U64 / 2 && !IsPow2(capacity)
      ensures history == History([], [], 0, 0, 0) && fresh(data)
    {
      var size := RoundCapacity(capacity);
      CapacityPromise(capacity, size);
      head, localTail, tail, localHead := 0, 0, 0, 0;
      data := new nat[size](i => 0);
      history := History([], [], 0, 0, 0);
    }

    static lemma CountsOf(s: State)
      requires Inv(s)
      ensures |s.h.popped| <= |s.h.pushed|
    {
    }

    /** hqueue_try_push: fails exactly when size - 1 items are inside. */
    method TryPush(item: nat) returns (ok: bool)
      requires Inv(Now())
      modifies this, data
      ensures Inv(Now()) && Now() == Run(old(Now()), [PushBegin(item), PushRefresh, PushWrite, PushPublish])
      ensures ok == (|old(Contents())| < data.Length - 1)
      ensures Contents() == if ok then old(Contents()) + [item] else old(Contents())
    {
      ghost var s0 := Now();
      PushCall(s0, item);
      CountsOf(s0);
      hide Run, Inv;
      history := history.(arg := item);
      var h := localHead;
      var t := tail;
      var next := (t + 1) % data.Length;
      ok := false;
      var room := next != h;
      if !room {
        localHead := head;
        room := next != localHead;
        history := history.(seenPopped := |history.popped|);
      }
      if room {
        data[t] := item;
        assert data[..] == s0.m.data[t := item];
        tail := next;
        history := history.(pushed := history.pushed + [item]);
        ok := true;
      }
    }

    /** hqueue_try_pop: fails exactly when the queue is empty; otherwise yields the oldest item. */
    method TryPop() returns (ok: bool, item: nat)
      requires Inv(Now())
      modifies this
      ensures Inv(Now()) && Now() == Run(old(Now()), [PopBegin, PopRefresh, PopRead, PopPublish])
      ensures ok == (old(Contents()) != [])
      ensures ok ==> [item] + Contents() == old(Contents())
      ensures !ok ==> Contents() == old(Contents())
    {
      PopCall(Now());
      CountsOf(Now());
      hide Run, Inv;
      var t := localTail;
      var h := head;
      ok, item := false, 0;
      var any := h != t;
      if !any {
        localTail := tail;
        any := h != localTail;
        history := history.(seenPushed := |history.pushed|);
      }
      if any {
        item := data[h];
        head := (h + 1) % data.Length;
        history := history.(popped := history.popped + [item]);
        ok := true;
      }
    }
  }

  lemma RunFour(s: State, w: Action, x: Action, y: Action, z: Action)
    ensures Run(s, [w, x, y, z]) == Step(Step(Step(Step(s, w), x), y), z)
  {
    assert Run(s, []) == s;
    hide Run, Step;
    RunSnoc(s, [], w);
    RunSnoc(s, [w], x);
    RunSnoc(s, [w, x], y);
    RunSnoc(s, [w, x, y], z);
    assert [] + [w] == [w] && [w] + [x] == [w, x] && [w, x] + [y] == [w, x, y] && [w, x, y] + [z] == [w, x, y, z];
  }

  lemma RunSnoc(s: State, xs: seq<Action>, x: Action)
    ensures Run(s, xs + [x]) == Step(Run(s, xs), x)
  {
    hide Step;
    assert (xs + [x])[..|xs|] == xs;
  }

  /** Is there room once the cached head index has been refreshed if need be? */
  predicate Room(m: Memory)
    requires |m.data| > 0
  {
    var next := (m.tail + 1) % |m.data|;
    next != m.localHead || next != m.head
  }

  lemma RoomIff(s: State)
    requires Inv(s)
    ensures Room(s.m) <==> |s.h.pushed| - |s.h.popped| < |s.m.data| - 1
    ensures WellSized(s.m)
  {
    var n, T := |s.m.data|, |s.h.pushed|;
    NextIndex(T, n);
    WrapIndex(|s.h.popped|, n);
    WrapIndex(s.h.seenPopped, n);
    if T + 1 < s.h.seenPopped + n { Residues(s.h.seenPopped, T + 1, n); }
    if T + 1 < |s.h.popped| + n { Residues(|s.h.popped|, T + 1, n); }
  }

  /** The whole effect of one undisturbed push. */
  function PushOutcome(s: State, item: nat): State
    requires WellSized(s.m)
  {
    var next := (s.m.tail + 1) % |s.m.data|;
    var stale := next == s.m.localHead;
    var m := if stale then s.m.(localHead := s.m.head) else s.m;
    var h := if stale then s.h.(arg := item, seenPopped := |s.h.popped|) else s.h.(arg := item);
    if Room(s.m) then State(m.(data := m.data[m.tail := item], tail := next), h.(pushed := h.pushed + [item]))
    else State(m, h)
  }

  /** One undisturbed push, written out. */
  lemma PushCall(s: State, item: nat)
    requires Inv(s) && s.m.prod == ProdIdle
    ensures WellSized(s.m)
    ensures Run(s, [PushBegin(item), PushRefresh, PushWrite, PushPublish]) == PushOutcome(s, item)
    ensures Inv(PushOutcome(s, item))
    ensures Room(s.m) <==> |s.h.pushed| - |s.h.popped| < |s.m.data| - 1
  {
    RoomIff(s);
    RunFour(s, PushBegin(item), PushRefresh, PushWrite, PushPublish);
    RunInv(s, [PushBegin(item), PushRefresh, PushWrite, PushPublish]);
    hide Run, Inv;
    PushSteps(s, item);
  }

  lemma PushSteps(s: State, item: nat)
    requires WellSized(s.m) && s.m.prod == ProdIdle
    ensures Step(Step(Step(Step(s, PushBegin(item)), PushRefresh), PushWrite), PushPublish) == PushOutcome(s, item)
  {
  }

  /** Is there an item once the cached tail index has been refreshed if need be? */
  predicate Any(m: Memory) {
    m.head != m.localTail || m.head != m.tail
  }

  lemma AnyIff(s: State)
    requires Inv(s)
    ensures Any(s.m) <==> |s.h.popped| < |s.h.pushed|
    ensures WellSized(s.m)
    ensures |s.h.popped| < |s.h.pushed| ==> s.m.data[s.m.head] == s.h.pushed[|s.h.popped|]
  {
    EmptyIff(s);
    Residues(|s.h.popped|, s.h.seenPushed, |s.m.data|);
    assert |s.h.popped| < |s.h.pushed| ==> SlotHolds(s, |s.h.popped|);
  }

  /** The whole effect of one undisturbed pop. */
  function PopOutcome(s: State): State
    requires WellSized(s.m)
  {
    var stale := s.m.head == s.m.localTail;
    var m := if stale then s.m.(localTail := s.m.tail) else s.m;
    var h := if stale then s.h.(seenPushed := |s.h.pushed|) else s.h;
    if Any(s.m) then State(m.(head := (m.head + 1) % |m.data|), h.(popped := h.popped + [m.data[m.head]]))
    else State(m, h)
  }

  /** One undisturbed pop, written out. */
  lemma PopCall(s: State)
    requires Inv(s) && s.m.cons == ConsIdle
    ensures WellSized(s.m)
    ensures Run(s, [PopBegin, PopRefresh, PopRead, PopPublish]) == PopOutcome(s)
    ensures Inv(PopOutcome(s))
    ensures Any(s.m) <==> |s.h.popped| < |s.h.pushed|
    ensures |s.h.popped| < |s.h.pushed| ==> s.m.data[s.m.head] == s.h.pushed[|s.h.popped|]
  {
    AnyIff(s);
    RunFour(s, PopBegin, PopRefresh, PopRead, PopPublish);
    RunInv(s, [PopBegin, PopRefresh, PopRead, PopPublish]);
    hide Run, Inv;
    PopSteps(s);
  }

  lemma PopSteps(s: State)
    requires WellSized(s.m) && s.m.cons == ConsIdle
    ensures Step(Step(Step(Step(s, PopBegin), PopRefresh), PopRead), PopPublish) == PopOutcome(s)
  {
  }
}

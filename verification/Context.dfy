/**
 The per-node registry of hctx.c: which socket ids are free, the mailbox of each
 id, and the map from endpoint to the id of the server bound there.

 Mailboxes are addresses, with 0 for NULL. Calls are sequential.
 */
module Context {
  import opened Bits
  import opened Probing
  import opened TableLayout
  import opened HashTable
  import opened FreeBits

  const ENDPOINTS: nat := 0x1_0000

  /** A table of at most 2^16 keys without tombstones never needs more than 2^17 buckets. */
  lemma BucketsBounded(n: nat, size: nat)
    requires n == 0 || (IsPow2(n) && 4 <= n)
    requires n <= 0x2_0000 && size <= ENDPOINTS && n > 0 ==> UpperBound(n) <= size
    requires n <= 0x2_0000 && size <= ENDPOINTS
    ensures 2 * n <= 0x2_0000
  {
    Pow2Values();
    if n > ENDPOINTS {
      var k: nat :| n == Pow2(k);
      Pow2Double(16);
      if k <= 16 { Pow2Mono(k, 16); } else { Pow2Mono(17, k); }
    }
  }

  /** Distinct 16-bit keys number at most 2^16. */
  lemma KeysBounded(m: map<nat, int>)
    requires forall k :: k in m ==> k < ENDPOINTS
    ensures |m| <= ENDPOINTS
  {
    BelowCount(ENDPOINTS);
    SubsetSize(m.Keys, Below(ENDPOINTS));
    assert |m.Keys| == |m|;
  }

  class Context {
    const freelist: array<bv32>
    const mailbox: array<nat>
    const serverMap: Table<nat, int>

    ghost function Repr(): set<object>
      reads this, serverMap
    {
      {this, freelist, mailbox} + serverMap.Repr()
    }

    ghost function FreeIds(): set<int>
      reads freelist
    {
      Free(freelist[..])
    }

    /** The endpoint map: a negative value means the endpoint was released. */
    ghost function Servers(): map<nat, int>
      reads serverMap
    {
      serverMap.contents
    }

    ghost predicate Bound(endpoint: nat)
      reads serverMap
    {
      endpoint in serverMap.contents && serverMap.contents[endpoint] >= 0
    }

    ghost predicate Valid()
      reads this, serverMap, Repr()
    {
      && mailbox.Length == 32 * freelist.Length <= 0x1_0000
      && freelist as object != mailbox
      && {this, freelist, mailbox} !! serverMap.Repr()
      && serverMap.Valid() && serverMap.NoTombstones() && serverMap.nBuckets <= 0x2_0000
      && forall e :: e in serverMap.contents ==> e < ENDPOINTS && serverMap.contents[e] < mailbox.Length
    }

    /** hctx_new: every id free, no endpoint known. */
    constructor (words: nat)
      requires words <= 2048
      ensures Valid() && fresh(Repr()) && Servers() == map[] && freelist.Length == words
      ensures forall id :: id in FreeIds() <==> 0 <= id < 32 * words
    {
      hide Table.Layout, Table.Load;
      freelist := new bv32[words](i => 0xFFFF_FFFF);
      mailbox := new nat[32 * words](i => 0);
      serverMap := new Table<nat, int>(k => k);
      new;
      AllFree(freelist[..]);
    }

    /** hctx_register: takes the least free id, or fails when every id is in use. */
    method Register(box: nat) returns (id: int)
      requires Valid()
      modifies freelist, mailbox
      ensures Valid() && Servers() == old(Servers())
      ensures id == -1 <==> old(FreeIds()) == {}
      ensures id == -1 ==> FreeIds() == {} && mailbox[..] == old(mailbox[..])
      ensures id != -1 ==> id in old(FreeIds()) && forall x :: x in old(FreeIds()) ==> id <= x
      ensures id != -1 ==>
        0 <= id < mailbox.Length && FreeIds() == old(FreeIds()) - {id} && mailbox[..] == old(mailbox[..])[id := box]
    {
      hide Table.Layout, Table.Load, Table.NoTombstones, IsFree, Bit;
      var i, pos := FindFreeWord();
      if i == freelist.Length {
        NoneFree(freelist[..]);
        return -1;
      }
      LeastId(freelist[..], i, pos);
      id := i * 32 + pos;
      Take(id, box);
    }

    /** The id's bit is cleared and its mailbox recorded. */
    method Take(id: nat, box: nat)
      requires Valid() && id < mailbox.Length
      modifies freelist, mailbox
      ensures Valid() && Servers() == old(Servers())
      ensures FreeIds() == old(FreeIds()) - {id} && mailbox[..] == old(mailbox[..])[id := box]
    {
      hide Table.Layout, Table.Load, Table.NoTombstones;
      ghost var words, boxes := freelist[..], mailbox[..];
      TakeId(words, id);
      freelist[id / 32] := WithoutBit(freelist[id / 32], Pos(id % 32));
      assert freelist[..] == words[id / 32 := WithoutBit(words[id / 32], Pos(id % 32))];
      mailbox[id] := box;
      assert mailbox[..] == boxes[id := box];
    }

    /** The search loop: the first word with a set bit, and its lowest set bit. */
    method FindFreeWord() returns (i: nat, pos: nat)
      ensures i <= freelist.Length && forall x: nat :: x < 32 * i ==> !IsFree(freelist[..], x)
      ensures i < freelist.Length ==> pos == LowestFrom(freelist[i], 0) < 32
    {
      i, pos := 0, 32;
      while i < freelist.Length
        invariant i <= freelist.Length
        invariant forall x: nat :: x < 32 * i ==> !IsFree(freelist[..], x)
      {
        pos := LowestFrom(freelist[i], 0);
        if pos < 32 { break; }
        NoneInWord(freelist[..], i);
        i := i + 1;
      }
    }

    static lemma NoneInWord(words: seq<bv32>, i: nat)
      requires i < |words| && LowestFrom(words[i], 0) == 32
      ensures forall x: nat :: 32 * i <= x < 32 * (i + 1) ==> !IsFree(words, x)
    {
      forall x: nat | 32 * i <= x < 32 * (i + 1) ensures !IsFree(words, x) {
        assert x / 32 == i;
      }
    }

    static lemma NoneFree(words: seq<bv32>)
      requires forall x: nat :: x < 32 * |words| ==> !IsFree(words, x)
      ensures Free(words) == {}
    {
    }

    static lemma LeastId(words: seq<bv32>, i: nat, pos: nat)
      requires i < |words| && pos < 32 && pos == LowestFrom(words[i], 0)
      requires forall x: nat :: x < 32 * i ==> !IsFree(words, x)
      ensures (i * 32 + pos) / 32 == i && (i * 32 + pos) % 32 == pos
      ensures 32 * i + pos in Free(words) && forall x :: x in Free(words) ==> 32 * i + pos <= x
    {
      PartsOf(i, pos);
      FoundIsFree(words, i, pos);
      hide Bit, LowestFrom, IsFree;
      forall x | x in Free(words) ensures 32 * i + pos <= x {
        NotLower(words, i, pos, x);
      }
    }

    static lemma FoundIsFree(words: seq<bv32>, i: nat, pos: nat)
      requires i < |words| && pos == LowestFrom(words[i], 0) < 32
      ensures IsFree(words, 32 * i + pos)
    {
      assert Bit(words[i], Pos(pos));
      hide Bit, LowestFrom;
      PartsOf(i, pos);
    }

    static lemma PartsOf(i: nat, pos: nat)
      requires pos < 32
      ensures (i * 32 + pos) / 32 == i && (i * 32 + pos) % 32 == pos
      ensures (32 * i + pos) / 32 == i && (32 * i + pos) % 32 == pos
    {
    }

    /** No id of word i lies below its lowest set bit. */
    static lemma NotLower(words: seq<bv32>, i: nat, pos: nat, x: int)
      requires i < |words| && pos == LowestFrom(words[i], 0) < 32 && IsFree(words, x)
      requires forall y: nat :: y < 32 * i ==> !IsFree(words, y)
      ensures 32 * i + pos <= x
    {
      hide LowestFrom, Bit;
      var q := x % 32;
      assert x == 32 * (x / 32) + q && x / 32 >= i;
      if x / 32 == i { assert Bit(words[i], Pos(q)); }
    }

    /** hctx_unregister: gives the id back. */
    method Unregister(id: nat)
      requires Valid() && id < mailbox.Length
      modifies freelist, mailbox
      ensures Valid() && Servers() == old(Servers())
      ensures FreeIds() == old(FreeIds()) + {id} && mailbox[..] == old(mailbox[..])[id := 0]
    {
      ghost var words, boxes := freelist[..], mailbox[..];
      mailbox[id] := 0;
      assert mailbox[..] == boxes[id := 0];
      GiveId(words, id);
      freelist[id / 32] := WithBit(freelist[id / 32], Pos(id % 32));
      assert freelist[..] == words[id / 32 := WithBit(words[id / 32], Pos(id % 32))];
    }

    /** hctx_bind: succeeds exactly when no socket holds the endpoint, unless memory runs out. */
    method Bind(endpoint: nat, socketId: nat, alloc: Allocation) returns (rc: bool)
      requires Valid() && endpoint < ENDPOINTS && socketId < mailbox.Length
      modifies Repr()
      ensures Valid() && fresh(Repr() - old(Repr()))
      ensures freelist[..] == old(freelist[..]) && mailbox[..] == old(mailbox[..])
      ensures rc ==> !old(Bound(endpoint)) && Servers() == old(Servers())[endpoint := socketId]
      ensures !rc ==> Servers() == old(Servers())
      ensures !rc <==> old(Bound(endpoint)) || old(serverMap.Starves(alloc))
    {
      hide Table.Layout, Table.Load, FreeAt, Table.NextBuckets, Table.Starves;
      rc := false;
      CanPut();
      var it, absent := serverMap.Put(endpoint, alloc);
      if absent >= 1 {
        serverMap.SetVal(it, socketId);
        rc := true;
      } else if absent == 0 {
        var v := serverMap.Val(it);
        if v < 0 {
          serverMap.SetVal(it, socketId);
          rc := true;
        }
      }
    }

    lemma CanPut()
      requires Valid()
      ensures serverMap.CanGrow() && serverMap.size <= 0x1_0000 == ENDPOINTS && serverMap.NextBuckets() <= 0x2_0000
    {
      serverMap.FullWhen();
      KeysBounded(serverMap.contents);
      serverMap.CountersAgree();
      if serverMap.nOccupied >= serverMap.upperBound {
        BucketsBounded(serverMap.nBuckets, serverMap.size);
      }
    }

    /** hctx_unbind: an endpoint that is known becomes released; nothing else changes. */
    method Unbind(endpoint: nat)
      requires Valid() && endpoint < ENDPOINTS
      modifies Repr()
      ensures Valid() && Repr() == old(Repr())
      ensures freelist[..] == old(freelist[..]) && mailbox[..] == old(mailbox[..])
      ensures Servers() == if endpoint in old(Servers()) then old(Servers())[endpoint := -1] else old(Servers())
    {
      hide Table.Layout, Table.Load, FreeAt, Table.NextBuckets;
      var it := serverMap.Get(endpoint);
      if it != serverMap.nBuckets {
        serverMap.SetVal(it, -1);
      }
    }

    /** hctx_mailbox_at: the mailbox of the socket bound to the endpoint, or NULL. */
    method MailboxAt(endpoint: nat) returns (box: nat)
      requires Valid() && endpoint < ENDPOINTS
      ensures box == if Bound(endpoint) then mailbox[Servers()[endpoint]] else 0
    {
      hide Table.Layout, Table.Load, FreeAt, Table.NextBuckets;
      box := 0;
      var it := serverMap.Get(endpoint);
      if it != serverMap.nBuckets {
        var id := serverMap.Val(it);
        if id >= 0 { box := mailbox[id]; }
      }
    }
  }
}

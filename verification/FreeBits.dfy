/**
 A vector of 32-bit words as a set of free ids: id is free when bit id % 32 of word id / 32 is set.
 */
module FreeBits {

  /** A bit number as a shift count. */
  function Pos(p: nat): (s: bv32) {
    match p
    case 0 => 0 case 1 => 1 case 2 => 2 case 3 => 3 case 4 => 4 case 5 => 5 case 6 => 6 case 7 => 7
    case 8 => 8 case 9 => 9 case 10 => 10 case 11 => 11 case 12 => 12 case 13 => 13 case 14 => 14 case 15 => 15
    case 16 => 16 case 17 => 17 case 18 => 18 case 19 => 19 case 20 => 20 case 21 => 21 case 22 => 22 case 23 => 23
    case 24 => 24 case 25 => 25 case 26 => 26 case 27 => 27 case 28 => 28 case 29 => 29 case 30 => 30
    case _ => 31
  }

  predicate Bit(w: bv32, s: bv32) {
    s < 32 && (w >> s) & 1 == 1
  }

  /** w &= ~(1 << s) */
  function WithoutBit(w: bv32, s: bv32): bv32 {
    if s < 32 then w & !(1 << s) else w
  }

  /** w |= 1 << s */
  function WithBit(w: bv32, s: bv32): bv32 {
    if s < 32 then w | (1 << s) else w
  }

  /** Position of the lowest set bit at or above p, or 32: __builtin_ffs minus one, with 32 for "none". */
  function LowestFrom(w: bv32, p: nat): (r: nat)
    requires p <= 32
    ensures p <= r <= 32
    ensures r < 32 ==> Bit(w, Pos(r))
    ensures forall q: nat :: p <= q < r ==> !Bit(w, Pos(q))
    decreases 32 - p
  {
    if p == 32 || Bit(w, Pos(p)) then p else LowestFrom(w, p + 1)
  }

  predicate IsFree(words: seq<bv32>, id: int) {
    0 <= id < 32 * |words| && Bit(words[id / 32], Pos(id % 32))
  }

  ghost function Free(words: seq<bv32>): (ids: set<int>)
    ensures forall id :: id in ids <==> IsFree(words, id)
  {
    set id | 0 <= id < 32 * |words| && IsFree(words, id)
  }

  lemma PosDistinct(p: nat, q: nat)
    requires p < 32 && q < 32 && p != q
    ensures Pos(p) != Pos(q)
  {
  }

  lemma PosRange(p: nat)
    ensures Pos(p) < 32
  {
  }

  lemma ClearBits(w: bv32, s: bv32, t: bv32)
    requires s < 32 && t < 32
    ensures Bit(WithoutBit(w, s), t) == (t != s && Bit(w, t))
  {
  }

  lemma SetBits(w: bv32, s: bv32, t: bv32)
    requires s < 32 && t < 32
    ensures Bit(WithBit(w, s), t) == (t == s || Bit(w, t))
  {
  }

  lemma AllOnes(s: bv32)
    requires s < 32
    ensures Bit(0xFFFF_FFFF, s)
  {
  }

  lemma IdParts(id: nat, other: nat)
    ensures id / 32 == other / 32 && id % 32 == other % 32 ==> id == other
  {
  }

  /** Clearing the bit of one id takes that id, and no other, out of the free set. */
  lemma TakeId(words: seq<bv32>, id: nat)
    requires id < 32 * |words|
    ensures Free(words[id / 32 := WithoutBit(words[id / 32], Pos(id % 32))]) == Free(words) - {id}
  {
    var ws := words[id / 32 := WithoutBit(words[id / 32], Pos(id % 32))];
    forall x: nat | x < 32 * |words| ensures IsFree(ws, x) <==> IsFree(words, x) && x != id {
      PosRange(id % 32);
      PosRange(x % 32);
      IdParts(id, x);
      if x / 32 == id / 32 {
        ClearBits(words[id / 32], Pos(id % 32), Pos(x % 32));
        if x != id { PosDistinct(id % 32, x % 32); }
      }
    }
  }

  /** Setting the bit of one id puts that id, and no other, into the free set. */
  lemma GiveId(words: seq<bv32>, id: nat)
    requires id < 32 * |words|
    ensures Free(words[id / 32 := WithBit(words[id / 32], Pos(id % 32))]) == Free(words) + {id}
  {
    var ws := words[id / 32 := WithBit(words[id / 32], Pos(id % 32))];
    forall x: nat | x < 32 * |words| ensures IsFree(ws, x) <==> IsFree(words, x) || x == id {
      PosRange(id % 32);
      PosRange(x % 32);
      IdParts(id, x);
      if x / 32 == id / 32 {
        SetBits(words[id / 32], Pos(id % 32), Pos(x % 32));
        if x != id { PosDistinct(id % 32, x % 32); }
      }
    }
  }

  /** Words of ones: every id is free. */
  lemma AllFree(words: seq<bv32>)
    requires forall i :: 0 <= i < |words| ==> words[i] == 0xFFFF_FFFF
    ensures forall id :: 0 <= id < 32 * |words| ==> id in Free(words)
  {
    forall id | 0 <= id < 32 * |words| ensures IsFree(words, id) {
      PosRange(id % 32);
      AllOnes(Pos(id % 32));
    }
  }
}

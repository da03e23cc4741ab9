/**
 The two flag bits of each bucket, packed sixteen buckets to a 32-bit word.
 */
module BucketFlags {

  /** Bit 1 is "empty", bit 0 is "deleted". */
  datatype Flag = Live | Deleted | Empty | Both

  /** (i & 0xf) << 1, the position of bucket i's flags in its word. */
  function Shift(i: nat): (s: bv32) {
    match i % 16
    case 0 => 0 case 1 => 2 case 2 => 4 case 3 => 6
    case 4 => 8 case 5 => 10 case 6 => 12 case 7 => 14
    case 8 => 16 case 9 => 18 case 10 => 20 case 11 => 22
    case 12 => 24 case 13 => 26 case 14 => 28 case _ => 30
  }

  function Bits(w: bv32, s: bv32): bv32 {
    if s < 32 then (w >> s) & 3 else 0
  }

  function Decode(b: bv32): Flag {
    if b == 0 then Live else if b == 1 then Deleted else if b == 2 then Empty else Both
  }

  /** The flags of bucket i. */
  function FlagAt(words: seq<bv32>, i: nat): Flag
    requires i / 16 < |words|
  {
    Decode(Bits(words[i / 16], Shift(i)))
  }

  /** Sixteen buckets a word, two bits a bucket; __ac_isempty and __ac_isdel read the upper and the lower bit. */
  lemma FlagMeaning(words: seq<bv32>, i: nat)
    requires i / 16 < |words|
    ensures Shift(i) == 2 * (i % 16) as bv32
    ensures (words[i / 16] >> Shift(i)) & 2 != 0 <==> FlagAt(words, i) == Empty || FlagAt(words, i) == Both
    ensures (words[i / 16] >> Shift(i)) & 1 != 0 <==> FlagAt(words, i) == Deleted || FlagAt(words, i) == Both
  {
  }

  /** The packed words show exactly the flags fs. */
  ghost predicate Shows(words: seq<bv32>, fs: seq<Flag>) {
    && |fs| <= 16 * |words|
    && forall i: nat {:trigger FlagAt(words, i)} :: i < |fs| ==> FlagAt(words, i) == fs[i]
  }

  /** __ac_fsize: number of words for m buckets. */
  function FlagWords(m: nat): (w: nat)
    ensures w >= 1
  {
    if m < 16 then 1 else m / 16
  }

  lemma ShiftRange(i: nat)
    ensures Shift(i) <= 30 && Shift(i) & 1 == 0
  {
  }

  lemma ShiftDistinct(i: nat, j: nat)
    requires i / 16 == j / 16 && i != j
    ensures Shift(i) != Shift(j)
  {
    assert i % 16 != j % 16;
  }

  // The set macros on one word, for the bucket whose flags are at s.
  function WithDeleted(w: bv32, s: bv32): bv32 {
    if s < 32 then w | (1 << s) else w
  }

  function WithoutEmpty(w: bv32, s: bv32): bv32 {
    if s < 32 then w & !(2 << s) else w
  }

  function WithoutBoth(w: bv32, s: bv32): bv32 {
    if s < 32 then w & !(3 << s) else w
  }

  lemma DeletedOther(w: bv32, s: bv32, t: bv32)
    requires s <= 30 && t <= 30 && s & 1 == 0 && t & 1 == 0 && s != t
    ensures Bits(WithDeleted(w, s), t) == Bits(w, t)
  {
  }

  lemma DeletedSelf(w: bv32, s: bv32)
    requires s <= 30 && Bits(w, s) == 0
    ensures Bits(WithDeleted(w, s), s) == 1
  {
  }

  lemma EmptyOther(w: bv32, s: bv32, t: bv32)
    requires s <= 30 && t <= 30 && s & 1 == 0 && t & 1 == 0 && s != t
    ensures Bits(WithoutEmpty(w, s), t) == Bits(w, t)
  {
  }

  lemma EmptySelf(w: bv32, s: bv32)
    requires s <= 30 && Bits(w, s) == 2
    ensures Bits(WithoutEmpty(w, s), s) == 0
  {
  }

  lemma BothOther(w: bv32, s: bv32, t: bv32)
    requires s <= 30 && t <= 30 && s & 1 == 0 && t & 1 == 0 && s != t
    ensures Bits(WithoutBoth(w, s), t) == Bits(w, t)
  {
  }

  lemma BothSelf(w: bv32, s: bv32)
    requires s <= 30
    ensures Bits(WithoutBoth(w, s), s) == 0
  {
  }

  lemma AllEmptyBits(s: bv32)
    requires s <= 30 && s & 1 == 0
    ensures Bits(0xaaaa_aaaa, s) == 2
  {
  }

  /** Replacing one word changes one bucket when the word changes only at that bucket's bits. */
  lemma OneBucket(words: seq<bv32>, fs: seq<Flag>, i: nat, w: bv32, f: Flag)
    requires Shows(words, fs) && i < |fs|
    requires Decode(Bits(w, Shift(i))) == f
    requires forall j: nat :: j < |fs| && j / 16 == i / 16 && j != i ==>
      Bits(w, Shift(j)) == Bits(words[i / 16], Shift(j))
    ensures Shows(words[i / 16 := w], fs[i := f])
  {
    var ws := words[i / 16 := w];
    forall j: nat | j < |fs| ensures FlagAt(ws, j) == fs[i := f][j] {
      if j != i { assert FlagAt(words, j) == fs[j]; }
    }
  }

  /** __ac_set_isdel_true on a live bucket: it becomes deleted, and no other bucket changes. */
  method SetDeleted(words: array<bv32>, i: nat, ghost fs: seq<Flag>)
    requires Shows(words[..], fs) && i < |fs| && fs[i] == Live
    modifies words
    ensures Shows(words[..], fs[i := Deleted])
  {
    ghost var before := words[..];
    DeletedWord(before, fs, i);
    words[i / 16] := WithDeleted(words[i / 16], Shift(i));
    assert words[..] == before[i / 16 := WithDeleted(before[i / 16], Shift(i))];
  }

  lemma DeletedWord(words: seq<bv32>, fs: seq<Flag>, i: nat)
    requires Shows(words, fs) && i < |fs| && fs[i] == Live
    ensures Shows(words[i / 16 := WithDeleted(words[i / 16], Shift(i))], fs[i := Deleted])
  {
    var w, s := words[i / 16], Shift(i);
    forall j: nat | j < |fs| && j / 16 == i / 16 && j != i
      ensures Bits(WithDeleted(w, s), Shift(j)) == Bits(w, Shift(j))
    {
      ShiftRange(i); ShiftRange(j); ShiftDistinct(i, j);
      DeletedOther(w, s, Shift(j));
    }
    assert FlagAt(words, i) == Live;
    ShiftRange(i);
    DeletedSelf(w, s);
    OneBucket(words, fs, i, WithDeleted(w, s), Deleted);
  }

  /** __ac_set_isempty_false on an empty bucket: it becomes live, and no other bucket changes. */
  method SetOccupied(words: array<bv32>, i: nat, ghost fs: seq<Flag>)
    requires Shows(words[..], fs) && i < |fs| && fs[i] == Empty
    modifies words
    ensures Shows(words[..], fs[i := Live])
  {
    ghost var before := words[..];
    OccupiedWord(before, fs, i);
    words[i / 16] := WithoutEmpty(words[i / 16], Shift(i));
    assert words[..] == before[i / 16 := WithoutEmpty(before[i / 16], Shift(i))];
  }

  lemma OccupiedWord(words: seq<bv32>, fs: seq<Flag>, i: nat)
    requires Shows(words, fs) && i < |fs| && fs[i] == Empty
    ensures Shows(words[i / 16 := WithoutEmpty(words[i / 16], Shift(i))], fs[i := Live])
  {
    var w, s := words[i / 16], Shift(i);
    forall j: nat | j < |fs| && j / 16 == i / 16 && j != i
      ensures Bits(WithoutEmpty(w, s), Shift(j)) == Bits(w, Shift(j))
    {
      ShiftRange(i); ShiftRange(j); ShiftDistinct(i, j);
      EmptyOther(w, s, Shift(j));
    }
    assert FlagAt(words, i) == Empty;
    ShiftRange(i);
    EmptySelf(w, s);
    OneBucket(words, fs, i, WithoutEmpty(w, s), Live);
  }

  /** __ac_set_isboth_false: the bucket becomes live, whatever it was, and no other bucket changes. */
  method SetLive(words: array<bv32>, i: nat, ghost fs: seq<Flag>)
    requires Shows(words[..], fs) && i < |fs|
    modifies words
    ensures Shows(words[..], fs[i := Live])
  {
    ghost var before := words[..];
    LiveWord(before, fs, i);
    words[i / 16] := WithoutBoth(words[i / 16], Shift(i));
    assert words[..] == before[i / 16 := WithoutBoth(before[i / 16], Shift(i))];
  }

  lemma LiveWord(words: seq<bv32>, fs: seq<Flag>, i: nat)
    requires Shows(words, fs) && i < |fs|
    ensures Shows(words[i / 16 := WithoutBoth(words[i / 16], Shift(i))], fs[i := Live])
  {
    var w, s := words[i / 16], Shift(i);
    forall j: nat | j < |fs| && j / 16 == i / 16 && j != i
      ensures Bits(WithoutBoth(w, s), Shift(j)) == Bits(w, Shift(j))
    {
      ShiftRange(i); ShiftRange(j); ShiftDistinct(i, j);
      BothOther(w, s, Shift(j));
    }
    ShiftRange(i);
    BothSelf(w, s);
    OneBucket(words, fs, i, WithoutBoth(w, s), Live);
  }

  /** malloc plus memset(0xaa): every bucket of the new flag vector is empty. */
  method NewFlags(m: nat) returns (words: array<bv32>)
    requires m < 16 || m % 16 == 0
    ensures fresh(words) && words.Length == FlagWords(m)
    ensures Shows(words[..], seq(m, i => Empty))
  {
    words := new bv32[FlagWords(m)](i => 0xaaaa_aaaa);
    forall i: nat | i < m ensures FlagAt(words[..], i) == Empty {
      ShiftRange(i);
      AllEmptyBits(Shift(i));
    }
  }

  /** Reading the flags of one bucket. */
  method ReadFlag(words: array<bv32>, i: nat, ghost fs: seq<Flag>) returns (f: Flag)
    requires Shows(words[..], fs) && i < |fs|
    ensures f == fs[i]
  {
    var b := Bits(words[i / 16], Shift(i));
    f := Decode(b);
    assert FlagAt(words[..], i) == f;
  }
}

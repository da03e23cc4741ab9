/**
 Powers of two and the shift-or rounding trick, over unbounded naturals.

 Two parts of the code round a size up to a power of two by smearing the highest
 set bit downwards: `kroundup32` (32 bits) and the head of `hqueue_new` (64 bits).
 */
module Bits {
  import opened Words

  function Pow2(k: nat): (p: nat)
    ensures p >= 1
  {
    if k == 0 then 1 else 2 * Pow2(k - 1)
  }

  /** Bitwise or of two unsigned integers, bit by bit. */
  function BitOr(x: nat, y: nat): nat
    decreases x + y
  {
    if x == 0 then y
    else if y == 0 then x
    else 2 * BitOr(x / 2, y / 2) + (if x % 2 == 1 || y % 2 == 1 then 1 else 0)
  }

  /** x >> s */
  function Shr(x: nat, s: nat): nat {
    if s == 0 then x else Shr(x / 2, s - 1)
  }

  /** One line of the rounding macro: x |= x >> s. */
  function ShiftOr(x: nat, s: nat): nat {
    BitOr(x, Shr(x, s))
  }

  /** x is the least power of two that is >= c. */
  ghost predicate LeastPow2(c: nat, x: nat) {
    && (exists k: nat :: x == Pow2(k))
    && c <= x
    && forall k: nat :: c <= Pow2(k) ==> x <= Pow2(k)
  }

  lemma {:induction false} Pow2Add(a: nat, b: nat)
    ensures Pow2(a + b) == Pow2(a) * Pow2(b)
  {
    if a == 0 {
    } else {
      Pow2Add(a - 1, b);
      assert Pow2(a + b) == 2 * (Pow2(a - 1) * Pow2(b));
    }
  }

  lemma Pow2Double(k: nat)
    ensures Pow2(k + 1) == 2 * Pow2(k)
  {
  }

  lemma {:induction false} Pow2Mono(a: nat, b: nat)
    requires a <= b
    ensures Pow2(a) <= Pow2(b)
    ensures a < b ==> 2 * Pow2(a) <= Pow2(b)
    decreases b
  {
    if a < b {
      Pow2Mono(a, b - 1);
    }
  }

  lemma {:induction false} OrLow(x: nat, y: nat, k: nat)
    requires x < Pow2(k) && y < Pow2(k)
    ensures BitOr(x, y) < Pow2(k)
    decreases k
  {
    if x != 0 && y != 0 {
      assert k > 0;
      OrLow(x / 2, y / 2, k - 1);
    }
  }

  lemma {:induction false} OrAbove(x: nat, y: nat)
    ensures BitOr(x, y) >= x && BitOr(x, y) >= y
    decreases x + y
  {
    if x != 0 && y != 0 {
      OrAbove(x / 2, y / 2);
    }
  }

  lemma OrStep(x: nat, y: nat)
    ensures BitOr(x, y) == 2 * BitOr(x / 2, y / 2) + (if x % 2 == 1 || y % 2 == 1 then 1 else 0)
  {
    if x == 0 {
      assert BitOr(0, y / 2) == y / 2;
    } else if y == 0 {
      assert BitOr(x / 2, 0) == x / 2;
    }
  }

  /** Or-ing low bits into a number leaves its high bits alone. */
  lemma {:induction false} OrHigh(h: nat, lo: nat, y: nat, k: nat)
    requires lo < Pow2(k) && y < Pow2(k)
    ensures BitOr(h * Pow2(k) + lo, y) == h * Pow2(k) + BitOr(lo, y)
    decreases k
  {
    if k == 0 {
      assert lo == 0 && y == 0;
    } else {
      var q, b := h * Pow2(k - 1), if lo % 2 == 1 || y % 2 == 1 then 1 else 0;
      TwiceProduct(h, Pow2(k - 1));
      HalfEven(q, lo);
      calc {
        BitOr(2 * q + lo, y);
        { OrStep(2 * q + lo, y); }
        2 * BitOr(q + lo / 2, y / 2) + b;
        { OrHigh(h, lo / 2, y / 2, k - 1); }
        2 * (q + BitOr(lo / 2, y / 2)) + b;
        { OrStep(lo, y); }
        2 * q + BitOr(lo, y);
      }
    }
  }

  lemma TwiceProduct(h: nat, p: nat)
    ensures h * (2 * p) == 2 * (h * p)
  {
  }

  lemma HalfEven(q: nat, lo: nat)
    ensures (2 * q + lo) / 2 == q + lo / 2 && (2 * q + lo) % 2 == lo % 2
  {
  }

  /** The top m of x's l bits are all ones. */
  predicate TopOnes(x: nat, l: nat, m: nat)
    requires m <= l
  {
    Pow2(l) - Pow2(l - m) <= x < Pow2(l)
  }

  lemma MulMono(p: nat, a: nat, b: nat)
    requires a <= b
    ensures p * a <= p * b
  {
    assert p * b - p * a == p * (b - a);
  }

  lemma DivExact(a: nat, p: nat, x: nat)
    requires p > 0 && p * a <= x
    ensures a <= x / p
  {
    var q := x / p;
    assert x < p * (q + 1);
    if q < a {
      MulMono(p, q + 1, a);
      assert false;
    }
  }

  /** A shifted value lies between two bounds when the unshifted one lies between their multiples. */
  lemma {:induction false} ShrBounds(x: nat, s: nat, lo: nat, hi: nat)
    requires Pow2(s) * lo <= x < Pow2(s) * hi
    ensures lo <= Shr(x, s) < hi
    decreases s
  {
    if s > 0 {
      var p := Pow2(s - 1);
      assert Pow2(s) * lo == 2 * (p * lo) && Pow2(s) * hi == 2 * (p * hi);
      ShrBounds(x / 2, s - 1, lo, hi);
    }
  }

  lemma {:induction false} ShrLeq(x: nat, s: nat)
    ensures Shr(x, s) <= x
    decreases s
  {
    if s > 0 { ShrLeq(x / 2, s - 1); }
  }

  lemma Distribute(p: nat, a: nat, b: nat)
    requires b <= a
    ensures p * (a - b) == p * a - p * b
  {
  }

  /** The bits that one shift brings down. */
  lemma ShiftedOnes(x: nat, l: nat, m: nat)
    requires 1 <= m <= l && TopOnes(x, l, m)
    ensures Shr(x, m) < Pow2(l - m)
    ensures Shr(x, m) >= Pow2(l - m) - Pow2(l - Min(2 * m, l))
  {
    hide Pow2;
    var p, a, b := Pow2(m), Pow2(l - m), Pow2(l - Min(2 * m, l));
    Pow2Add(m, l - m);
    Pow2Mono(l - Min(2 * m, l), l - m);
    Distribute(p, a, b);
    assert p * b >= a by {
      if 2 * m <= l { Pow2Add(m, l - 2 * m); } else { Pow2Mono(l - m, m); MulMono(p, 1, b); }
    }
    ShrBounds(x, m, a - b, a);
  }

  /** One shift-or doubles the run of ones at the top. */
  lemma ShiftOrDoubles(x: nat, l: nat, m: nat)
    requires 1 <= m <= l && TopOnes(x, l, m)
    ensures TopOnes(ShiftOr(x, m), l, Min(2 * m, l))
  {
    hide Pow2, BitOr, Shr;
    var a, h := Pow2(l - m), Pow2(m) - 1;
    var lo, y := x - (Pow2(l) - a), Shr(x, m);
    ShiftedOnes(x, l, m);
    Pow2Add(m, l - m);
    assert h * a == Pow2(l) - a;
    OrHigh(h, lo, y, l - m);
    OrLow(lo, y, l - m);
    OrAbove(lo, y);
  }

  /** A number whose bits are all ones stays as it is. */
  lemma ShiftOrFull(x: nat, l: nat, s: nat)
    requires x + 1 == Pow2(l)
    ensures ShiftOr(x, s) == x
  {
    hide Pow2, BitOr, Shr;
    OrAbove(x, Shr(x, s));
    ShrLeq(x, s);
    OrLow(x, Shr(x, s), l);
  }

  /** Position just above the highest set bit. */
  lemma {:induction false} BitLength(x: nat) returns (l: nat)
    requires x > 0
    ensures l >= 1 && TopOnes(x, l, 1)
  {
    if x == 1 {
      l := 1;
    } else {
      l := BitLength(x / 2);
      l := l + 1;
    }
  }

  lemma BitLengthBound(x: nat, l: nat, w: nat)
    requires l >= 1 && TopOnes(x, l, 1) && x < Pow2(w)
    ensures l <= w
  {
    if w < l { Pow2Mono(w, l - 1); }
  }

  lemma PowLeast(k: nat, c: nat)
    requires k >= 1 && Pow2(k - 1) < c <= Pow2(k)
    ensures LeastPow2(c, Pow2(k))
  {
    forall j: nat | c <= Pow2(j) ensures Pow2(k) <= Pow2(j) {
      if j < k { Pow2Mono(j, k - 1); } else { Pow2Mono(k, j); }
    }
  }

  /** A value reached by smearing is all ones up to its highest bit: one more is the rounded size. */
  lemma SmearedIsLeast(c: nat, l: nat, x: nat)
    requires c >= 2 && l >= 1 && TopOnes(c - 1, l, 1) && TopOnes(x, l, l)
    ensures x + 1 == Pow2(l) && LeastPow2(c, x + 1)
  {
    assert Pow2(0) == 1;
    Pow2Double(l - 1);
    PowLeast(l, c);
  }

  lemma LeastPow2Unique(c: nat, x: nat, y: nat)
    requires LeastPow2(c, x) && LeastPow2(c, y)
    ensures x == y
  {
    var i: nat :| x == Pow2(i);
    var j: nat :| y == Pow2(j);
    assert c <= Pow2(i) && c <= Pow2(j);
  }

  lemma ShiftOrWithin(x: nat, l: nat, m: nat, s: nat)
    requires 1 <= m <= l && TopOnes(x, l, m) && (m == l || s == m)
    ensures TopOnes(ShiftOr(x, s), l, Min(2 * m, l))
  {
    if m == l {
      ShiftOrFull(x, l, s);
    } else {
      ShiftOrDoubles(x, l, m);
    }
  }

  /** What `kroundup32` computes on a 32-bit word, wrapping at 2^32. */
  function RoundUp32(x: nat): nat
    requires x < 0x1_0000_0000
  {
    var a := if x == 0 then 0xFFFF_FFFF else x - 1;
    var b := ShiftOr(a, 1);
    var c := ShiftOr(b, 2);
    var d := ShiftOr(c, 4);
    var e := ShiftOr(d, 8);
    var f := ShiftOr(e, 16);
    (f + 1) % 0x1_0000_0000
  }

  lemma Smear32(a: nat, l: nat)
    requires 1 <= l <= 32 && TopOnes(a, l, 1)
    ensures TopOnes(ShiftOr(ShiftOr(ShiftOr(ShiftOr(ShiftOr(a, 1), 2), 4), 8), 16), l, l)
  {
    var b, c, d, e := ShiftOr(a, 1), ShiftOr(ShiftOr(a, 1), 2), ShiftOr(ShiftOr(ShiftOr(a, 1), 2), 4),
                      ShiftOr(ShiftOr(ShiftOr(ShiftOr(a, 1), 2), 4), 8);
    ShiftOrWithin(a, l, 1, 1);
    ShiftOrWithin(b, l, Min(2, l), 2);
    ShiftOrWithin(c, l, Min(4, l), 4);
    ShiftOrWithin(d, l, Min(8, l), 8);
    ShiftOrWithin(e, l, Min(16, l), 16);
  }

  lemma Pow2Values()
    ensures Pow2(2) == 4 && Pow2(16) == 0x1_0000 && Pow2(31) == 0x8000_0000 && Pow2(32) == 0x1_0000_0000
    ensures Pow2(63) == 0x8000_0000_0000_0000 && Pow2(64) == 0x1_0000_0000_0000_0000
  {
    assert Pow2(4) == 16 && Pow2(8) == 256 by { Pow2Add(4, 4); }
    Pow2Add(8, 8);
    Pow2Add(16, 16);
    Pow2Add(32, 32);
    assert Pow2(32) == 2 * Pow2(31) && Pow2(64) == 2 * Pow2(63);
  }

  lemma RoundUp32One()
    ensures RoundUp32(1) == 1 && LeastPow2(1, 1)
  {
    ShrLeq(0, 1); ShrLeq(0, 2); ShrLeq(0, 4); ShrLeq(0, 8); ShrLeq(0, 16);
    assert Pow2(0) == 1;
  }

  lemma RoundUp32Smeared(x: nat, a: nat, l: nat)
    requires x < 0x1_0000_0000 && a == (if x == 0 then 0xFFFF_FFFF else x - 1)
    requires 1 <= l <= 32 && TopOnes(a, l, 1)
    ensures RoundUp32(x) == Pow2(l) % 0x1_0000_0000
  {
    Smear32(a, l);
  }

  /** The rounding macro is right exactly when the power of two fits the word; otherwise it yields 0. */
  lemma RoundUp32Least(x: nat)
    requires x < 0x1_0000_0000
    ensures 1 <= x <= 0x8000_0000 ==> LeastPow2(x, RoundUp32(x)) && RoundUp32(x) <= 0x8000_0000
    ensures x == 0 || x > 0x8000_0000 ==> RoundUp32(x) == 0
  {
    if x == 1 {
      RoundUp32One();
    } else {
      var l := RoundUp32Length(x);
      if 2 <= x <= 0x8000_0000 {
        assert Pow2(l) % 0x1_0000_0000 == Pow2(l);
      }
    }
  }

  lemma RoundUp32Length(x: nat) returns (l: nat)
    requires x != 1 && x < 0x1_0000_0000
    ensures RoundUp32(x) == Pow2(l) % 0x1_0000_0000
    ensures 2 <= x <= 0x8000_0000 ==> LeastPow2(x, Pow2(l)) && Pow2(l) <= 0x8000_0000
    ensures x == 0 || x > 0x8000_0000 ==> Pow2(l) == 0x1_0000_0000
  {
    var a := if x == 0 then 0xFFFF_FFFF else x - 1;
    l := BitLength(a);
    BitLengthBound(a, l, 32) by { Pow2Values(); }
    RoundUp32Smeared(x, a, l);
    RoundUp32Range(x, a, l);
  }

  lemma RoundUp32Range(x: nat, a: nat, l: nat)
    requires x != 1 && x < 0x1_0000_0000 && a == (if x == 0 then 0xFFFF_FFFF else x - 1)
    requires 1 <= l <= 32 && TopOnes(a, l, 1)
    ensures 2 <= x <= 0x8000_0000 ==> LeastPow2(x, Pow2(l)) && Pow2(l) <= 0x8000_0000
    ensures x == 0 || x > 0x8000_0000 ==> Pow2(l) == 0x1_0000_0000
  {
    Pow2Values();
    if 2 <= x <= 0x8000_0000 {
      BitLengthBound(a, l, 31);
      Pow2Mono(l, 31);
      SmearedIsLeast(x, l, Pow2(l) - 1);
    } else if l < 32 {
      Pow2Mono(l, 31);
    }
  }
}

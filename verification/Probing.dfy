/**
 The probe sequence of the hash table: i = (i + ++step) & mask.

 After t steps the offset from the home bucket is the triangular number t(t+1)/2.
 For a power-of-two table the first n offsets are a permutation of the buckets,
 and the offset first returns to zero at step 2n - 1.
 */
module Probing {
  import opened Words
  import opened Bits

  /** The t-th triangular number. */
  function Tri(t: nat): nat {
    t * (t + 1) / 2
  }

  /** The bucket looked at after t steps from hash h, in a table of n buckets. */
  function Probe(n: nat, h: nat, t: nat): (i: nat)
    requires n > 0
    ensures i < n
  {
    (h + Tri(t)) % n
  }

  ghost predicate IsPow2(n: nat) {
    exists k: nat :: n == Pow2(k)
  }

  /** One step of the source: the sum wraps at 32 bits and is then masked with n - 1. */
  function Advance(n: nat, i: nat, step: nat): (r: nat)
    requires n > 0
    ensures r < n
  {
    (i + step) % U32 % n
  }

  // ---------------------------------------------------------------- modular arithmetic

  lemma ModAdd(a: nat, b: nat, n: nat)
    requires n > 0
    ensures (a % n + b) % n == (a + b) % n
  {
    var q := a / n;
    assert a + b == n * q + (a % n + b);
    ModMultiple(q, a % n + b, n);
  }

  lemma ModMultiple(q: nat, r: nat, n: nat)
    requires n > 0
    ensures (n * q + r) % n == r % n
  {
    var k := r / n;
    assert n * q + r == n * (q + k) + r % n by { assert n * (q + k) == n * q + n * k; }
    ModUnique(n * q + r, q + k, r % n, n);
  }

  lemma ModUnique(x: nat, q: nat, r: nat, n: nat)
    requires n > 0 && r < n && x == n * q + r
    ensures x % n == r && x / n == q
  {
    var d := x / n - q;
    assert x == n * (x / n) + x % n;
    assert n * (x / n) - n * q == n * d;
    assert n * d == r - x % n;
    if d >= 1 { MulAtLeast(n, d); }
    if d <= -1 { MulAtLeast(n, -d); }
  }

  lemma MulAtLeast(n: nat, d: int)
    requires d >= 1
    ensures n * d >= n
  {
    assert n * d == n + n * (d - 1);
    assert n * (d - 1) >= 0;
  }

  /** Two numbers with one residue differ by a multiple of the modulus. */
  lemma SameResidue(a: nat, b: nat, n: nat) returns (m: nat)
    requires n > 0 && a <= b && a % n == b % n
    ensures b - a == n * m
  {
    m := b / n - a / n by { DivMono(a, b, n); }
    assert n * (b / n - a / n) == n * (b / n) - n * (a / n);
  }

  lemma DivMono(a: nat, b: nat, n: nat)
    requires n > 0 && a <= b
    ensures a / n <= b / n
  {
    MulMono(n, a / n, a / n);
    assert n * (a / n) <= b;
    DivExact(a / n, n, b);
  }

  lemma PowDivides(n: nat)
    requires IsPow2(n) && n <= 0x8000_0000
    ensures exists m: nat :: U32 == n * m
  {
    var k: nat :| n == Pow2(k);
    Pow2Values();
    if k > 31 { Pow2Mono(31, k); }
    Pow2Add(k, 32 - k);
    assert U32 == n * Pow2(32 - k);
  }

  /** The 32-bit wrap of i + step is invisible after masking, because n divides 2^32. */
  lemma AdvanceMasks(n: nat, i: nat, step: nat)
    requires IsPow2(n) && n <= 0x8000_0000
    ensures n > 0 && Advance(n, i, step) == (i + step) % n
  {
    PowDivides(n);
    var m: nat :| U32 == n * m;
    var x := i + step;
    var q := x / U32;
    assert x == U32 * q + x % U32;
    assert U32 * q == n * (m * q);
    ModMultiple(m * q, x % U32, n);
  }

  lemma TriStep(t: nat)
    ensures Tri(t + 1) == Tri(t) + t + 1
  {
    assert (t + 1) * (t + 2) == t * (t + 1) + 2 * (t + 1);
  }

  /** One step of the source moves from probe t to probe t + 1. */
  lemma ProbeStep(n: nat, h: nat, t: nat)
    requires IsPow2(n) && n <= 0x8000_0000
    ensures n > 0 && Advance(n, Probe(n, h, t), t + 1) == Probe(n, h, t + 1)
  {
    AdvanceMasks(n, Probe(n, h, t), t + 1);
    TriStep(t);
    ModAdd(h + Tri(t), t + 1, n);
  }

  lemma ProbeStart(n: nat, h: nat)
    requires n > 0
    ensures Probe(n, h, 0) == h % n
  {
  }

  // ---------------------------------------------------------------- permutation

  /** A power of two dividing a product with an odd factor divides the other factor. */
  lemma {:induction false} OddFactor(k: nat, x: nat, y: nat, m: nat) returns (z: nat)
    requires x % 2 == 1 && x * y == Pow2(k) * m
    ensures y == Pow2(k) * z
  {
    if k == 0 {
      z := y;
    } else {
      assert Pow2(k) * m == 2 * (Pow2(k - 1) * m);
      var p := Pow2(k - 1) * m;
      EvenFactor(x, y, p);
      assert x * y == 2 * (x * (y / 2));
      z := OddFactor(k - 1, x, y / 2, m);
      assert Pow2(k) * z == 2 * (Pow2(k - 1) * z);
    }
  }

  lemma EvenFactor(x: nat, y: nat, p: nat)
    requires x % 2 == 1 && x * y == 2 * p
    ensures y % 2 == 0
  {
    var a, b := x / 2, y / 2;
    assert (2 * a + 1) * y == 2 * (a * y) + y;
  }

  lemma NoSmallMultiple(p: nat, z: nat, v: nat)
    requires 0 < v < p
    ensures v != p * z
  {
    if z >= 1 { MulAtLeast(p, z); }
  }

  lemma TriDouble(t: nat)
    ensures 2 * Tri(t) == t * (t + 1)
  {
    if t % 2 == 0 {
      assert t * (t + 1) == 2 * ((t / 2) * (t + 1)) by { assert t == 2 * (t / 2); }
    } else {
      assert t * (t + 1) == 2 * (t * ((t + 1) / 2)) by { assert t + 1 == 2 * ((t + 1) / 2); }
    }
  }

  lemma TriDiff(a: nat, b: nat)
    requires a <= b
    ensures 2 * (Tri(b) - Tri(a)) == (b - a) * (b + a + 1)
  {
    TriDouble(a);
    TriDouble(b);
    assert (b - a) * (b + a + 1) == b * (b + 1) - a * (a + 1);
  }

  /** (b - a)(b + a + 1) is no multiple of 2^(k+1) when both factors are smaller: one of them is odd. */
  lemma ProductNotMultiple(k: nat, x: nat, y: nat, m: nat)
    requires 0 < x < Pow2(k) && 0 < y < Pow2(k) && (x + y) % 2 == 1
    ensures x * y != Pow2(k) * m
  {
    if x * y == Pow2(k) * m {
      if x % 2 == 1 {
        var z := OddFactor(k, x, y, m);
        NoSmallMultiple(Pow2(k), z, y);
      } else {
        assert y * x == x * y;
        var z := OddFactor(k, y, x, m);
        NoSmallMultiple(Pow2(k), z, x);
      }
    }
  }

  /** Two probes that hit one bucket differ by a multiple of n, which the factors below rule out. */
  lemma SameProbe(n: nat, h: nat, a: nat, b: nat) returns (m: nat)
    requires n > 0 && a <= b && Probe(n, h, a) == Probe(n, h, b)
    ensures (b - a) * (b + a + 1) == (2 * n) * m
  {
    TriDiff(a, b);
    assert Tri(a) <= Tri(b) by { MulNonNegative(b - a, b + a + 1); }
    hide Tri;
    m := SameResidue(h + Tri(a), h + Tri(b), n);
    TwiceMul(n, m);
  }

  lemma MulNonNegative(x: nat, y: nat)
    ensures x * y >= 0
  {
  }

  lemma TwiceMul(n: nat, m: nat)
    ensures 2 * (n * m) == (2 * n) * m
  {
  }

  lemma ProbesDistinct(n: nat, h: nat, a: nat, b: nat)
    requires IsPow2(n) && a < b < n
    ensures Probe(n, h, a) != Probe(n, h, b)
  {
    hide Probe;
    if Probe(n, h, a) == Probe(n, h, b) {
      var m := SameProbe(n, h, a, b);
      var k: nat :| n == Pow2(k);
      Pow2Double(k);
      hide Pow2;
      ProductNotMultiple(k + 1, b - a, b + a + 1, m);
    }
  }

  /** Buckets seen in the first t probes. */
  ghost function Seen(n: nat, h: nat, t: nat): (s: set<nat>)
    requires n > 0
  {
    set u | 0 <= u < t :: Probe(n, h, u)
  }

  lemma {:induction false} SeenCount(n: nat, h: nat, t: nat)
    requires IsPow2(n) && t <= n
    ensures n > 0 && |Seen(n, h, t)| == t
  {
    if t > 0 {
      SeenCount(n, h, t - 1);
      var i := Probe(n, h, t - 1);
      assert i !in Seen(n, h, t - 1) by {
        if i in Seen(n, h, t - 1) {
          var u :| 0 <= u < t - 1 && Probe(n, h, u) == i;
          ProbesDistinct(n, h, u, t - 1);
        }
      }
      assert Seen(n, h, t) == Seen(n, h, t - 1) + {i};
    }
  }

  ghost function Below(n: nat): (s: set<nat>)
    ensures forall i: nat :: i in s <==> i < n
  {
    if n == 0 then {} else Below(n - 1) + {n - 1}
  }

  lemma {:induction false} BelowCount(n: nat)
    ensures |Below(n)| == n
  {
    if n > 0 {
      BelowCount(n - 1);
      assert Below(n) == Below(n - 1) + {n - 1};
    }
  }

  lemma FullSubset(s: set<nat>, n: nat)
    requires |s| == n && forall i :: i in s ==> i < n
    ensures forall i: nat :: i < n ==> i in s
  {
    BelowCount(n);
    assert s <= Below(n);
    if i: nat :| i < n && i !in s {
      assert |s + {i}| == n + 1;
      SubsetSize(s + {i}, Below(n));
    }
  }

  lemma {:induction false} SubsetSize<T>(a: set<T>, b: set<T>)
    requires a <= b
    ensures |a| <= |b|
  {
    assert b == a + (b - a);
  }

  /** Every bucket is probed at exactly one of the steps 0 .. n-1. */
  lemma ProbePermutation(n: nat, h: nat, i: nat)
    requires IsPow2(n) && i < n
    ensures exists t: nat :: t < n && Probe(n, h, t) == i
    ensures forall t: nat, u: nat :: t < n && u < n && Probe(n, h, t) == i && Probe(n, h, u) == i ==> t == u
  {
    SeenCount(n, h, n);
    FullSubset(Seen(n, h, n), n);
    assert i in Seen(n, h, n);
    forall t: nat, u: nat | t < n && u < n && Probe(n, h, t) == i && Probe(n, h, u) == i ensures t == u {
      if t < u { ProbesDistinct(n, h, t, u); }
      if u < t { ProbesDistinct(n, h, u, t); }
    }
  }

  /** The step at which bucket i is first probed. */
  lemma ProbeStepOf(n: nat, h: nat, i: nat) returns (t: nat)
    requires IsPow2(n) && i < n
    ensures t < n && Probe(n, h, t) == i
  {
    ProbePermutation(n, h, i);
    t :| t < n && Probe(n, h, t) == i;
  }

  lemma ReturnsAtEnd(n: nat, h: nat)
    requires n > 0
    ensures Probe(n, h, 2 * n - 1) == Probe(n, h, 0)
  {
    var t := 2 * n - 1;
    TriDouble(t);
    assert t * (t + 1) == 2 * (n * t);
    assert Tri(t) == n * t;
    ModMultiple(t, h, n);
    assert Tri(0) == 0;
  }

  /** The probe sequence comes back to its home bucket for the first time at step 2n - 1. */
  lemma FirstReturn(n: nat, h: nat, t: nat)
    requires IsPow2(n) && 0 < t <= 2 * n - 1
    ensures Probe(n, h, t) == Probe(n, h, 0) <==> t == 2 * n - 1
  {
    hide Probe;
    ReturnsAtEnd(n, h);
    if t != 2 * n - 1 && Probe(n, h, t) == Probe(n, h, 0) {
      var m := SameProbe(n, h, 0, t);
      var k: nat :| n == Pow2(k);
      Pow2Double(k);
      hide Pow2;
      ProductNotMultiple(k + 1, t, t + 1, m);
    }
  }
}

/**
 The open-addressing hash table of khash.h, for an arbitrary hash function.

 Arrays that C code has not allocated yet (NULL) are arrays of length 0. Whether
 an allocation succeeds is an input of the call.
 */
module HashTable {
  import opened Words
  import opened Bits
  import opened Probing
  import opened BucketFlags
  import opened TableLayout
  import opened Rehash

  const MAX_BUCKETS: nat := 0x8000_0000

  /** Which of the allocations inside one call succeed. */
  datatype Allocation = Allocation(flags: bool, keys: bool, vals: bool)

  /** The bucket count that `kh_resize` works with. */
  function ResizeTarget(request: nat): (n: nat)
    requires request < U32
  {
    var r := RoundUp32(request);
    if r < 4 then 4 else r
  }

  lemma PowerOf(request: nat) returns (k: nat)
    requires request < U32
    ensures 2 <= k <= 31 && ResizeTarget(request) == Pow2(k)
    ensures request <= MAX_BUCKETS ==> request <= Pow2(k)
  {
    RoundUp32Least(request);
    Pow2Values();
    if RoundUp32(request) < 4 {
      k := 2;
    } else {
      k :| RoundUp32(request) == Pow2(k);
      if k > 31 { Pow2Mono(32, k); }
      if k < 2 { Pow2Mono(k, 1); }
    }
  }

  lemma Pow2Multiple16(k: nat)
    ensures Pow2(k) < 16 || Pow2(k) % 16 == 0
  {
    assert Pow2(4) == 16;
    if k >= 4 { Pow2Add(4, k - 4); }
    else { Pow2Mono(k, 3); }
  }

  /** Every request leads to a power of two between 4 and 2^31. */
  lemma ResizeTargetIsPow2(request: nat)
    requires request < U32
    ensures IsPow2(ResizeTarget(request)) && 4 <= ResizeTarget(request) <= MAX_BUCKETS
    ensures request <= MAX_BUCKETS ==> request <= ResizeTarget(request)
    ensures ResizeTarget(request) < 16 || ResizeTarget(request) % 16 == 0
  {
    var k := PowerOf(request);
    Pow2Values();
    Pow2Mono(2, k);
    Pow2Mono(k, 31);
    Pow2Multiple16(k);
  }

  /** The target is the least power of two that is at least the request and at least 4; a request above 2^31 is lost. */
  lemma ResizeTargetExactly(request: nat)
    requires request < U32
    ensures request <= 4 || request > 0x8000_0000 ==> ResizeTarget(request) == 4
    ensures 4 < request <= 0x8000_0000 ==> LeastPow2(request, ResizeTarget(request))
  {
    RoundUp32Least(request);
    Pow2Values();
    if 1 <= request <= 4 { assert RoundUp32(request) <= Pow2(2); }
  }

  /** The two requests made by `kh_put`: the same size again, or twice the size. */
  lemma PutTargets(n: nat)
    requires n == 0 || (IsPow2(n) && 4 <= n <= MAX_BUCKETS)
    ensures n >= 4 ==> ResizeTarget(n - 1) == n
    ensures n < MAX_BUCKETS ==> ResizeTarget(n + 1) == if n == 0 then 4 else 2 * n
  {
    if n == 0 {
      RoundUp32One();
    } else {
      SameTarget(n);
      if n < MAX_BUCKETS { DoubleTarget(n); }
    }
  }

  lemma SameTarget(n: nat)
    requires IsPow2(n) && 4 <= n <= MAX_BUCKETS
    ensures ResizeTarget(n - 1) == n
  {
    var k: nat :| n == Pow2(k);
    RoundsTo(k, n - 1);
  }

  lemma DoubleTarget(n: nat)
    requires IsPow2(n) && 4 <= n < MAX_BUCKETS
    ensures ResizeTarget(n + 1) == 2 * n
  {
    var k: nat :| n == Pow2(k);
    assert n + 1 <= MAX_BUCKETS;
    RoundsTo(k + 1, n + 1);
  }

  lemma RoundsTo(k: nat, c: nat)
    requires k >= 1 && Pow2(k - 1) < c <= Pow2(k) && c <= MAX_BUCKETS
    ensures RoundUp32(c) == Pow2(k)
  {
    RoundUp32Least(c);
    PowLeast(k, c);
    LeastPow2Unique(c, RoundUp32(c), Pow2(k));
  }

  // ---------------------------------------------------------------- probe loops on arrays

  /** The request of kh_put while doubling the size does not wrap. */
  function PlainRequest(n: nat, size: nat): (request: nat) {
    if n > 2 * size then n - 1 else n + 1
  }

  /** Doubling wraps at 32 bits for the largest size only. */
  lemma Doubling(size: nat)
    ensures size < MAX_BUCKETS ==> (2 * size) % U32 == 2 * size
    ensures (2 * MAX_BUCKETS) % U32 == 0
  {
  }

  lemma PlainRequestHelps(n: nat, size: nat)
    requires n == 0 || (IsPow2(n) && 4 <= n <= MAX_BUCKETS)
    requires size <= n && (n > 2 * size || n < MAX_BUCKETS)
    ensures PlainRequest(n, size) < U32
    ensures var target := ResizeTarget(PlainRequest(n, size));
      && target == (if n > 2 * size then n else if n == 0 then 4 else 2 * n)
      && size < UpperBound(target) && n <= target <= MAX_BUCKETS && target >= 4
  {
    hide ResizeTarget;
    PutTargets(n);
    if n > 0 { UpperBoundBelow(n); }
    if n > 0 && n <= 2 * size {
      ResizeTargetIsPow2(n + 1);
      UpperBoundBelow(2 * n);
    }
  }

  /** At the largest size the request for one bucket more is lost. */
  lemma LargestTarget()
    ensures ResizeTarget(MAX_BUCKETS + 1) == 4 && UpperBound(4) == 3
    ensures ResizeTarget(MAX_BUCKETS - 1) == MAX_BUCKETS && UpperBound(MAX_BUCKETS) < MAX_BUCKETS
  {
    RoundUp32Least(MAX_BUCKETS + 1);
    Pow2Values();
    SameTarget(MAX_BUCKETS);
  }

  /** The first empty bucket on the path of h. */
  method FindEmpty(words: array<bv32>, h: nat, ghost fs: seq<Flag>, n: nat) returns (i: nat, ghost d: nat)
    requires Shows(words[..], fs) && |fs| == n && IsPow2(n) && n <= MAX_BUCKETS
    requires exists x :: 0 <= x < n && fs[x] == Empty
    ensures i < n && fs[i] == Empty
    ensures d < n && Probe(n, h, d) == i && PathOccupied(fs, h, d)
  {
    hide IsPow2, Shows, Probe, PathOccupied, FlagAt;
    ProbeStart(n, h);
    PathStart(fs, h);
    var step := 0;
    i := h % n;
    var f := ReadFlag(words, i, fs);
    while f != Empty
      invariant i == Probe(n, h, step) && f == fs[i] && PathOccupied(fs, h, step) && step < n
      decreases n - step
    {
      PathStep(fs, h, step);
      step := step + 1;
      if step == n { PathCovers(fs, h, step); }
      ProbeStep(n, h, step - 1);
      i := Advance(n, i, step);
      f := ReadFlag(words, i, fs);
    }
    d := step;
  }

  lemma PathStart(fs: seq<Flag>, h: nat)
    requires |fs| > 0
    ensures PathOccupied(fs, h, 0)
  {
  }

  lemma PathStep(fs: seq<Flag>, h: nat, t: nat)
    requires |fs| > 0 && PathOccupied(fs, h, t) && fs[Probe(|fs|, h, t)] != Empty
    ensures PathOccupied(fs, h, t + 1)
  {
  }

  ghost predicate Apart<K, V>(flags: array<bv32>, newFlags: array<bv32>, keys: array<K>, vals: array<V>) {
    && flags != newFlags
    && flags as object != keys && flags as object != vals
    && newFlags as object != keys && newFlags as object != vals
    && keys as object != vals
  }

  /** One moment of the rehash, on the arrays themselves. */
  ghost predicate Moment<K, V>(hash: K -> nat, flags: array<bv32>, newFlags: array<bv32>, keys: array<K>,
                               vals: array<V>,
                               m: map<K, V>, s: Snapshot<K>, carried: Carried<K>)
    reads flags, newFlags, keys, vals
  {
    && Shows(flags[..], s.old_) && Shows(newFlags[..], s.new_)
    && Partition(s.old_, s.new_, keys[..], vals[..], m, s.loc, carried)
    && PlacedReachable(s.new_, keys[..], hash, m, s.dist)
  }

  /** Flags of both layouts and the whereabouts of every key. */
  datatype Snapshot<K> = Snapshot(old_: seq<Flag>, new_: seq<Flag>, loc: map<K, int>, dist: map<K, nat>)

  ghost predicate Shrinks(before: seq<Flag>, after: seq<Flag>) {
    |after| == |before| && forall i :: IsLive(after, i) ==> IsLive(before, i)
  }

  /**
   The kick-out chain that starts at old bucket j: it ends, because each kick
   leaves one old bucket fewer, and it empties bucket j.
   */
  method MoveChain<K(==), V>(hash: K -> nat, flags: array<bv32>, nOld: nat, newFlags: array<bv32>, newN: nat,
                             keys: array<K>, vals: array<V>, j: nat, ghost m: map<K, V>, ghost s0: Snapshot<K>)
    returns (ghost s: Snapshot<K>)
    requires Apart(flags, newFlags, keys, vals)
    requires Moment(hash, flags, newFlags, keys, vals, m, s0, Nothing)
    requires |s0.old_| == nOld && |s0.new_| == newN && IsPow2(newN) && |m| < newN <= MAX_BUCKETS
    requires IsLive(s0.old_, j)
    modifies flags, newFlags, keys, vals
    ensures Moment(hash, flags, newFlags, keys, vals, m, s, Nothing)
    ensures |s.new_| == newN && Shrinks(s0.old_, s.old_) && !IsLive(s.old_, j)
  {
    var key := keys[j];
    var val := vals[j];
    PickUp(s0.old_, s0.new_, keys[..], vals[..], m, s0.loc, j);
    s := s0.(old_ := s0.old_[j := Deleted], loc := s0.loc[key := -1]);
    SetDeleted(flags, j, s0.old_);
    var done := false;
    while !done
      invariant Moment(hash, flags, newFlags, keys, vals, m, s, if done then Nothing else Carrying(key))
      invariant !done ==> key in m && val == m[key]
      invariant |s.new_| == newN && Shrinks(s0.old_, s.old_) && !IsLive(s.old_, j)
      decreases !done, CountLive(s.old_)
    {
      done, key, val, s := MoveOne(hash, flags, nOld, newFlags, newN, keys, vals, m, s, key, val);
    }
  }

  /** One turn of the kick-out loop: place the carried pair, and perhaps pick up the one that was there. */
  method MoveOne<K(==), V>(hash: K -> nat, flags: array<bv32>, nOld: nat, newFlags: array<bv32>, newN: nat,
                           keys: array<K>, vals: array<V>, ghost m: map<K, V>, ghost s0: Snapshot<K>, key: K, val: V)
    returns (done: bool, key': K, val': V, ghost s: Snapshot<K>)
    requires Apart(flags, newFlags, keys, vals)
    requires Moment(hash, flags, newFlags, keys, vals, m, s0, Carrying(key))
    requires key in m && val == m[key]
    requires |s0.old_| == nOld && |s0.new_| == newN && IsPow2(newN) && |m| < newN <= MAX_BUCKETS
    modifies flags, newFlags, keys, vals
    ensures Moment(hash, flags, newFlags, keys, vals, m, s, if done then Nothing else Carrying(key'))
    ensures !done ==> key' in m && val' == m[key'] && CountLive(s.old_) < CountLive(s0.old_)
    ensures |s.new_| == newN && Shrinks(s0.old_, s.old_)
  {
    hide Partition, PlacedReachable, PathOccupied, Probe, CountLive;
    ghost var ks, vs := keys[..], vals[..];
    CarriedNotPlaced(s0.old_, s0.new_, ks, vs, m, s0.loc, key);
    NewHasEmpty(s0.old_, s0.new_, ks, vs, m, s0.loc, Carrying(key));
    ghost var d;
    var i;
    i, d := FindEmpty(newFlags, hash(key), s0.new_, newN);
    PlacedStays(s0.new_, ks, hash, m, s0.dist, key, i, d);
    SetOccupied(newFlags, i, s0.new_);
    s := s0.(new_ := s0.new_[i := Live], dist := s0.dist[key := d]);
    var f := Empty;
    if i < nOld { f := ReadFlag(flags, i, s0.old_); }
    if f == Live {
      KickOut(s0.old_, s0.new_, ks, vs, m, s0.loc, key, i);
      CountLiveUpdate(s0.old_, i, Deleted);
      s := s.(old_ := s0.old_[i := Deleted], loc := s0.loc[key := i][keys[i] := -1]);
      SetDeleted(flags, i, s0.old_);
      done, key', val' := false, keys[i], vals[i];
    } else {
      Place(s0.old_, s0.new_, ks, vs, m, s0.loc, key, i);
      s := s.(loc := s0.loc[key := i]);
      done, key', val' := true, key, val;
    }
    keys[i] := key;
    vals[i] := val;
    assert keys[..] == ks[i := key] && vals[..] == vs[i := val];
  }

  /** The new layout alone holds the whole map, with no tombstone. */
  ghost predicate Rehashed<K, V>(hash: K -> nat, newFlags: array<bv32>, keys: array<K>, vals: array<V>, m: map<K, V>,
                                 s: Snapshot<K>)
    reads newFlags, keys, vals
  {
    && Shows(newFlags[..], s.new_) && |s.new_| <= keys.Length && |s.new_| <= vals.Length
    && Holds(s.new_, keys[..], vals[..], m, s.loc) && Reachable(s.new_, hash, s.loc, s.dist)
    && CountOccupied(s.new_) == |m| && forall i :: 0 <= i < |s.new_| ==> s.new_[i] == Live || s.new_[i] == Empty
  }

  /** The outer rehash loop: every pair ends up in the new layout. */
  method RehashAll<K(==), V>(hash: K -> nat, flags: array<bv32>, nOld: nat, newFlags: array<bv32>, newN: nat,
                             keys: array<K>, vals: array<V>, ghost m: map<K, V>, ghost s0: Snapshot<K>)
    returns (ghost s: Snapshot<K>)
    requires Apart(flags, newFlags, keys, vals)
    requires Moment(hash, flags, newFlags, keys, vals, m, s0, Nothing)
    requires |s0.old_| == nOld && |s0.new_| == newN && IsPow2(newN) && |m| < newN <= MAX_BUCKETS
    modifies flags, newFlags, keys, vals
    ensures Rehashed(hash, newFlags, keys, vals, m, s) && |s.new_| == newN
  {
    hide Moment, Rehashed;
    s := s0;
    var j := 0;
    while j != nOld
      invariant j <= nOld
      invariant Moment(hash, flags, newFlags, keys, vals, m, s, Nothing)
      invariant |s.old_| == nOld && |s.new_| == newN
      invariant forall i :: 0 <= i < j ==> !IsLive(s.old_, i)
    {
      var f := ReadOldFlag(hash, flags, newFlags, keys, vals, m, s, j);
      if f == Live {
        s := MoveChain(hash, flags, nOld, newFlags, newN, keys, vals, j, m, s);
      }
      j := j + 1;
    }
    FinishMoment(hash, flags, newFlags, keys, vals, m, s);
  }

  method ReadOldFlag<K, V>(ghost hash: K -> nat, flags: array<bv32>, ghost newFlags: array<bv32>,
                           ghost keys: array<K>, ghost vals: array<V>, ghost m: map<K, V>, ghost s: Snapshot<K>, j: nat)
    returns (f: Flag)
    requires Moment(hash, flags, newFlags, keys, vals, m, s, Nothing) && j < |s.old_|
    ensures f == s.old_[j]
  {
    f := ReadFlag(flags, j, s.old_);
  }

  lemma FinishMoment<K, V>(hash: K -> nat, flags: array<bv32>, newFlags: array<bv32>, keys: array<K>, vals: array<V>,
                           m: map<K, V>, s: Snapshot<K>)
    requires Moment(hash, flags, newFlags, keys, vals, m, s, Nothing)
    requires forall i :: 0 <= i < |s.old_| ==> !IsLive(s.old_, i)
    ensures Rehashed(hash, newFlags, keys, vals, m, s)
  {
    Finish(s.old_, s.new_, keys[..], vals[..], m, s.loc, s.dist, hash);
  }

  // ---------------------------------------------------------------- the table

  /** The copy made by realloc. */
  method CopyPrefix<T>(src: array<T>, dst: array<T>, n: nat)
    requires n <= src.Length && n <= dst.Length && src != dst
    modifies dst
    ensures dst[..n] == src[..n]
  {
    for i := 0 to n
      invariant dst[..i] == src[..i]
    {
      dst[i] := src[i];
    }
  }

  lemma SizeWithout<K, V>(m: map<K, V>, k: K)
    requires k in m
    ensures |m - {k}| == |m| - 1
  {
    assert (m - {k}).Keys == m.Keys - {k};
  }

  lemma SizeWith<K, V>(m: map<K, V>, k: K, v: V)
    ensures |m[k := v]| == if k in m then |m| else |m| + 1
  {
    assert m[k := v].Keys == m.Keys + {k};
  }

  class Table<K(==, 0), V(0)> {
    const hash: K -> nat
    var nBuckets: nat
    var size: nat
    var nOccupied: nat
    var upperBound: nat
    var flags: array<bv32>
    var keys: array<K>
    var vals: array<V>
    ghost var contents: map<K, V>    // the finite map the table stands for
    ghost var fs: seq<Flag>          // flags, bucket by bucket
    ghost var loc: map<K, int>       // bucket of each key
    ghost var dist: map<K, nat>      // probe step of each key

    ghost function Repr(): set<object>
      reads this
    {
      {this, flags, keys, vals}
    }

    /** The buckets stand for `contents`, and every key can be found. */
    ghost predicate Layout()
      reads this, flags, keys, vals
    {
      && flags as object != keys && flags as object != vals && keys as object != vals
      && nBuckets == |fs| && (nBuckets == 0 || (IsPow2(nBuckets) && 4 <= nBuckets <= MAX_BUCKETS))
      && nBuckets <= keys.Length && nBuckets <= vals.Length && Shows(flags[..], fs)
      && Holds(fs, keys[..], vals[..], contents, loc) && Reachable(fs, hash, loc, dist)
      && forall i :: 0 <= i < nBuckets ==> fs[i] != Both
    }

    /** The counters are right, and below 2^31 buckets there is always an empty bucket. */
    ghost predicate Load()
      reads this
    {
      && size == |contents| && nOccupied == CountOccupied(fs) && size <= nOccupied
      && (nOccupied <= upperBound || nBuckets == MAX_BUCKETS)
      && upperBound == (if nBuckets == 0 then 0 else UpperBound(nBuckets))
    }

    ghost predicate Valid()
      reads this, flags, keys, vals
    {
      Layout() && Load()
    }

    /** kh_init */
    constructor (hash: K -> nat)
      ensures Valid() && NoTombstones() && contents == map[] && nBuckets == 0 && nOccupied == size == 0
      ensures this.hash == hash && fresh(Repr())
    {
      this.hash := hash;
      nBuckets, size, nOccupied, upperBound := 0, 0, 0, 0;
      flags := new bv32[0];
      keys := new K[0];
      vals := new V[0];
      contents, fs, loc, dist := map[], [], map[], map[];
    }

    /** The load bound keeps at least one bucket empty; only a table of the largest size can be without one. */
    lemma ValidHasEmpty()
      requires Valid() && nBuckets > 0
      ensures nBuckets < MAX_BUCKETS || nOccupied <= upperBound ==> nOccupied < nBuckets
      ensures nOccupied < nBuckets ==> exists i :: 0 <= i < nBuckets && fs[i] == Empty
    {
      UpperBoundBelow(nBuckets);
      if nOccupied < nBuckets { EmptyExists(fs); }
    }

    /** All buckets are live exactly when there are as many keys as buckets. */
    lemma FullWhen()
      requires Valid()
      ensures size <= nBuckets
      ensures size == nBuckets <==> forall b :: 0 <= b < nBuckets ==> fs[b] == Live
    {
      LiveCountIsSize(fs, keys[..], vals[..], contents, loc);
      AllLiveCount(fs);
    }

    /** kh_get: the bucket of the key, or n_buckets when the key is absent. */
    method Get(key: K) returns (x: nat)
      requires Layout()
      ensures key in contents ==> x == loc[key] && x < nBuckets && IsLive(fs, x) && keys[x] == key
      ensures key !in contents ==> x == nBuckets
    {
      hide Holds, Reachable, Shows, Skipped, Probe, Tri;
      if nBuckets == 0 { NoBuckets(); return 0; }
      var h: nat := hash(key);
      var step: nat, i: nat := 0, h % nBuckets;
      SearchStart(key, h);
      var last := i;
      var f := ReadFlag(flags, i, fs);
      while f != Empty && (f == Deleted || keys[i] != key)
        invariant i == Probe(nBuckets, h, step) && f == fs[i] && step < 2 * nBuckets - 1
        invariant Skipped(fs, keys[..], h, key, step)
        decreases 2 * nBuckets - step
      {
        SkipOne(fs, keys[..], h, key, step);
        step := step + 1;
        ProbeStep(nBuckets, h, step - 1);
        i := Advance(nBuckets, i, step);
        FirstReturn(nBuckets, h, step);
        if i == last {
          SkippedMeansAbsent(fs, keys[..], vals[..], contents, loc, dist, hash, key, step);
          return nBuckets;
        }
        f := ReadFlag(flags, i, fs);
      }
      if f != Live {
        SkippedMeansAbsent(fs, keys[..], vals[..], contents, loc, dist, hash, key, step);
        return nBuckets;
      }
      LiveIsLocated(i);
      return i;
    }

    lemma NoBuckets()
      requires Layout() && nBuckets == 0
      ensures contents == map[]
    {
      if contents != map[] { var k :| k in contents; }
    }

    lemma SearchStart(key: K, h: nat)
      requires Layout() && nBuckets > 0
      ensures Probe(nBuckets, h, 0) == h % nBuckets && Skipped(fs, keys[..], h, key, 0)
    {
    }

    lemma LiveIsLocated(i: nat)
      requires Layout() && i < nBuckets && fs[i] == Live
      ensures keys[i] in contents && loc[keys[i]] == i && vals[i] == contents[keys[i]]
    {
    }

    /**
     The search of kh_put. A tombstone on the path is preferred to the empty bucket
     that ends it. In a table without any free bucket the search for an absent key
     ends at its home bucket, which belongs to another key.
     */
    method FindSlot(key: K) returns (x: nat, ghost d: nat)
      requires Layout() && nBuckets > 0
      ensures x < nBuckets
      ensures key in contents ==> x == loc[key]
      ensures key !in contents && (exists b :: 0 <= b < nBuckets && fs[b] != Live) ==> FreeAt(fs, hash(key), x, d)
      ensures key !in contents && (forall b :: 0 <= b < nBuckets ==> fs[b] == Live) ==> x == hash(key) % nBuckets
    {
      hide Holds, Reachable, Shows, Skipped, Probe, Tri, SiteSeen, FreeAt;
      var h: nat := hash(key);
      var site: nat, step: nat, i: nat := nBuckets, 0, h % nBuckets;
      ghost var siteStep: nat := 0;
      SearchStart(key, h);
      x, d := nBuckets, 0;
      var f := ReadFlag(flags, i, fs);
      NoSiteYet(key, site);
      if f == Empty {
        SkippedMeansAbsent(fs, keys[..], vals[..], contents, loc, dist, hash, key, 0);
        EndIsFree(key, i, 0, 0);
        return i, 0;
      }
      var last := i;
      while f != Empty && (f == Deleted || keys[i] != key)
        invariant i == Probe(nBuckets, h, step) && f == fs[i] && step < 2 * nBuckets - 1
        invariant Skipped(fs, keys[..], h, key, step)
        invariant SiteSeen(key, site, siteStep, step)
        decreases 2 * nBuckets - step
      {
        SkipOne(fs, keys[..], h, key, step);
        SiteStep(key, site, siteStep, step);
        if f == Deleted { site, siteStep := i, step; }
        step := step + 1;
        ProbeStep(nBuckets, h, step - 1);
        i := Advance(nBuckets, i, step);
        FirstReturn(nBuckets, h, step);
        if i == last {
          SkippedMeansAbsent(fs, keys[..], vals[..], contents, loc, dist, hash, key, step);
          if site == nBuckets {
            AllLive(key, siteStep, step);
            return i, 0;
          }
          d := SiteIsFree(key, site, siteStep, step);
          return site, d;
        }
        f := ReadFlag(flags, i, fs);
      }
      if f == Empty {
        SkippedMeansAbsent(fs, keys[..], vals[..], contents, loc, dist, hash, key, step);
        if site != nBuckets {
          d := SiteIsFree(key, site, siteStep, step);
          return site, d;
        }
        EndIsFree(key, i, siteStep, step);
        return i, step;
      }
      LiveIsLocated(i);
      return i, 0;
    }

    lemma NoSiteYet(key: K, site: nat)
      requires nBuckets == |fs| > 0 && site == nBuckets
      ensures SiteSeen(key, site, 0, 0)
    {
    }

    lemma SiteStep(key: K, site: nat, siteStep: nat, step: nat)
      requires Layout() && nBuckets > 0 && SiteSeen(key, site, siteStep, step)
      ensures var i := Probe(nBuckets, hash(key), step);
              && (fs[i] == Live ==> SiteSeen(key, site, siteStep, step + 1))
              && (fs[i] == Deleted ==> SiteSeen(key, i, step, step + 1))
    {
    }

    /** The last tombstone met so far, if any. */
    ghost predicate SiteSeen(key: K, site: nat, siteStep: nat, step: nat)
      requires nBuckets == |fs| > 0
      reads this
    {
      if site == nBuckets then forall s: nat :: s < step ==> fs[Probe(nBuckets, hash(key), s)] == Live
      else site < nBuckets && fs[site] == Deleted && siteStep < step && Probe(nBuckets, hash(key), siteStep) == site
    }

    lemma AllLive(key: K, siteStep: nat, step: nat)
      requires Layout() && nBuckets > 0 && step >= nBuckets && SiteSeen(key, nBuckets, siteStep, step)
      ensures forall b :: 0 <= b < nBuckets ==> fs[b] == Live
    {
      forall b | 0 <= b < nBuckets ensures fs[b] == Live {
        var d := ProbeStepOf(nBuckets, hash(key), b);
      }
    }

    lemma SiteIsFree(key: K, site: nat, siteStep: nat, step: nat) returns (d: nat)
      requires Layout() && nBuckets > 0 && site != nBuckets && SiteSeen(key, site, siteStep, step)
      requires Skipped(fs, keys[..], hash(key), key, step)
      ensures FreeAt(fs, hash(key), site, d)
    {
      d := ShortenPath(fs, hash(key), siteStep);
    }

    lemma EndIsFree(key: K, i: nat, siteStep: nat, step: nat)
      requires Layout() && i < nBuckets && fs[i] == Empty && i == Probe(nBuckets, hash(key), step)
      requires SiteSeen(key, nBuckets, siteStep, step)
      ensures FreeAt(fs, hash(key), i, step)
    {
      if step >= nBuckets { AllLive(key, siteStep, step); }
    }

    /** kh_del: the entry in bucket x is removed, and no other; a bucket that is not live is left alone. */
    method Del(x: nat)
      requires Valid() && x <= nBuckets
      modifies this, flags
      ensures Valid() && Repr() == old(Repr()) && nBuckets == old(nBuckets)
      ensures contents == if old(IsLive(fs, x)) then old(contents) - {old(keys[x])} else old(contents)
    {
      if x != nBuckets {
        var f := ReadFlag(flags, x, fs);
        if f == Live { RemoveLive(x); }
      }
    }

    method RemoveLive(x: nat)
      requires Valid() && IsLive(fs, x)
      modifies this, flags
      ensures Valid() && Repr() == old(Repr()) && nBuckets == old(nBuckets)
      ensures old(keys[x]) in old(contents) && contents == old(contents) - {old(keys[x])}
    {
      hide Holds, Reachable, Shows, CountOccupied, IsPow2, UpperBound;
      ghost var key, ks, vs := keys[x], keys[..], vals[..];
      DelStays(x);
      SetDeleted(flags, x, fs);
      assert keys[..] == ks && vals[..] == vs;
      contents, loc, dist, fs := contents - {key}, loc - {key}, dist - {key}, fs[x := Deleted];
      size := size - 1;
      assert Load();
    }

    lemma DelStays(x: nat)
      requires Valid() && IsLive(fs, x)
      ensures keys[x] in contents && |contents - {keys[x]}| == size - 1 && CountOccupied(fs[x := Deleted]) == nOccupied
      ensures Holds(fs[x := Deleted], keys[..], vals[..], contents - {keys[x]}, loc - {keys[x]})
      ensures Reachable(fs[x := Deleted], hash, loc - {keys[x]}, dist - {keys[x]})
    {
      hide Shows, UpperBound;
      Delete(fs, keys[..], vals[..], contents, loc, dist, hash, x);
      CountOccupiedUpdate(fs, x, Deleted);
      SizeWithout(contents, keys[x]);
    }

    /** kh_val(h, x) of a live bucket. */
    method Val(x: nat) returns (v: V)
      requires Valid() && IsLive(fs, x)
      ensures keys[x] in contents && v == contents[keys[x]]
    {
      LiveIsLocated(x);
      v := vals[x];
    }

    /** kh_val(h, x) = v on a live bucket. */
    method SetVal(x: nat, v: V)
      requires Valid() && IsLive(fs, x)
      modifies this, vals
      ensures Valid() && Repr() == old(Repr()) && nBuckets == old(nBuckets) && nOccupied == old(nOccupied)
      ensures size == old(size)
      ensures fs == old(fs) && loc == old(loc) && keys == old(keys)
      ensures old(keys[x]) in old(contents) && contents == old(contents)[old(keys[x]) := v]
    {
      hide Reachable, Shows, CountOccupied, IsPow2, UpperBound;
      Overwrite(fs, keys[..], vals[..], contents, loc, x, v);
      hide Holds;
      contents := contents[keys[x] := v];
      ghost var vs := vals[..];
      vals[x] := v;
      assert vals[..] == vs[x := v];
    }

    /** No bucket is marked deleted. */
    ghost predicate NoTombstones()
      reads this
    {
      forall i :: 0 <= i < |fs| ==> fs[i] == Live || fs[i] == Empty
    }

    /** Without tombstones the two counters agree. */
    lemma CountersAgree()
      requires Valid() && NoTombstones()
      ensures nOccupied == size
    {
      NoTombstonesCount(fs);
      LiveCountIsSize(fs, keys[..], vals[..], contents, loc);
    }

    /** The table is as it was, apart from the identity and spare capacity of its arrays. */
    twostate predicate Unchanged()
      reads this, flags, keys, vals
    {
      && nBuckets == old(nBuckets) && size == old(size) && nOccupied == old(nOccupied) && upperBound == old(upperBound)
      && contents == old(contents) && fs == old(fs) && loc == old(loc) && dist == old(dist)
    }

    /** h->keys = realloc(h->keys, n) */
    method ReallocKeys(n: nat)
      requires Valid() && nBuckets <= n
      modifies this`keys
      ensures Valid() && keys.Length == n && fresh(keys)
    {
      hide Holds, Reachable, Shows, CountOccupied, IsPow2, UpperBound;
      var newKeys := new K[n];
      CopyPrefix(keys, newKeys, nBuckets);
      HoldsPrefix(fs, keys[..], vals[..], contents, loc, newKeys[..], vals[..]);
      keys := newKeys;
    }

    /** h->vals = realloc(h->vals, n) */
    method ReallocVals(n: nat)
      requires Valid() && nBuckets <= n
      modifies this`vals
      ensures Valid() && vals.Length == n && fresh(vals)
    {
      hide Holds, Reachable, Shows, CountOccupied, IsPow2, UpperBound;
      var newVals := new V[n];
      CopyPrefix(vals, newVals, nBuckets);
      HoldsPrefix(fs, keys[..], vals[..], contents, loc, keys[..], newVals[..]);
      vals := newVals;
    }

    /** The rehash proper: every entry moves to a layout of n buckets that shares the arrays. */
    method RehashTo(n: nat, newFlags: array<bv32>)
      requires Valid() && IsPow2(n) && 4 <= n <= MAX_BUCKETS && size < UpperBound(n)
      requires n <= keys.Length && n <= vals.Length
      requires newFlags !in Repr() && Shows(newFlags[..], seq(n, i => Empty))
      requires newFlags as object != keys && newFlags as object != vals
      modifies this, flags, keys, vals, newFlags
      ensures Valid() && contents == old(contents) && size == old(size)
      ensures nBuckets == n && nOccupied == size && NoTombstones()
      ensures flags == newFlags && keys == old(keys) && vals == old(vals)
    {
      hide Holds, Reachable, Shows, CountOccupied, IsPow2, Moment, Rehashed, UpperBound;
      UpperBoundBelow(n);
      ghost var s := BeginRehash(n, newFlags);
      s := RehashAll(hash, flags, nBuckets, newFlags, n, keys, vals, contents, s);
      Install(n, newFlags, s);
    }

    /** The new flags and counters replace the old ones. */
    method Install(n: nat, newFlags: array<bv32>, ghost s: Snapshot<K>)
      requires Rehashed(hash, newFlags, keys, vals, contents, s) && |s.new_| == n
      requires IsPow2(n) && 4 <= n <= MAX_BUCKETS && size == |contents| < UpperBound(n)
      requires newFlags as object != keys && newFlags as object != vals && keys as object != vals
      modifies this
      ensures Valid() && contents == old(contents) && size == old(size)
      ensures nBuckets == n && nOccupied == size && NoTombstones()
      ensures flags == newFlags && keys == old(keys) && vals == old(vals)
    {
      hide Holds, Reachable, Shows, CountOccupied, IsPow2, UpperBound;
      flags := newFlags;
      nBuckets := n;
      nOccupied := size;
      upperBound := UpperBound(n);
      fs, loc, dist := s.new_, s.loc, s.dist;
    }

    lemma BeginRehash(n: nat, newFlags: array<bv32>) returns (s: Snapshot<K>)
      requires Layout() && Shows(newFlags[..], seq(n, i => Empty)) && n <= keys.Length && n <= vals.Length
      ensures Moment(hash, flags, newFlags, keys, vals, contents, s, Nothing)
      ensures |s.old_| == nBuckets && |s.new_| == n
    {
      s := Snapshot(fs, seq(n, i => Empty), loc, dist);
      DistKeys(fs, hash, loc, dist);
      Begin(fs, s.new_, keys[..], vals[..], contents, loc, dist, hash);
    }

    /**
     kh_resize: -1 when an allocation fails before anything is moved, 0 otherwise. The
     map is the same in every case but one: a failing reallocation at the end of a
     shrink leaves a NULL array behind, and 0 is returned.
     */
    method Resize(request: nat, alloc: Allocation) returns (r: int)
      requires Valid() && request < U32
      modifies this, flags, keys, vals
      ensures r == -1 <==>
        old(size) < UpperBound(ResizeTarget(request)) &&
        !(alloc.flags && (ResizeTarget(request) <= old(nBuckets) || (alloc.keys && alloc.vals)))
      ensures Valid() <==>
        !(old(size) < UpperBound(ResizeTarget(request)) && ResizeTarget(request) < old(nBuckets) &&
          alloc.flags && !(alloc.keys && alloc.vals))
      ensures Valid() ==> contents == old(contents) && size == old(size)
      ensures fresh(Repr() - old(Repr())) && (r == 0 || r == -1)
      ensures r == -1 ==> Valid() && Unchanged()
      ensures r == 0 && old(size) >= UpperBound(ResizeTarget(request)) ==> Unchanged() && Repr() == old(Repr())
      ensures r == 0 && old(size) < UpperBound(ResizeTarget(request)) ==>
                nBuckets == ResizeTarget(request) && nOccupied == size && NoTombstones()
      ensures !Valid() ==> r == 0 && (alloc.keys || keys.Length == 0) && (alloc.vals || vals.Length == 0)
    {
      hide Holds, Reachable, Shows, CountOccupied, IsPow2, UpperBound, ResizeTarget, NoTombstones;
      var n := ResizeTarget(request);
      ResizeTargetIsPow2(request);
      if size >= UpperBound(n) { return 0; }
      if !alloc.flags { return -1; }
      var newFlags := NewFlags(n);
      var nOld := nBuckets;
      if nOld < n {
        if !alloc.keys { return -1; }
        ReallocKeys(n);
        if !alloc.vals { return -1; }
        ReallocVals(n);
      }
      RehashTo(n, newFlags);
      if nOld > n { ShrinkArrays(alloc); }
      return 0;
    }

    /** The two reallocations at the end of a shrink; nobody looks at their results. */
    method ShrinkArrays(alloc: Allocation)
      requires Valid() && nBuckets > 0
      modifies this`keys, this`vals
      ensures Valid() <==> alloc.keys && alloc.vals
      ensures !alloc.keys ==> keys.Length == 0
      ensures !alloc.vals ==> vals.Length == 0
      ensures old(NoTombstones()) ==> NoTombstones()
      ensures fresh(Repr() - old(Repr()))
    {
      hide Holds, Reachable, Shows, CountOccupied, IsPow2, UpperBound;
      ReallocKeys(nBuckets);
      ReallocVals(nBuckets);
      if !alloc.keys { keys := new K[0]; }
      if !alloc.vals { vals := new V[0]; }
    }

    /** A loaded table can grow unless it already has 2^31 buckets. */
    ghost predicate CanGrow()
      reads this
    {
      nOccupied < upperBound || nBuckets > 2 * size || nBuckets < MAX_BUCKETS
    }

    /** Bucket count after room has been made. */
    function NextBuckets(): nat
      reads this
    {
      if nOccupied < upperBound || nBuckets > 2 * size || nBuckets >= MAX_BUCKETS then nBuckets
      else if nBuckets == 0 then 4 else 2 * nBuckets
    }

    /** The request that kh_put makes of a loaded table; the doubled size wraps at 32 bits. */
    function Request(): (request: nat)
      reads this
    {
      if nBuckets > (2 * size) % U32 then nBuckets - 1 else nBuckets + 1
    }

    lemma BucketCounts()
      requires Valid()
      ensures nBuckets == 0 || (IsPow2(nBuckets) && 4 <= nBuckets <= MAX_BUCKETS)
      ensures size <= nBuckets && upperBound == if nBuckets == 0 then 0 else UpperBound(nBuckets)
      ensures nOccupied >= upperBound && size < MAX_BUCKETS ==> Request() == PlainRequest(nBuckets, size)
      ensures size == MAX_BUCKETS ==> !CanGrow() && nOccupied >= upperBound && Request() == MAX_BUCKETS - 1
    {
      FullWhen();
      assert nBuckets == 0 || (IsPow2(nBuckets) && 4 <= nBuckets <= MAX_BUCKETS);
      Doubling(size);
      hide Layout, IsPow2, CountOccupied;
      if nBuckets > 0 { UpperBoundBelow(nBuckets); }
      hide UpperBound;
    }

    lemma ResizeHelps()
      requires Valid() && nOccupied >= upperBound && CanGrow()
      ensures Request() < U32 && ResizeTarget(Request()) == NextBuckets() && size < UpperBound(NextBuckets())
      ensures nBuckets <= NextBuckets() <= MAX_BUCKETS && NextBuckets() >= 4
    {
      BucketCounts();
      hide Layout, Load, ResizeTarget, IsPow2;
      PlainRequestHelps(nBuckets, size);
    }

    /**
     The resize that kh_put asks for is able to make room exactly when the table can
     grow: one bucket more than 2^31 rounds to 0, the target becomes 4, and nothing
     is done.
     */
    lemma ResizeHelpsExactly()
      requires Valid() && nOccupied >= upperBound
      ensures Request() < U32 && (size < UpperBound(ResizeTarget(Request())) <==> CanGrow())
      ensures CanGrow() ==> ResizeTarget(Request()) >= nBuckets
    {
      BucketCounts();
      hide Layout, Load, IsPow2, ResizeTarget;
      if CanGrow() {
        ResizeHelps();
      } else {
        LargestTarget();
      }
    }

    /**
     Room has to be made, it can be made, and the memory for it is not there: the flags
     are allocated always, the two arrays only when the table grows.
     */
    ghost predicate Starves(alloc: Allocation)
      reads this
    {
      nOccupied >= upperBound && CanGrow() && !(alloc.flags && (nBuckets > 2 * size || (alloc.keys && alloc.vals)))
    }

    /** Make room before an insertion: purge tombstones when half of the buckets are unused, else double. */
    method MakeRoom(alloc: Allocation) returns (r: int)
      requires Valid()
      modifies this, flags, keys, vals
      ensures Valid() && contents == old(contents) && size == old(size) && fresh(Repr() - old(Repr()))
      ensures r == 0 || r == -1
      ensures r == -1 ==> Unchanged()
      ensures r == -1 <==> old(Starves(alloc))
      ensures r == 0 ==>
        nBuckets > 0 && nBuckets == old(NextBuckets()) && (nOccupied < upperBound || nBuckets == MAX_BUCKETS)
      ensures r == 0 ==> (nOccupied < upperBound <==> old(CanGrow()))
      ensures r == 0 && (old(nOccupied) < old(upperBound) || !old(CanGrow())) ==> Unchanged() && Repr() == old(Repr())
      ensures r == 0 && old(nOccupied) >= old(upperBound) && old(CanGrow()) ==> NoTombstones() && nOccupied == size
    {
      hide Layout, NoTombstones, UpperBound, ResizeTarget;
      r := 0;
      if nOccupied >= upperBound {
        ResizeHelpsExactly();
        BucketCounts();
        if CanGrow() { ResizeHelps(); }
        assert nBuckets > (2 * size) % U32 ==> Request() == nBuckets - 1;
        if nBuckets > (2 * size) % U32 {
          r := Resize(nBuckets - 1, alloc);
        } else {
          r := Resize(nBuckets + 1, alloc);
        }
      }
    }

    lemma PutStays(key: K, x: nat, d: nat)
      requires Valid() && key !in contents && FreeAt(fs, hash(key), x, d)
      ensures Holds(fs[x := Live], keys[..][x := key], vals[..], contents[key := vals[x]], loc[key := x])
      ensures Reachable(fs[x := Live], hash, loc[key := x], dist[key := d])
      ensures |contents[key := vals[x]]| == size + 1 <= CountOccupied(fs[x := Live])
      ensures CountOccupied(fs[x := Live]) == nOccupied + if fs[x] == Empty then 1 else 0
    {
      Insert(fs, keys[..], vals[..], contents, loc, dist, hash, key, x, d);
      CountOccupiedUpdate(fs, x, Live);
      SizeWith(contents, key, vals[x]);
      LiveCountIsSize(fs[x := Live], keys[..][x := key], vals[..], contents[key := vals[x]], loc[key := x]);
      LiveAreOccupied(fs[x := Live]);
    }

    /** The stores into the arrays: the key, and a flag that says live. */
    method Occupy(x: nat, key: K)
      requires flags as object != keys && keys as object != vals && flags as object != vals
      requires Shows(flags[..], fs) && x < |fs| <= keys.Length
      modifies flags, keys
      ensures Shows(flags[..], fs[x := Live]) && keys[..] == old(keys[..])[x := key] && vals[..] == old(vals[..])
    {
      hide Shows;
      keys[x] := key;
      SetLive(flags, x, fs);
    }

    /** Writing an absent key into a free bucket. */
    method Fill(key: K, x: nat, ghost d: nat, fresh_: bool)
      requires Valid() && key !in contents && FreeAt(fs, hash(key), x, d)
      requires (nOccupied < upperBound || nBuckets == MAX_BUCKETS)
      requires fresh_ == (fs[x] == Empty)
      modifies this, flags, keys
      ensures Valid() && Repr() == old(Repr()) && nBuckets == old(nBuckets) && upperBound == old(upperBound)
      ensures contents == old(contents)[key := vals[x]] && fs == old(fs)[x := Live] && keys[x] == key && loc[key] == x
      ensures size == old(size) + 1 && nOccupied == old(nOccupied) + if fresh_ then 1 else 0
    {
      hide Holds, Reachable, Shows, CountOccupied, IsPow2, UpperBound;
      PutStays(key, x, d);
      contents, loc, dist := contents[key := vals[x]], loc[key := x], dist[key := d];
      Occupy(x, key);
      fs := fs[x := Live];
      size := size + 1;
      if fresh_ { nOccupied := nOccupied + 1; }
      assert Load();
    }

    /** The part of kh_put after room has been made, or could not be made. */
    method PutInRoom(key: K) returns (x: nat, ret: int)
      requires Valid() && nBuckets > 0 && (nOccupied < upperBound || nBuckets == MAX_BUCKETS)
      modifies this, flags, keys
      ensures Valid() && Repr() == old(Repr()) && nBuckets == old(nBuckets) && upperBound == old(upperBound)
      ensures 0 <= ret <= 2 && x < nBuckets && IsLive(fs, x) && |fs| == |old(fs)|
      ensures ret == 0 <==> key in old(contents) || old(size) == MAX_BUCKETS
      ensures ret == 0 ==> contents == old(contents) && Unchanged()
      ensures key in contents <==> key in old(contents) || old(size) < MAX_BUCKETS
      ensures keys[x] == key <==> key in contents
      ensures keys[x] != key ==> x == hash(key) % nBuckets
      ensures ret >= 1 ==> contents == old(contents)[key := vals[x]] && size == old(size) + 1
      ensures ret >= 1 ==> (exists d: nat :: FreeAt(old(fs), hash(key), x, d)) && fs == old(fs)[x := Live]
      ensures ret >= 1 ==> old(fs)[x] == (if ret == 1 then Empty else Deleted)
      ensures nOccupied == old(nOccupied) + if ret == 1 then 1 else 0
    {
      hide Holds, Reachable, Shows, CountOccupied, IsPow2, UpperBound, FreeAt;
      ValidHasEmpty();
      FullWhen();
      ghost var d;
      x, d := FindSlot(key);
      FreeIsNotLive(key, x, d);
      LocatedIsLive(key);
      if fs[x] == Live { LiveIsLocated(x); }
      var f := ReadFlag(flags, x, fs);
      if f == Empty {
        Fill(key, x, d, true);
        ret := 1;
      } else if f == Deleted {
        Fill(key, x, d, false);
        ret := 2;
      } else {
        ret := 0;
      }
    }

    lemma FreeIsNotLive(key: K, x: nat, d: nat)
      requires Layout() && x < nBuckets
      ensures FreeAt(fs, hash(key), x, d) ==> fs[x] != Live
    {
    }

    lemma LocatedIsLive(key: K)
      requires Layout()
      ensures key in contents ==> key in loc && IsLive(fs, loc[key]) && keys[loc[key]] == key
    {
    }

    /**
     kh_put: the bucket of the key, made if need be. The code returned is 0 when the
     key was present, 1 when an empty bucket was taken, 2 when a tombstone was
     reused, and -1 when room could not be allocated. The value of a new key is what
     its bucket held before, until the caller stores one.

     With memory at hand this is right exactly when the key was present or fewer than
     2^31 keys were. Otherwise nothing changes, and 0 is returned with the key's home
     bucket, which holds another key.
     */
    method Put(key: K, alloc: Allocation) returns (x: nat, ret: int)
      requires Valid()
      modifies this, flags, keys, vals
      ensures Valid() && fresh(Repr() - old(Repr())) && -1 <= ret <= 2
      ensures ret == -1 ==> Unchanged() && x == nBuckets
      ensures ret == -1 <==> old(Starves(alloc))
      ensures ret == -1 <==>
        old(nOccupied) >= old(upperBound) && (old(nBuckets) > 2 * old(size) || old(nBuckets) < 0x8000_0000) &&
        !(alloc.flags && (old(nBuckets) > 2 * old(size) || (alloc.keys && alloc.vals)))
      ensures ret == 0 <==> ret != -1 && (key in old(contents) || old(size) == 0x8000_0000)
      ensures ret == 0 ==> contents == old(contents) && size == old(size)
      ensures ret >= 0 ==> (key in contents <==> key in old(contents) || old(size) < MAX_BUCKETS)
      ensures ret >= 0 ==>
        x < nBuckets && IsLive(fs, x) && (keys[x] == key <==> key in contents) && nBuckets == old(NextBuckets())
      ensures ret >= 0 ==>
        nBuckets == (if old(nOccupied) < old(upperBound) || old(nBuckets) > 2 * old(size) ||
                        old(nBuckets) == 0x8000_0000
                     then old(nBuckets) else if old(nBuckets) == 0 then 4 else 2 * old(nBuckets))
      ensures ret >= 0 && key !in contents ==> Unchanged() && x == hash(key) % nBuckets
      ensures ret >= 1 ==> contents == old(contents)[key := vals[x]] && size == old(size) + 1
      ensures ret >= 1 && (old(nOccupied) < old(upperBound) || !old(CanGrow())) ==>
        (exists d: nat :: FreeAt(old(fs), hash(key), x, d)) && old(fs)[x] == (if ret == 1 then Empty else Deleted)
      ensures ret >= 0 && old(nOccupied) >= old(upperBound) && old(CanGrow()) ==> ret != 2
      ensures old(NoTombstones()) ==> NoTombstones()
    {
      hide Layout, FreeAt, UpperBound;
      BucketCounts();
      var r := MakeRoom(alloc);
      if r < 0 { return nBuckets, -1; }
      x, ret := PutInRoom(key);
    }
  }

  // ---------------------------------------------------------------- where the code goes wrong

  /**
   A table can be filled: after 2^31 insertions, all with memory at hand, the next key
   is reported as present, although it is not.
   */
  method FilledTable() returns (t: Table<nat, nat>, x: nat, ret: int)
    ensures fresh(t.Repr()) && t.Valid() && t.size == MAX_BUCKETS && MAX_BUCKETS !in t.contents
    ensures ret == 0 && x < t.nBuckets && IsLive(t.fs, x) && t.keys[x] != MAX_BUCKETS
  {
    hide Table.Layout, Table.Load, Table.NextBuckets, Table.NoTombstones, Table.CanGrow, FreeAt;
    t := new Table(k => k);
    var i := 0;
    while i < MAX_BUCKETS
      invariant i <= MAX_BUCKETS && t.size == i && t.Valid() && fresh(t.Repr())
      invariant forall k: nat :: k in t.contents <==> k < i
    {
      x, ret := t.Put(i, Allocation(true, true, true));
      i := i + 1;
    }
    x, ret := t.Put(MAX_BUCKETS, Allocation(true, true, true));
  }

  /** A shrink that runs out of memory at its end: 0 is returned, and the table is no longer in order. */
  method BrokenShrink() returns (t: Table<nat, nat>, r: int)
    ensures r == 0 && !t.Valid() && t.vals.Length == 0 && t.nBuckets == 4
  {
    hide Table.Layout, Table.Load, Table.NoTombstones, ResizeTarget, UpperBound;
    SmallTargets();
    t := new Table(k => k);
    r := t.Resize(5, Allocation(true, true, true));
    assert r == 0 && t.nBuckets == 8 && t.size == 0;
    r := t.Resize(3, Allocation(true, true, false));
  }

  lemma SmallTargets()
    ensures ResizeTarget(5) == 8 && ResizeTarget(3) == 4 && UpperBound(8) == 6 && UpperBound(4) == 3
  {
    Pow2Values();
    Pow2Double(2);
    RoundsTo(3, 5);
    Pow2Double(1);
    RoundsTo(2, 3);
  }
}

/**
 When a bucket layout represents a finite map, and what each step of the hash
 table does to that representation. Buckets are given as sequences (the contents
 of the table's arrays); `loc` and `dist` record, for each key, its bucket and the
 probe step at which it was placed.
 */
module TableLayout {
  import opened Probing
  import opened BucketFlags

  // ---------------------------------------------------------------- counting

  ghost function CountLive(fs: seq<Flag>): (c: nat)
    ensures c <= |fs|
  {
    if fs == [] then 0 else CountLive(fs[..|fs| - 1]) + (if fs[|fs| - 1] == Live then 1 else 0)
  }

  ghost function CountOccupied(fs: seq<Flag>): (c: nat)
    ensures c <= |fs|
  {
    if fs == [] then 0 else CountOccupied(fs[..|fs| - 1]) + (if fs[|fs| - 1] != Empty then 1 else 0)
  }

  lemma {:induction false} CountLiveUpdate(fs: seq<Flag>, i: nat, f: Flag)
    requires i < |fs|
    ensures CountLive(fs[i := f]) + (if fs[i] == Live then 1 else 0) == CountLive(fs) + (if f == Live then 1 else 0)
  {
    var m := |fs| - 1;
    if i == m {
      assert fs[i := f][..m] == fs[..m];
    } else {
      assert fs[i := f][..m] == fs[..m][i := f];
      CountLiveUpdate(fs[..m], i, f);
    }
  }

  lemma {:induction false} CountOccupiedUpdate(fs: seq<Flag>, i: nat, f: Flag)
    requires i < |fs|
    ensures CountOccupied(fs[i := f]) + (if fs[i] != Empty then 1 else 0)
      == CountOccupied(fs) + (if f != Empty then 1 else 0)
  {
    var m := |fs| - 1;
    if i == m {
      assert fs[i := f][..m] == fs[..m];
    } else {
      assert fs[i := f][..m] == fs[..m][i := f];
      CountOccupiedUpdate(fs[..m], i, f);
    }
  }

  /** A table with fewer non-empty buckets than buckets has an empty bucket. */
  lemma {:induction false} EmptyExists(fs: seq<Flag>)
    requires CountOccupied(fs) < |fs|
    ensures exists i :: 0 <= i < |fs| && fs[i] == Empty
  {
    var m := |fs| - 1;
    if fs[m] != Empty {
      EmptyExists(fs[..m]);
      var i :| 0 <= i < m && fs[..m][i] == Empty;
      assert fs[i] == Empty;
    }
  }

  lemma {:induction false} LiveAreOccupied(fs: seq<Flag>)
    ensures CountLive(fs) <= CountOccupied(fs)
  {
    if fs != [] { LiveAreOccupied(fs[..|fs| - 1]); }
  }

  /** Every bucket is live exactly when the count says so. */
  lemma {:induction false} AllLiveCount(fs: seq<Flag>)
    ensures CountLive(fs) == |fs| <==> forall i :: 0 <= i < |fs| ==> fs[i] == Live
  {
    if fs != [] {
      var m := |fs| - 1;
      AllLiveCount(fs[..m]);
      assert forall i :: 0 <= i < m ==> fs[..m][i] == fs[i];
    }
  }

  lemma {:induction false} NoTombstonesCount(fs: seq<Flag>)
    requires forall i :: 0 <= i < |fs| ==> fs[i] == Live || fs[i] == Empty
    ensures CountOccupied(fs) == CountLive(fs)
  {
    if fs != [] { NoTombstonesCount(fs[..|fs| - 1]); }
  }

  lemma {:induction false} CountAllEmpty(n: nat)
    ensures CountLive(seq(n, i => Empty)) == 0 == CountOccupied(seq(n, i => Empty))
  {
    if n > 0 {
      assert seq(n, i => Empty)[..n - 1] == seq(n - 1, i => Empty);
      CountAllEmpty(n - 1);
    }
  }

  // ---------------------------------------------------------------- representation

  /** Live buckets hold exactly the pairs of `m`, each key once, in bucket loc[key]. */
  ghost predicate Holds<K, V>(fs: seq<Flag>, keys: seq<K>, vals: seq<V>, m: map<K, V>, loc: map<K, int>)
    requires |fs| <= |keys| && |fs| <= |vals|
  {
    && loc.Keys == m.Keys
    && (forall k :: k in m ==> 0 <= loc[k] < |fs| && fs[loc[k]] == Live && keys[loc[k]] == k && vals[loc[k]] == m[k])
    && (forall i :: 0 <= i < |fs| && fs[i] == Live ==> keys[i] in m && loc[keys[i]] == i)
  }

  /** The first t buckets on h's probe path are all non-empty. */
  ghost predicate PathOccupied(fs: seq<Flag>, h: nat, t: nat)
    requires |fs| > 0
  {
    forall s: nat :: s < t ==> fs[Probe(|fs|, h, s)] != Empty
  }

  /** Every key sits on its own probe path, with no empty bucket before it. */
  ghost predicate Reachable<K>(fs: seq<Flag>, hash: K -> nat, loc: map<K, int>, dist: map<K, nat>)
  {
    && dist.Keys == loc.Keys
    && forall k :: k in loc ==>
      |fs| > 0 && dist[k] < |fs| && Probe(|fs|, hash(k), dist[k]) == loc[k] && PathOccupied(fs, hash(k), dist[k])
  }

  lemma {:induction false} LiveKeys<K, V>(fs: seq<Flag>, keys: seq<K>, vals: seq<V>, m: map<K, V>, loc: map<K, int>,
                                          n: nat) returns (ks: set<K>)
    requires |fs| <= |keys| && |fs| <= |vals| && Holds(fs, keys, vals, m, loc) && n <= |fs|
    ensures |ks| == CountLive(fs[..n]) && ks <= m.Keys
    ensures forall k :: k in m ==> (k in ks <==> loc[k] < n)
  {
    if n == 0 {
      ks := {};
    } else {
      ks := LiveKeys(fs, keys, vals, m, loc, n - 1);
      assert fs[..n][..n - 1] == fs[..n - 1];
      if fs[n - 1] == Live { ks := ks + {keys[n - 1]}; }
    }
  }

  /** The number of live buckets is the size of the map. */
  lemma LiveCountIsSize<K, V>(fs: seq<Flag>, keys: seq<K>, vals: seq<V>, m: map<K, V>, loc: map<K, int>)
    requires |fs| <= |keys| && |fs| <= |vals| && Holds(fs, keys, vals, m, loc)
    ensures CountLive(fs) == |m|
  {
    var ks := LiveKeys(fs, keys, vals, m, loc, |fs|);
    assert fs[..|fs|] == fs;
    assert ks == m.Keys;
  }

  lemma DistKeys<K>(fs: seq<Flag>, hash: K -> nat, loc: map<K, int>, dist: map<K, nat>)
    requires Reachable(fs, hash, loc, dist)
    ensures dist.Keys == loc.Keys
  {
  }

  /** Only the entries below the bucket count matter. */
  lemma HoldsPrefix<K, V>(fs: seq<Flag>, keys: seq<K>, vals: seq<V>, m: map<K, V>, loc: map<K, int>, keys': seq<K>,
                          vals': seq<V>)
    requires |fs| <= |keys| && |fs| <= |vals| && |fs| <= |keys'| && |fs| <= |vals'|
    requires keys'[..|fs|] == keys[..|fs|] && vals'[..|fs|] == vals[..|fs|]
    requires Holds(fs, keys, vals, m, loc)
    ensures Holds(fs, keys', vals', m, loc)
  {
    assert forall i :: 0 <= i < |fs| ==>
      keys'[i] == keys'[..|fs|][i] == keys[i] && vals'[i] == vals'[..|fs|][i] == vals[i];
  }

  /** The map determined by a layout is unique. */
  lemma HoldsUnique<K, V>(fs: seq<Flag>, keys: seq<K>, vals: seq<V>, m: map<K, V>, loc: map<K, int>, m': map<K, V>,
                          loc': map<K, int>)
    requires |fs| <= |keys| && |fs| <= |vals|
    requires Holds(fs, keys, vals, m, loc) && Holds(fs, keys, vals, m', loc')
    ensures m == m'
  {
    assert forall k :: k in m ==> k in m' && m'[k] == m[k];
    assert forall k :: k in m' ==> k in m;
  }

  // ---------------------------------------------------------------- lookup

  /** The first t buckets on the path of `key` are non-empty and none of them holds `key`. */
  ghost predicate Skipped<K>(fs: seq<Flag>, keys: seq<K>, h: nat, key: K, t: nat)
    requires 0 < |fs| <= |keys|
  {
    forall s: nat :: s < t ==>
                       var i := Probe(|fs|, h, s); fs[i] != Empty && (fs[i] == Live ==> keys[i] != key)
  }

  lemma SkipOne<K>(fs: seq<Flag>, keys: seq<K>, h: nat, key: K, t: nat)
    requires 0 < |fs| <= |keys| && Skipped(fs, keys, h, key, t)
    requires var i := Probe(|fs|, h, t); fs[i] != Empty && (fs[i] == Live ==> keys[i] != key)
    ensures Skipped(fs, keys, h, key, t + 1)
  {
  }

  /** An unsuccessful search that met an empty bucket, or that met every bucket, proves the key absent. */
  lemma SkippedMeansAbsent<K, V>(fs: seq<Flag>, keys: seq<K>, vals: seq<V>, m: map<K, V>, loc: map<K, int>,
                                 dist: map<K, nat>,
                                 hash: K -> nat, key: K, t: nat)
    requires 0 < |fs| <= |keys| && |fs| <= |vals|
    requires Holds(fs, keys, vals, m, loc) && Reachable(fs, hash, loc, dist)
    requires Skipped(fs, keys, hash(key), key, t)
    requires fs[Probe(|fs|, hash(key), t)] == Empty || t >= |fs|
    ensures key !in m
  {
  }

  /** A path position beyond the first n probes can be named by one of the first n. */
  lemma ShortenPath(fs: seq<Flag>, h: nat, t: nat) returns (d: nat)
    requires IsPow2(|fs|) && PathOccupied(fs, h, t)
    ensures d < |fs| && d <= t && Probe(|fs|, h, d) == Probe(|fs|, h, t) && PathOccupied(fs, h, d)
  {
    if t < |fs| {
      d := t;
    } else {
      d := ProbeStepOf(|fs|, h, Probe(|fs|, h, t));
    }
  }

  /** When the first n buckets of a path are non-empty, no bucket is empty. */
  lemma PathCovers(fs: seq<Flag>, h: nat, t: nat)
    requires IsPow2(|fs|) && PathOccupied(fs, h, t) && t >= |fs|
    ensures forall i :: 0 <= i < |fs| ==> fs[i] != Empty
  {
    forall i | 0 <= i < |fs| ensures fs[i] != Empty {
      var d := ProbeStepOf(|fs|, h, i);
    }
  }

  // ---------------------------------------------------------------- insertion and deletion

  /**
   Bucket x, at step d of the path of h, can take a new key: it is not live and no
   empty bucket comes before it. If it is empty itself, no tombstone came before it.
   */
  ghost predicate FreeAt(fs: seq<Flag>, h: nat, x: nat, d: nat) {
    && x < |fs| && fs[x] != Live && d < |fs| && Probe(|fs|, h, d) == x && PathOccupied(fs, h, d)
    && (fs[x] == Empty ==> forall s: nat :: s < d ==> fs[Probe(|fs|, h, s)] == Live)
  }

  /** Filling a non-live bucket on the path of an absent key adds that key, and cuts off no other. */
  lemma Insert<K, V>(fs: seq<Flag>, keys: seq<K>, vals: seq<V>, m: map<K, V>, loc: map<K, int>, dist: map<K, nat>,
                     hash: K -> nat, key: K, x: nat, d: nat)
    requires |fs| <= |keys| && |fs| <= |vals| && x < |fs|
    requires Holds(fs, keys, vals, m, loc) && Reachable(fs, hash, loc, dist)
    requires key !in m && fs[x] != Live && d < |fs| && Probe(|fs|, hash(key), d) == x && PathOccupied(fs, hash(key), d)
    ensures Holds(fs[x := Live], keys[x := key], vals, m[key := vals[x]], loc[key := x])
    ensures Reachable(fs[x := Live], hash, loc[key := x], dist[key := d])
  {
    var fs', loc', dist' := fs[x := Live], loc[key := x], dist[key := d];
    forall k | k in loc'
      ensures |fs'| > 0 && dist'[k] < |fs'|
      ensures Probe(|fs'|, hash(k), dist'[k]) == loc'[k] && PathOccupied(fs', hash(k), dist'[k])
    {
      var e := dist'[k];
      assert PathOccupied(fs, hash(k), e);
      forall s: nat | s < e ensures fs'[Probe(|fs'|, hash(k), s)] != Empty {
        assert fs[Probe(|fs|, hash(k), s)] != Empty;
      }
    }
  }

  /** Marking a live bucket deleted removes its key, and cuts off no other. */
  lemma Delete<K, V>(fs: seq<Flag>, keys: seq<K>, vals: seq<V>, m: map<K, V>, loc: map<K, int>, dist: map<K, nat>,
                     hash: K -> nat, x: nat)
    requires |fs| <= |keys| && |fs| <= |vals| && x < |fs| && fs[x] == Live
    requires Holds(fs, keys, vals, m, loc) && Reachable(fs, hash, loc, dist)
    ensures keys[x] in m
    ensures Holds(fs[x := Deleted], keys, vals, m - {keys[x]}, loc - {keys[x]})
    ensures Reachable(fs[x := Deleted], hash, loc - {keys[x]}, dist - {keys[x]})
  {
    var fs', loc', dist' := fs[x := Deleted], loc - {keys[x]}, dist - {keys[x]};
    forall k | k in loc'
      ensures |fs'| > 0 && dist'[k] < |fs'|
      ensures Probe(|fs'|, hash(k), dist'[k]) == loc'[k] && PathOccupied(fs', hash(k), dist'[k])
    {
      assert PathOccupied(fs, hash(k), dist[k]);
      forall s: nat | s < dist[k] ensures fs'[Probe(|fs'|, hash(k), s)] != Empty {
        assert fs[Probe(|fs|, hash(k), s)] != Empty;
      }
    }
  }

  /** Overwriting the value of a live bucket updates the map at its key. */
  lemma Overwrite<K, V>(fs: seq<Flag>, keys: seq<K>, vals: seq<V>, m: map<K, V>, loc: map<K, int>, x: nat, v: V)
    requires |fs| <= |keys| && |fs| <= |vals| && x < |fs| && fs[x] == Live
    requires Holds(fs, keys, vals, m, loc)
    ensures keys[x] in m && Holds(fs, keys, vals[x := v], m[keys[x] := v], loc)
  {
  }

  // ---------------------------------------------------------------- the load bound

  /** (khint_t)(n * 0.77 + 0.5) */
  function UpperBound(n: nat): nat {
    (77 * n + 50) / 100
  }

  /** 77 percent of n, rounded to the nearest whole number. */
  lemma UpperBoundRounds(n: nat)
    ensures -50 < 100 * UpperBound(n) - 77 * n <= 50
  {
  }

  lemma UpperBoundBelow(n: nat)
    requires n >= 4
    ensures 0 < UpperBound(n) < n
    ensures UpperBound(n) < UpperBound(2 * n)
    ensures n / 2 < UpperBound(n)
  {
  }
}

/**
 The in-place "kick-out" rehash of `kh_resize`, as facts about one moment of it.

 The old and the new layout share the key and value arrays. A bucket's entry
 belongs to the new layout once its new flag is live, and to the old layout while
 its old flag is live; one further pair may be carried in local variables. These
 three parts always make up the original map.
 */
module Rehash {
  import opened Probing
  import opened BucketFlags
  import opened TableLayout

  datatype Carried<K> = Nothing | Carrying(key: K)

  ghost predicate IsLive(fs: seq<Flag>, i: int) {
    0 <= i < |fs| && fs[i] == Live
  }

  /** loc[k] is -1 for the carried key, and otherwise the bucket that holds k in either layout. */
  ghost predicate Partition<K, V>(old_: seq<Flag>, new_: seq<Flag>, keys: seq<K>, vals: seq<V>,
                                  m: map<K, V>, loc: map<K, int>, carried: Carried<K>)
  {
    && |old_| <= |keys| && |new_| <= |keys| && |old_| <= |vals| && |new_| <= |vals|
    && loc.Keys == m.Keys
    && (forall i :: 0 <= i < |new_| ==> new_[i] == Live || new_[i] == Empty)
    && (forall i :: IsLive(new_, i) ==> !IsLive(old_, i))
    && (forall i :: IsLive(new_, i) || IsLive(old_, i) ==> keys[i] in m && loc[keys[i]] == i && vals[i] == m[keys[i]])
    && (forall k :: k in m ==>
                      if carried == Carrying(k) then loc[k] == -1
                      else (IsLive(new_, loc[k]) || IsLive(old_, loc[k])) && keys[loc[k]] == k)
    && (carried.Carrying? ==> carried.key in m)
  }

  /** Keys already placed are reachable in the new layout. */
  ghost predicate PlacedReachable<K, V>(new_: seq<Flag>, keys: seq<K>, hash: K -> nat, m: map<K, V>, dist: map<K, nat>)
    requires |new_| <= |keys|
  {
    && dist.Keys == m.Keys
    && forall i :: IsLive(new_, i) ==>
      keys[i] in dist && dist[keys[i]] < |new_| &&
      Probe(|new_|, hash(keys[i]), dist[keys[i]]) == i && PathOccupied(new_, hash(keys[i]), dist[keys[i]])
  }

  /** The layout before the rehash, seen as its first moment. */
  lemma Begin<K, V>(old_: seq<Flag>, new_: seq<Flag>, keys: seq<K>, vals: seq<V>,
                    m: map<K, V>, loc: map<K, int>, dist: map<K, nat>, hash: K -> nat)
    requires |old_| <= |keys| && |new_| <= |keys| && |old_| <= |vals| && |new_| <= |vals|
    requires Holds(old_, keys, vals, m, loc) && dist.Keys == loc.Keys
    requires forall i :: 0 <= i < |new_| ==> new_[i] == Empty
    ensures Partition(old_, new_, keys, vals, m, loc, Nothing)
    ensures PlacedReachable(new_, keys, hash, m, dist)
  {
  }

  /** Taking bucket j out of the old layout. */
  lemma PickUp<K, V>(old_: seq<Flag>, new_: seq<Flag>, keys: seq<K>, vals: seq<V>, m: map<K, V>, loc: map<K, int>,
                     j: nat)
    requires Partition(old_, new_, keys, vals, m, loc, Nothing) && IsLive(old_, j)
    ensures keys[j] in m && vals[j] == m[keys[j]]
    ensures Partition(old_[j := Deleted], new_, keys, vals, m, loc[keys[j] := -1], Carrying(keys[j]))
  {
    var old', loc', key := old_[j := Deleted], loc[keys[j] := -1], keys[j];
    forall i | IsLive(new_, i) || IsLive(old', i)
      ensures keys[i] in m && loc'[keys[i]] == i && vals[i] == m[keys[i]] && i != j
    {
      assert IsLive(new_, i) || IsLive(old_, i);
    }
    forall k | k in m ensures
        if Carrying(key) == Carrying(k) then loc'[k] == -1
        else (IsLive(new_, loc'[k]) || IsLive(old', loc'[k])) && keys[loc'[k]] == k
    {
    }
  }

  /** Putting the carried pair into a bucket i that no layout uses. */
  lemma Place<K, V>(old_: seq<Flag>, new_: seq<Flag>, keys: seq<K>, vals: seq<V>, m: map<K, V>, loc: map<K, int>,
                    key: K, i: nat)
    requires Partition(old_, new_, keys, vals, m, loc, Carrying(key))
    requires i < |new_| && new_[i] == Empty && !IsLive(old_, i)
    ensures Partition(old_, new_[i := Live], keys[i := key], vals[i := m[key]], m, loc[key := i], Nothing)
  {
    var new', keys', vals', loc' := new_[i := Live], keys[i := key], vals[i := m[key]], loc[key := i];
    forall x | IsLive(new', x) || IsLive(old_, x)
      ensures keys'[x] in m && loc'[keys'[x]] == x && vals'[x] == m[keys'[x]]
    {
      if x != i { assert IsLive(new_, x) || IsLive(old_, x); }
    }
    forall k | k in m ensures (IsLive(new', loc'[k]) || IsLive(old_, loc'[k])) && keys'[loc'[k]] == k {
      if k != key { assert loc[k] != i; }
    }
  }

  /** Swapping the carried pair with the old pair that sits in bucket i. */
  lemma KickOut<K, V>(old_: seq<Flag>, new_: seq<Flag>, keys: seq<K>, vals: seq<V>, m: map<K, V>, loc: map<K, int>,
                      key: K, i: nat)
    requires Partition(old_, new_, keys, vals, m, loc, Carrying(key))
    requires i < |new_| && new_[i] == Empty && IsLive(old_, i)
    ensures keys[i] in m && vals[i] == m[keys[i]] && keys[i] != key
    ensures Partition(old_[i := Deleted], new_[i := Live], keys[i := key], vals[i := m[key]], m,
                      loc[key := i][keys[i] := -1], Carrying(keys[i]))
  {
    PickUpWhileCarrying(old_, new_, keys, vals, m, loc, key, i);
    var new', old', keys', vals' := new_[i := Live], old_[i := Deleted], keys[i := key], vals[i := m[key]];
    var kicked := keys[i];
    var loc' := loc[key := i][kicked := -1];
    forall x | IsLive(new', x) || IsLive(old', x)
      ensures keys'[x] in m && loc'[keys'[x]] == x && vals'[x] == m[keys'[x]]
    {
      if x != i { assert IsLive(new_, x) || IsLive(old_, x); }
    }
    forall k | k in m ensures
        if Carrying(kicked) == Carrying(k) then loc'[k] == -1
        else (IsLive(new', loc'[k]) || IsLive(old', loc'[k])) && keys'[loc'[k]] == k
    {
    }
  }

  lemma PickUpWhileCarrying<K, V>(old_: seq<Flag>, new_: seq<Flag>, keys: seq<K>, vals: seq<V>, m: map<K, V>,
                                  loc: map<K, int>,
                                  key: K, i: nat)
    requires Partition(old_, new_, keys, vals, m, loc, Carrying(key)) && IsLive(old_, i)
    ensures keys[i] in m && vals[i] == m[keys[i]] && keys[i] != key
  {
    assert loc[keys[i]] == i && loc[key] == -1;
  }

  lemma CarriedNotPlaced<K, V>(old_: seq<Flag>, new_: seq<Flag>, keys: seq<K>, vals: seq<V>, m: map<K, V>,
                               loc: map<K, int>, key: K)
    requires Partition(old_, new_, keys, vals, m, loc, Carrying(key))
    ensures |new_| <= |keys| && |new_| <= |vals|
    ensures forall x :: IsLive(new_, x) ==> keys[x] != key
  {
    assert loc[key] == -1;
  }

  /** A placement at the first empty bucket of the key's path keeps every placed key reachable. */
  lemma PlacedStays<K, V>(new_: seq<Flag>, keys: seq<K>, hash: K -> nat, m: map<K, V>, dist: map<K, nat>,
                          key: K, i: nat, d: nat)
    requires |new_| <= |keys| && i < |new_| && new_[i] == Empty && key in m
    requires PlacedReachable(new_, keys, hash, m, dist)
    requires forall x :: IsLive(new_, x) ==> keys[x] != key
    requires d < |new_| && Probe(|new_|, hash(key), d) == i && PathOccupied(new_, hash(key), d)
    ensures PlacedReachable(new_[i := Live], keys[i := key], hash, m, dist[key := d])
  {
    var new', keys', dist' := new_[i := Live], keys[i := key], dist[key := d];
    forall x | IsLive(new', x) ensures
        keys'[x] in dist' && dist'[keys'[x]] < |new'| &&
        Probe(|new'|, hash(keys'[x]), dist'[keys'[x]]) == x && PathOccupied(new', hash(keys'[x]), dist'[keys'[x]])
    {
      if x != i { assert IsLive(new_, x); }
      var e := dist'[keys'[x]];
      assert PathOccupied(new_, hash(keys'[x]), e);
      forall s: nat | s < e ensures new'[Probe(|new'|, hash(keys'[x]), s)] != Empty {
        assert new_[Probe(|new_|, hash(keys'[x]), s)] != Empty;
      }
    }
  }

  lemma {:induction false} PlacedKeys<K, V>(old_: seq<Flag>, new_: seq<Flag>, keys: seq<K>, vals: seq<V>,
                                            m: map<K, V>, loc: map<K, int>, carried: Carried<K>, n: nat)
    returns (ks: set<K>)
    requires Partition(old_, new_, keys, vals, m, loc, carried)
    requires n <= |new_| && forall i :: 0 <= i < n ==> new_[i] == Live
    ensures |ks| == n && ks <= m.Keys && forall k :: k in ks ==> 0 <= loc[k] < n
  {
    if n == 0 {
      ks := {};
    } else {
      ks := PlacedKeys(old_, new_, keys, vals, m, loc, carried, n - 1);
      assert IsLive(new_, n - 1);
      ks := ks + {keys[n - 1]};
    }
  }

  /** The new layout has room: fewer pairs than buckets leaves one empty. */
  lemma NewHasEmpty<K, V>(old_: seq<Flag>, new_: seq<Flag>, keys: seq<K>, vals: seq<V>,
                          m: map<K, V>, loc: map<K, int>, carried: Carried<K>)
    requires Partition(old_, new_, keys, vals, m, loc, carried) && |m| < |new_|
    ensures exists i :: 0 <= i < |new_| && new_[i] == Empty
  {
    if forall i :: 0 <= i < |new_| ==> new_[i] != Empty {
      var ks := PlacedKeys(old_, new_, keys, vals, m, loc, carried, |new_|);
      SubsetSize(ks, m.Keys);
    }
  }

  /** Once no old bucket is live and nothing is carried, the new layout holds the original map. */
  lemma Finish<K, V>(old_: seq<Flag>, new_: seq<Flag>, keys: seq<K>, vals: seq<V>,
                     m: map<K, V>, loc: map<K, int>, dist: map<K, nat>, hash: K -> nat)
    requires Partition(old_, new_, keys, vals, m, loc, Nothing)
    requires forall i :: 0 <= i < |old_| ==> !IsLive(old_, i)
    requires PlacedReachable(new_, keys, hash, m, dist)
    ensures Holds(new_, keys, vals, m, loc) && Reachable(new_, hash, loc, dist)
    ensures CountOccupied(new_) == CountLive(new_) == |m|
  {
    assert forall k :: k in m ==> IsLive(new_, loc[k]);
    LiveCountIsSize(new_, keys, vals, m, loc);
    NoTombstonesCount(new_);
  }
}

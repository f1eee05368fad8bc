/** Open-addressing tables: slots, probe paths, and what they stand for. */
module ProbeTable {
  datatype State = Empty | Occupied | Tombstone

  datatype Slot<V> = Slot(key: int, value: V, state: State)

  type Table<V> = seq<Slot<V>>

  /** `j` slots after `home`, around the end. */
  function Probe(home: nat, j: nat, cap: nat): (i: nat)
    requires home < cap && j < cap
    ensures i < cap
  {
    if home + j < cap then home + j else home + j - cap
  }

  /** How far slot `i` lies from `home`. */
  function Distance(home: nat, i: nat, cap: nat): (j: nat)
    requires home < cap && i < cap
    ensures j < cap && Probe(home, j, cap) == i
  {
    if i >= home then i - home else i + cap - home
  }

  predicate Holds<V>(s: Table<V>, i: nat, k: int) { i < |s| && s[i].state == Occupied && s[i].key == k }

  predicate Has<V>(s: Table<V>, k: int) { exists i :: 0 <= i < |s| && Holds(s, i, k) }

  function Count<V>(s: Table<V>): nat {
    if s == [] then 0 else Count(s[..|s| - 1]) + if s[|s| - 1].state == Occupied then 1 else 0
  }

  type Hash = int -> nat

  /** Where the probe for a key starts. */
  function Home(hash: Hash, k: int, cap: nat): (h: nat)
    requires cap > 0
    ensures h < cap
  {
    hash(k) % cap
  }

  /** No path to an occupied slot crosses an empty one. */
  predicate Reachable<V>(s: Table<V>, hash: Hash) {
    forall i, j :: 0 <= i < |s| && s[i].state == Occupied && 0 <= j < Distance(Home(hash, s[i].key, |s|), i, |s|)
                   ==> s[Probe(Home(hash, s[i].key, |s|), j, |s|)].state != Empty
  }

  predicate NoDuplicates<V>(s: Table<V>) {
    forall i, j :: 0 <= i < j < |s| && s[i].state == Occupied && s[j].state == Occupied ==> s[i].key != s[j].key
  }

  ghost predicate Represents<V>(s: Table<V>, m: map<int, V>) {
    && NoDuplicates(s)
    && (forall i :: 0 <= i < |s| && s[i].state == Occupied ==> s[i].key in m && m[s[i].key] == s[i].value)
    && (forall k :: k in m ==> Has(s, k))
  }

  // ---- counting ----------------------------------------------------------------------------

  lemma {:induction false} CountAfter<V>(s: Table<V>, i: nat, slot: Slot<V>)
    requires i < |s|
    ensures Count(s[i := slot]) == Count(s) - (if s[i].state == Occupied then 1 else 0) + (if slot.state == Occupied then 1 else 0)
    ensures s[i].state == Occupied ==> Count(s) > 0
    decreases |s|
  {
    var m := |s| - 1;
    var t := s[i := slot];
    if i < m {
      CountAfter(s[..m], i, slot);
      assert t[..m] == s[..m][i := slot];
    } else {
      assert t[..m] == s[..m];
    }
  }

  lemma {:induction false} CountBounds<V>(s: Table<V>)
    ensures Count(s) <= |s|
    ensures (exists i :: 0 <= i < |s| && s[i].state != Occupied) <==> Count(s) < |s|
    ensures (forall i :: 0 <= i < |s| ==> s[i].state != Occupied) <==> Count(s) == 0
    decreases |s|
  {
    if s == [] {
    } else {
      var m := |s| - 1;
      CountBounds(s[..m]);
      assert forall i :: 0 <= i < m ==> s[..m][i] == s[i];
      if Count(s) < |s| && s[m].state == Occupied {
        var i :| 0 <= i < m && s[..m][i].state != Occupied;
        assert s[i].state != Occupied;
      }
      if Count(s) == 0 {
        assert forall i :: 0 <= i < m ==> s[..m][i].state != Occupied;
      }
    }
  }

  /** Without duplicates the count is the number of keys. */
  lemma {:induction false} CountIsKeys<V>(s: Table<V>, m: map<int, V>)
    requires Represents(s, m)
    ensures Count(s) == |m|
    decreases |s|
  {
    if s == [] {
      forall k ensures k !in m {
        assert !Has(s, k);
      }
      assert m == map[];
    } else {
      var n := |s| - 1;
      var last := s[n];
      var rest := if last.state == Occupied then m - {last.key} else m;
      RestRepresents(s, m);
      CountIsKeys(s[..n], rest);
      if last.state == Occupied {
        assert m.Keys == rest.Keys + {last.key};
      }
    }
  }

  lemma RestRepresents<V>(s: Table<V>, m: map<int, V>)
    requires Represents(s, m) && s != []
    ensures var last := s[|s| - 1];
            Represents(s[..|s| - 1], if last.state == Occupied then m - {last.key} else m)
  {
    var n := |s| - 1;
    var last := s[n];
    var rest := if last.state == Occupied then m - {last.key} else m;
    forall k | k in rest ensures Has(s[..n], k) {
      assert Has(s, k);
      var i :| 0 <= i < |s| && Holds(s, i, k);
      assert Holds(s[..n], i, k);
    }
  }

  // ---- one slot changes --------------------------------------------------------------------

  /** The probe for `k` has found only other keys in its first `j` slots. */
  predicate Passed<V>(s: Table<V>, k: int, home: nat, j: nat)
    requires home < |s| && j <= |s|
  {
    forall n :: 0 <= n < j ==> var i := Probe(home, n, |s|); s[i].state == Occupied && s[i].key != k
  }

  lemma StoreKeepsReachable<V>(s: Table<V>, hash: Hash, k: int, v: V, j: nat)
    requires j < |s| && Reachable(s, hash) && Passed(s, k, Home(hash, k, |s|), j)
    requires var i := Probe(Home(hash, k, |s|), j, |s|); s[i].state != Occupied || s[i].key == k
    ensures Reachable(s[Probe(Home(hash, k, |s|), j, |s|) := Slot(k, v, Occupied)], hash)
  {
    var i := Probe(Home(hash, k, |s|), j, |s|);
    var t := s[i := Slot(k, v, Occupied)];
    hide Home;
    forall p, n | 0 <= p < |t| && t[p].state == Occupied && 0 <= n < Distance(Home(hash, t[p].key, |t|), p, |t|)
      ensures t[Probe(Home(hash, t[p].key, |t|), n, |t|)].state != Empty
    {
      if p == i {
        assert n < j;
      }
    }
  }

  lemma BuryKeepsReachable<V>(s: Table<V>, hash: Hash, i: nat)
    requires i < |s| && Reachable(s, hash) && s[i].state == Occupied
    ensures Reachable(s[i := s[i].(state := Tombstone)], hash)
  {
    hide Home, Probe, Distance;
  }

  /** Storing a key that is nowhere else updates exactly its binding. */
  lemma StoreUpdates<V>(s: Table<V>, m: map<int, V>, i: nat, k: int, v: V)
    requires Represents(s, m) && i < |s|
    requires Holds(s, i, k) || (s[i].state != Occupied && !Has(s, k))
    ensures Represents(s[i := Slot(k, v, Occupied)], m[k := v])
  {
    var t := s[i := Slot(k, v, Occupied)];
    forall x | x in m[k := v] ensures Has(t, x) {
      if x == k {
        assert Holds(t, i, k);
      } else {
        assert Has(s, x);
        var n :| 0 <= n < |s| && Holds(s, n, x);
        assert Holds(t, n, x);
      }
    }
    NowhereElse(s, i, k);
  }

  lemma NowhereElse<V>(s: Table<V>, i: nat, k: int)
    requires NoDuplicates(s) && i < |s|
    requires Holds(s, i, k) || (s[i].state != Occupied && !Has(s, k))
    ensures forall q :: 0 <= q < |s| && q != i && s[q].state == Occupied ==> s[q].key != k
  {
    forall q | 0 <= q < |s| && q != i && s[q].state == Occupied ensures s[q].key != k {
      assert Holds(s, q, k) == (s[q].key == k);
    }
  }

  lemma BuryRemoves<V>(s: Table<V>, m: map<int, V>, i: nat, k: int)
    requires Represents(s, m) && Holds(s, i, k)
    ensures Represents(s[i := s[i].(state := Tombstone)], m - {k})
  {
    var t := s[i := s[i].(state := Tombstone)];
    forall x | x in m - {k} ensures Has(t, x) {
      assert Has(s, x);
      var n :| 0 <= n < |s| && Holds(s, n, x);
      assert Holds(t, n, x);
    }
  }

  /** A key stored in a second place is there twice. */
  lemma StoreDuplicates<V>(s: Table<V>, i: nat, n: nat, k: int, v: V)
    requires i < |s| && s[i].state != Occupied && Holds(s, n, k)
    ensures !NoDuplicates(s[i := Slot(k, v, Occupied)])
  {
    var t := s[i := Slot(k, v, Occupied)];
    assert t[n].state == Occupied && t[n].key == k && t[i].key == k && n != i;
    assert (if i < n then t[i] else t[n]).key == (if i < n then t[n] else t[i]).key;
  }

  // ---- the map that a table stands for -----------------------------------------------------

  /** The bindings; of a key that is there twice, the one in the later slot. */
  function MapOf<V>(s: Table<V>): map<int, V> {
    if s == [] then map[]
    else
      var last := s[|s| - 1];
      if last.state == Occupied then MapOf(s[..|s| - 1])[last.key := last.value] else MapOf(s[..|s| - 1])
  }

  lemma {:induction false} MapOfRepresents<V>(s: Table<V>)
    requires NoDuplicates(s)
    ensures Represents(s, MapOf(s))
    decreases |s|
  {
    if s == [] {
    } else {
      var n := |s| - 1;
      var before, last := s[..n], s[n];
      MapOfRepresents(before);
      forall k | k in MapOf(s) ensures Has(s, k) {
        if last.state == Occupied && k == last.key {
          assert Holds(s, n, k);
        } else {
          assert Has(before, k);
          var i :| 0 <= i < n && Holds(before, i, k);
          assert Holds(s, i, k);
        }
      }
      assert forall i :: 0 <= i < n ==> s[i] == before[i];
    }
  }

  lemma RepresentsOne<V>(s: Table<V>, m: map<int, V>)
    requires Represents(s, m)
    ensures m == MapOf(s)
  {
    MapOfRepresents(s);
    SameMap(s, m, MapOf(s));
  }

  lemma SameMap<V>(s: Table<V>, m: map<int, V>, o: map<int, V>)
    requires Represents(s, m) && Represents(s, o)
    ensures m == o
  {
    forall k ensures k in m <==> k in o
             ensures k in m && k in o ==> m[k] == o[k]
    {
      if k in m { SameKey(s, m, o, k); }
      if k in o { SameKey(s, o, m, k); }
    }
  }

  lemma SameKey<V>(s: Table<V>, m: map<int, V>, o: map<int, V>, k: int)
    requires Represents(s, m) && Represents(s, o) && k in m
    ensures k in o && o[k] == m[k]
  {
    assert Has(s, k);
    var i :| 0 <= i < |s| && Holds(s, i, k);
  }

  lemma KeyIsBound<V>(s: Table<V>, k: int)
    requires NoDuplicates(s)
    ensures Has(s, k) <==> k in MapOf(s)
    ensures forall i :: 0 <= i < |s| && Holds(s, i, k) ==> k in MapOf(s) && MapOf(s)[k] == s[i].value
  {
    MapOfRepresents(s);
    hide MapOf;
    if Has(s, k) {
      var i :| 0 <= i < |s| && Holds(s, i, k);
    }
  }

  lemma StoreUpdatesMap<V>(s: Table<V>, i: nat, k: int, v: V)
    requires NoDuplicates(s) && i < |s|
    requires Holds(s, i, k) || (s[i].state != Occupied && !Has(s, k))
    ensures var t := s[i := Slot(k, v, Occupied)]; NoDuplicates(t) && MapOf(t) == MapOf(s)[k := v]
  {
    MapOfRepresents(s);
    StoreUpdates(s, MapOf(s), i, k, v);
    RepresentsOne(s[i := Slot(k, v, Occupied)], MapOf(s)[k := v]);
  }

  lemma BuryRemovesFromMap<V>(s: Table<V>, i: nat, k: int)
    requires NoDuplicates(s) && Holds(s, i, k)
    ensures var t := s[i := s[i].(state := Tombstone)]; NoDuplicates(t) && MapOf(t) == MapOf(s) - {k}
  {
    MapOfRepresents(s);
    BuryRemoves(s, MapOf(s), i, k);
    RepresentsOne(s[i := s[i].(state := Tombstone)], MapOf(s) - {k});
  }

  lemma CountIsSize<V>(s: Table<V>)
    requires NoDuplicates(s)
    ensures Count(s) == |MapOf(s)|
  {
    MapOfRepresents(s);
    CountIsKeys(s, MapOf(s));
  }
}

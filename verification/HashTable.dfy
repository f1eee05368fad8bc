/** The open-addressing hash map as an object. */
module HashTable {
  import opened Wrappers
  import opened PowersOfTwo
  import opened ProbeTable

  /** A tombstone lies on the path of `k` before the slot that holds it. */
  ghost predicate BehindTombstone<V>(s: Table<V>, hash: Hash, k: int)
    requires |s| > 0
  {
    exists i, j :: 0 <= i < |s| && Holds(s, i, k) && 0 <= j < Distance(Home(hash, k, |s|), i, |s|)
                   && s[Probe(Home(hash, k, |s|), j, |s|)].state == Tombstone
  }

  predicate Overloaded(count: nat, cap: nat) { 10 * count > 7 * cap }

  /** Where the probe of an insertion of `k` stops. */
  ghost predicate StopsAt<V>(s: Table<V>, hash: Hash, k: int, j: nat)
    requires |s| > 0
  {
    && j < |s| && Passed(s, k, Home(hash, k, |s|), j)
    && var i := Probe(Home(hash, k, |s|), j, |s|); s[i].state != Occupied || s[i].key == k
  }

  /** A free slot ends every such probe in time. */
  lemma ProbeStops<V>(s: Table<V>, hash: Hash, k: int, j: nat)
    requires |s| > 0 && Count(s) < |s| && j <= |s| && Passed(s, k, Home(hash, k, |s|), j)
    ensures j < |s|
  {
    CountBounds(s);
    var i :| 0 <= i < |s| && s[i].state != Occupied;
    var d := Distance(Home(hash, k, |s|), i, |s|);
    assert Probe(Home(hash, k, |s|), d, |s|) == i;
  }

  /** Where an insertion stops, without duplicates: at the key, if no tombstone hides it. */
  lemma StopsRight<V>(s: Table<V>, hash: Hash, k: int, j: nat)
    requires |s| > 0 && Reachable(s, hash) && NoDuplicates(s) && StopsAt(s, hash, k, j)
    requires Has(s, k)
    ensures Holds(s, Probe(Home(hash, k, |s|), j, |s|), k) <==> !BehindTombstone(s, hash, k)
    ensures !Holds(s, Probe(Home(hash, k, |s|), j, |s|), k) ==> s[Probe(Home(hash, k, |s|), j, |s|)].state == Tombstone
  {
    var home := Home(hash, k, |s|);
    var n :| 0 <= n < |s| && Holds(s, n, k);
    var d := Distance(home, n, |s|);
    var i := Probe(home, j, |s|);
    NowhereElse(s, n, k);
    if j < d {
      assert s[i].state != Empty;
      assert s[i].state == Tombstone;
      assert BehindTombstone(s, hash, k);
    } else {
      assert j == d;
      hide Home;
      forall m, q | 0 <= m < |s| && Holds(s, m, k) && 0 <= q < Distance(home, m, |s|)
        ensures s[Probe(home, q, |s|)].state != Tombstone
      {
        assert m == n;
      }
    }
  }

  /** Nothing is found where the probe of a search ends. */
  lemma SearchIsOver<V>(s: Table<V>, hash: Hash, k: int, j: nat)
    requires |s| > 0 && Reachable(s, hash) && j <= |s| && Missed(s, k, Home(hash, k, |s|), j)
    requires j == |s| || s[Probe(Home(hash, k, |s|), j, |s|)].state == Empty
    ensures !Has(s, k)
  {
    var home := Home(hash, k, |s|);
    forall i | 0 <= i < |s| ensures !Holds(s, i, k) {
      var d := Distance(home, i, |s|);
      assert Probe(home, d, |s|) == i;
    }
  }

  /** The probe of a search has met neither the key nor an empty slot in `j` slots. */
  predicate Missed<V>(s: Table<V>, k: int, home: nat, j: nat)
    requires home < |s| && j <= |s|
  {
    forall n :: 0 <= n < j ==> var i := Probe(home, n, |s|); s[i].state != Empty && !Holds(s, i, k)
  }

  lemma MissedNone<V>(s: Table<V>, k: int, home: nat)
    requires home < |s|
    ensures Missed(s, k, home, 0) && home == Probe(home, 0, |s|)
  {
  }

  lemma MissedOneMore<V>(s: Table<V>, k: int, home: nat, j: nat)
    requires home < |s| && j < |s| && Missed(s, k, home, j)
    requires s[Probe(home, j, |s|)].state != Empty && !Holds(s, Probe(home, j, |s|), k)
    ensures Missed(s, k, home, j + 1)
  {
  }

  /** The step to the next slot, as the program masks it. */
  lemma NextSlot(home: nat, j: nat, cap: nat)
    requires home < cap && j < cap && IsPowerOfTwo(cap)
    ensures And(Probe(home, j, cap) + 1, cap - 1) == if j + 1 < cap then Probe(home, j + 1, cap) else home
  {
    var e: nat :| cap == Pow2(e);
    MaskIsModulo(Probe(home, j, cap) + 1, e);
    var i := Probe(home, j, cap) + 1;
    if i == cap { ModuloIs(cap, cap, 1, 0); } else { SmallModulo(i, cap); }
  }

  lemma HomeIs(hash: Hash, k: int, cap: nat)
    requires IsPowerOfTwo(cap)
    ensures And(hash(k), cap - 1) == Home(hash, k, cap)
  {
    var e: nat :| cap == Pow2(e);
    MaskIsModulo(hash(k), e);
  }

  lemma DoubleIsPower(cap: nat)
    requires IsPowerOfTwo(cap)
    ensures IsPowerOfTwo(2 * cap)
  {
    var e: nat :| cap == Pow2(e);
    assert 2 * cap == Pow2(e + 1);
  }

  lemma AllEmpty<V>(s: Table<V>, hash: Hash)
    requires forall i :: 0 <= i < |s| ==> s[i].state == Empty
    ensures Count(s) == 0 && Reachable(s, hash) && NoDuplicates(s) && MapOf(s) == map[]
  {
    CountBounds(s);
    RepresentsOne(s, map[]);
  }

  /** `t` is `s` with the binding stored where the probe of `k` stops, after `j` other slots. */
  ghost predicate IsStored<V>(s: Table<V>, t: Table<V>, hash: Hash, k: int, v: V, j: nat) {
    |s| > 0 && StopsAt(s, hash, k, j) && t == s[Probe(Home(hash, k, |s|), j, |s|) := Slot(k, v, Occupied)]
  }

  lemma StoredIsValid<V>(s: Table<V>, hash: Hash, k: int, v: V, j: nat)
    requires |s| > 0 && Reachable(s, hash) && StopsAt(s, hash, k, j)
    ensures var i := Probe(Home(hash, k, |s|), j, |s|);
            && Reachable(s[i := Slot(k, v, Occupied)], hash)
            && Count(s[i := Slot(k, v, Occupied)]) == Count(s) + if s[i].state == Occupied then 0 else 1
  {
    hide Reachable, Home;
    StoreKeepsReachable(s, hash, k, v, j);
    CountAfter(s, Probe(Home(hash, k, |s|), j, |s|), Slot(k, v, Occupied));
  }

  /** An insertion is an update of the map exactly when no tombstone hides the key. */
  lemma StoredUpdates<V>(s: Table<V>, t: Table<V>, hash: Hash, k: int, v: V, j: nat)
    requires |s| > 0 && Reachable(s, hash) && IsStored(s, t, hash, k, v, j)
    ensures NoDuplicates(s) ==> (NoDuplicates(t) <==> !BehindTombstone(s, hash, k))
    ensures NoDuplicates(s) && NoDuplicates(t) ==> MapOf(t) == MapOf(s)[k := v]
    ensures NoTombstones(s) ==> !BehindTombstone(s, hash, k)
  {
    if NoDuplicates(s) {
      var i := Probe(Home(hash, k, |s|), j, |s|);
      if Has(s, k) {
        StopsRight(s, hash, k, j);
        if Holds(s, i, k) {
          StoreUpdatesMap(s, i, k, v);
        } else {
          var n :| 0 <= n < |s| && Holds(s, n, k);
          StoreDuplicates(s, i, n, k, v);
        }
      } else {
        assert !Holds(s, i, k);
        StoreUpdatesMap(s, i, k, v);
      }
    }
  }

  predicate NoTombstones<V>(s: Table<V>) { forall i :: 0 <= i < |s| ==> s[i].state != Tombstone }

  lemma NoneBehindTombstone<V>(s: Table<V>, hash: Hash, k: int)
    requires |s| > 0 && NoTombstones(s)
    ensures !BehindTombstone(s, hash, k)
  {
  }

  lemma StoredBuriesNone<V>(s: Table<V>, t: Table<V>, hash: Hash, k: int, v: V, j: nat)
    requires IsStored(s, t, hash, k, v, j) && NoTombstones(s)
    ensures NoTombstones(t)
  {
  }

  lemma Buried<V>(s: Table<V>, hash: Hash, i: nat, k: int)
    requires i < |s| && Reachable(s, hash) && Holds(s, i, k)
    ensures var t := s[i := s[i].(state := Tombstone)];
            && Reachable(t, hash) && Count(t) == Count(s) - 1 && Has(s, k)
            && (NoDuplicates(s) ==> NoDuplicates(t) && MapOf(t) == MapOf(s) - {k})
  {
    hide Reachable, MapOf;
    CountAfter(s, i, s[i].(state := Tombstone));
    BuryKeepsReachable(s, hash, i);
    if NoDuplicates(s) { BuryRemovesFromMap(s, i, k); }
  }

  /** Insert 1 and 2 into one chain, erase 1, insert 2 again: it is there twice, and erasing it brings
      its first value back. */
  lemma ErasedKeyComesBack<V>(blank: V, a: V, b: V, c: V)
    ensures var none := Slot(0, blank, Empty);
            var both := [Slot(1, a, Occupied), Slot(2, b, Occupied)];
            var buried := both[0 := Slot(1, a, Tombstone)];
            var twice := [Slot(2, c, Occupied), Slot(2, b, Occupied)];
            && IsStored([none, none], [Slot(1, a, Occupied), none], _ => 0, 1, a, 0)
            && IsStored([Slot(1, a, Occupied), none], both, _ => 0, 2, b, 1)
            && NoDuplicates(buried) && BehindTombstone(buried, _ => 0, 2)
            && IsStored(buried, twice, _ => 0, 2, c, 0) && Count(twice) == 2 && !NoDuplicates(twice)
            && Holds(twice[0 := Slot(2, c, Tombstone)], 1, 2) && twice[1].value == b
  {
    var none := Slot(0, blank, Empty);
    var both := [Slot(1, a, Occupied), Slot(2, b, Occupied)];
    var buried := both[0 := Slot(1, a, Tombstone)];
    var twice := [Slot(2, c, Occupied), Slot(2, b, Occupied)];
    assert [none, none][0 := Slot(1, a, Occupied)] == [Slot(1, a, Occupied), none];
    assert [Slot(1, a, Occupied), none][1 := Slot(2, b, Occupied)] == both;
    assert buried[0 := Slot(2, c, Occupied)] == twice;
    assert Home(_ => 0, 2, 2) == 0 && Probe(0, 0, 2) == 0 && Probe(0, 1, 2) == 1;
    assert Holds(buried, 1, 2) && Distance(0, 1, 2) == 1;
    assert twice[..1] == [twice[0]] && twice[..1][..0] == [];
    assert Count(twice[..1]) == Count(twice[..1][..0]) + 1 == 1;
    assert twice[0].key == twice[1].key;
  }

  method NextPow2(n: nat) returns (p: nat)
    ensures IsPowerOfTwo(p) && p >= n && (p > 1 ==> p / 2 < n)
  {
    p := 1;
    ghost var e: nat := 0;
    assert Pow2(0) == 1;
    while p < n
      invariant p == Pow2(e) && p > 0 && (p > 1 ==> p / 2 < n)
      decreases n - p
    {
      p := 2 * p;
      e := e + 1;
    }
  }

  class HashMap<V> {
    const hash: Hash
    var slots: array<Slot<V>>
    var count: nat

    ghost predicate Valid()
      reads this, slots
    {
      IsPowerOfTwo(slots.Length) && slots.Length > 0 && count == Count(slots[..]) && Reachable(slots[..], hash)
    }

    constructor (hash: Hash, capacity: nat, blank: V)
      ensures Valid() && fresh(slots) && this.hash == hash && count == 0 && NoDuplicates(slots[..]) && MapOf(slots[..]) == map[]
    {
      var p := NextPow2(capacity);
      this.hash := hash;
      slots := new Slot<V>[p](_ => Slot(0, blank, Empty));
      count := 0;
      new;
      AllEmpty(slots[..], hash);
    }

    /** The probe of an insertion. */
    method Seek(k: int) returns (i: nat, ghost j: nat)
      requires Valid() && count < slots.Length
      ensures StopsAt(slots[..], hash, k, j) && i == Probe(Home(hash, k, slots.Length), j, slots.Length)
    {
      var cap := slots.Length;
      HomeIs(hash, k, cap);
      i := And(hash(k), cap - 1);
      ghost var home := Home(hash, k, cap);
      j := 0;
      hide Home, And;
      while slots[i].state == Occupied && slots[i].key != k
        invariant j < cap && i == Probe(home, j, cap) && Passed(slots[..], k, home, j)
        decreases cap - j
      {
        NextSlot(home, j, cap);
        i := And(i + 1, cap - 1);
        ProbeStops(slots[..], hash, k, j + 1);
        j := j + 1;
      }
    }

    /** Without growth: the probe, then the store. */
    method Store(k: int, v: V)
      requires Valid() && count < slots.Length
      modifies this`count, slots
      ensures Valid() && old(count) <= count <= old(count) + 1
      ensures exists j :: IsStored(old(slots[..]), slots[..], hash, k, v, j)
    {
      var i, j := Seek(k);
      ghost var s := slots[..];
      StoredIsValid(s, hash, k, v, j);
      if slots[i].state == Occupied {
        slots[i] := slots[i].(value := v);
      } else {
        slots[i] := Slot(k, v, Occupied);
        count := count + 1;
      }
      assert slots[..] == s[i := Slot(k, v, Occupied)];
      assert IsStored(s, slots[..], hash, k, v, j);
    }

    method Insert(k: int, v: V)
      requires Valid()
      modifies this, slots
      ensures Valid() && (slots == old(slots) || fresh(slots)) && (slots != old(slots) <==> Overloaded(old(count), old(slots.Length)))
      ensures slots.Length == if 10 * old(count) > 7 * old(slots.Length) then 2 * old(slots.Length) else old(slots.Length)
      ensures !Overloaded(old(count), old(slots.Length)) ==> count <= old(count) + 1
      ensures !Overloaded(old(count), old(slots.Length)) ==> exists j :: IsStored(old(slots[..]), slots[..], hash, k, v, j)
      ensures NoDuplicates(old(slots[..])) ==>
                (NoDuplicates(slots[..]) <==> Overloaded(old(count), old(slots.Length)) || !BehindTombstone(old(slots[..]), hash, k))
      ensures NoDuplicates(old(slots[..])) && NoDuplicates(slots[..]) ==> MapOf(slots[..]) == MapOf(old(slots[..]))[k := v]
      decreases if Overloaded(count, slots.Length) then 2 else 0
    {
      hide BehindTombstone, MapOf, NoDuplicates, Reachable, IsStored;
      if Overloaded(count, slots.Length) {
        Rehash(slots.Length * 2);
      }
      ghost var s := slots[..];
      Store(k, v);
      ghost var j :| IsStored(s, slots[..], hash, k, v, j);
      StoredUpdates(s, slots[..], hash, k, v, j);
    }

    /** All bindings move to a table without tombstones; no nested insertion grows it again. Of a key
        that was there twice one remains: the one in the later slot. */
    method Rehash(cap: nat)
      requires Valid() && cap == 2 * slots.Length
      modifies this
      ensures Valid() && fresh(slots) && slots.Length == cap && count <= old(slots.Length) && NoTombstones(slots[..])
      ensures NoDuplicates(slots[..]) && MapOf(slots[..]) == MapOf(old(slots[..]))
      decreases 1
    {
      var before := slots;
      ghost var s := before[..];
      DoubleIsPower(before.Length);
      var blank := Slot(0, before[0].value, Empty);
      slots := new Slot<V>[cap](_ => blank);
      count := 0;
      AllEmpty(slots[..], hash);
      assert NoTombstones(slots[..]);
      hide BehindTombstone, NoDuplicates, Reachable, IsStored, NoTombstones, IsPowerOfTwo;
      for n := 0 to before.Length
        invariant Valid() && fresh(slots) && slots.Length == cap && slots != before && before[..] == s && count <= n
        invariant NoTombstones(slots[..]) && NoDuplicates(slots[..]) && MapOf(slots[..]) == MapOf(s[..n])
      {
        ghost var t := slots[..];
        assert s[..n + 1][..n] == s[..n];
        if before[n].state == Occupied {
          NoneBehindTombstone(t, hash, before[n].key);
          Insert(before[n].key, before[n].value);
          ghost var j :| IsStored(t, slots[..], hash, before[n].key, before[n].value, j);
          StoredBuriesNone(t, slots[..], hash, before[n].key, before[n].value, j);
        }
      }
      assert s[..before.Length] == s;
    }

    method Find(k: int) returns (v: Option<V>)
      requires Valid()
      ensures v.Some? <==> Has(slots[..], k)
      ensures v.Some? ==> exists i :: 0 <= i < slots.Length && Holds(slots[..], i, k) && slots[i].value == v.value
      ensures NoDuplicates(slots[..]) ==> v == if k in MapOf(slots[..]) then Some(MapOf(slots[..])[k]) else None
    {
      var cap := slots.Length;
      HomeIs(hash, k, cap);
      var i := And(hash(k), cap - 1);
      ghost var home := Home(hash, k, cap);
      var probes := 0;
      hide Home, And, Reachable, NoDuplicates, MapOf, Count, IsPowerOfTwo, Probe, Missed;
      MissedNone(slots[..], k, home);
      while slots[i].state != Empty && probes < cap
        invariant probes <= cap && i == (if probes < cap then Probe(home, probes, cap) else home)
        invariant Missed(slots[..], k, home, probes)
        decreases cap - probes
      {
        if slots[i].state == Occupied && slots[i].key == k {
          assert Holds(slots[..], i, k);
          if NoDuplicates(slots[..]) { KeyIsBound(slots[..], k); }
          return Some(slots[i].value);
        }
        MissedOneMore(slots[..], k, home, probes);
        NextSlot(home, probes, cap);
        i := And(i + 1, cap - 1);
        probes := probes + 1;
      }
      SearchIsOver(slots[..], hash, k, probes);
      if NoDuplicates(slots[..]) { KeyIsBound(slots[..], k); }
      return None;
    }

    method Erase(k: int) returns (found: bool)
      requires Valid()
      modifies this`count, slots
      ensures Valid() && found == Has(old(slots[..]), k) && count == old(count) - if found then 1 else 0
      ensures !found ==> slots[..] == old(slots[..])
      ensures NoDuplicates(old(slots[..])) ==> NoDuplicates(slots[..]) && MapOf(slots[..]) == MapOf(old(slots[..])) - {k}
    {
      var cap := slots.Length;
      HomeIs(hash, k, cap);
      var i := And(hash(k), cap - 1);
      ghost var home := Home(hash, k, cap);
      var probes := 0;
      ghost var s := slots[..];
      hide Home, And, Reachable, NoDuplicates, MapOf, Count, IsPowerOfTwo, Probe, Missed, Has;
      MissedNone(s, k, home);
      while slots[i].state != Empty && probes < cap
        invariant probes <= cap && i == (if probes < cap then Probe(home, probes, cap) else home)
        invariant slots[..] == s && count == Count(s) && Missed(s, k, home, probes)
        decreases cap - probes
      {
        if slots[i].state == Occupied && slots[i].key == k {
          Buried(s, hash, i, k);
          slots[i] := slots[i].(state := Tombstone);
          assert slots[..] == s[i := s[i].(state := Tombstone)];
          count := count - 1;
          return true;
        }
        MissedOneMore(slots[..], k, home, probes);
        NextSlot(home, probes, cap);
        i := And(i + 1, cap - 1);
        probes := probes + 1;
      }
      SearchIsOver(s, hash, k, probes);
      if NoDuplicates(s) { KeyIsBound(s, k); }
      return false;
    }
  }

}

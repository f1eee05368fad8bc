/** Leaf pages of a B+ tree: sorted bindings in an array, and the chain to the next leaf. */
module LeafPages {
  import opened Wrappers
  import opened InternalPages

  const INVALID_PAGE_ID: PageId := 0xFFFF_FFFF

  datatype Pair<V> = Pair(key: int, value: V)

  predicate Ascending<V>(s: seq<Pair<V>>) { forall i, j :: 0 <= i < j < |s| ==> s[i].key < s[j].key }

  /** How many keys lie below `key`: where it is, or belongs. */
  function Rank<V>(s: seq<Pair<V>>, key: int): (i: nat)
    ensures i <= |s|
  {
    if s == [] || s[|s| - 1].key < key then |s| else Rank(s[..|s| - 1], key)
  }

  predicate Bound<V>(s: seq<Pair<V>>, key: int) { Rank(s, key) < |s| && s[Rank(s, key)].key == key }

  function Find<V>(s: seq<Pair<V>>, key: int): Option<V> {
    if Bound(s, key) then Some(s[Rank(s, key)].value) else None
  }

  lemma {:induction false} RankSplits<V>(s: seq<Pair<V>>, key: int, i: nat)
    requires Ascending(s) && i <= |s|
    ensures Rank(s, key) == i <==> (i > 0 ==> s[i - 1].key < key) && (i < |s| ==> key <= s[i].key)
    decreases |s|
  {
    if s == [] {
    } else {
      var m := |s| - 1;
      if s[m].key < key {
        if i < m { assert s[i].key < s[m].key; }
      } else if i <= m {
        RankSplits(s[..m], key, i);
      }
    }
  }

  function Inserted<V>(s: seq<Pair<V>>, p: Pair<V>): seq<Pair<V>> {
    var i := Rank(s, p.key);
    s[..i] + [p] + s[i..]
  }

  function Removed<V>(s: seq<Pair<V>>, key: int): seq<Pair<V>>
    requires Bound(s, key)
  {
    var i := Rank(s, key);
    s[..i] + s[i + 1..]
  }

  lemma FindMeans<V>(s: seq<Pair<V>>, key: int, v: V)
    requires Ascending(s)
    ensures Find(s, key) == Some(v) <==> Pair(key, v) in s
  {
    RankSplits(s, key, Rank(s, key));
    if Pair(key, v) in s {
      var i :| 0 <= i < |s| && s[i] == Pair(key, v);
      if i > 0 { assert s[i - 1].key < s[i].key; }
      RankSplits(s, key, i);
    }
  }

  lemma InsertedAt<V>(s: seq<Pair<V>>, p: Pair<V>, j: nat)
    ensures |Inserted(s, p)| == |s| + 1
    ensures j <= |s| ==> var i := Rank(s, p.key); Inserted(s, p)[j] == if j < i then s[j] else if j == i then p else s[j - 1]
  {
  }

  lemma InsertAscends<V>(s: seq<Pair<V>>, p: Pair<V>, a: nat, b: nat)
    requires Ascending(s) && !Bound(s, p.key) && a < b <= |s|
    ensures |Inserted(s, p)| == |s| + 1 && Inserted(s, p)[a].key < Inserted(s, p)[b].key
  {
    var i := Rank(s, p.key);
    InsertedAt(s, p, a);
    InsertedAt(s, p, b);
    KeyAround(s, p.key, i, a);
    KeyAround(s, p.key, i, if b > 0 then b - 1 else 0);
    hide Inserted, Rank, Bound;
  }

  /** Inserting and removing change exactly one binding. */
  lemma InsertBinds<V>(s: seq<Pair<V>>, p: Pair<V>, q: Pair<V>)
    requires Ascending(s) && !Bound(s, p.key)
    ensures Ascending(Inserted(s, p)) && (q in Inserted(s, p) <==> q == p || q in s)
  {
    var i := Rank(s, p.key);
    assert q in s <==> q in s[..i] || q in s[i..] by { assert s == s[..i] + s[i..]; }
    assert |Inserted(s, p)| == |s| + 1;
    hide Rank, Bound;
    forall a, b | 0 <= a < b < |Inserted(s, p)| ensures Inserted(s, p)[a].key < Inserted(s, p)[b].key {
      hide Inserted;
      InsertAscends(s, p, a, b);
    }
  }

  lemma KeyAround<V>(s: seq<Pair<V>>, key: int, i: nat, j: nat)
    requires Ascending(s) && i <= |s| && !Bound(s, key) && i == Rank(s, key)
    ensures j < i ==> s[j].key < key
    ensures i <= j < |s| ==> key < s[j].key
  {
    RankSplits(s, key, i);
  }

  lemma RemoveUnbinds<V>(s: seq<Pair<V>>, key: int, q: Pair<V>)
    requires Ascending(s) && Bound(s, key)
    ensures Ascending(Removed(s, key)) && (q in Removed(s, key) <==> q.key != key && q in s)
  {
    var i, t := Rank(s, key), Removed(s, key);
    assert forall j {:trigger t[j]} :: 0 <= j < |t| ==> t[j] == s[if j < i then j else j + 1];
    if q in s && q.key != key {
      var j :| 0 <= j < |s| && s[j] == q;
      assert t[if j < i then j else j - 1] == q;
    }
    if q in t {
      var j :| 0 <= j < |t| && t[j] == q;
      assert s[if j < i then j else j + 1] == q;
    }
  }

  class LeafPage<V> {
    const id: PageId
    const pairs: array<Pair<V>>
    var size: nat
    var next: PageId

    predicate Valid()
      reads this
    {
      size <= pairs.Length
    }

    function View(): seq<Pair<V>>
      requires Valid()
      reads this, pairs
    {
      pairs[..size]
    }

    constructor (id: PageId, maxSize: nat, blank: V)
      ensures Valid() && fresh(pairs) && View() == [] && pairs.Length == maxSize && this.id == id && next == INVALID_PAGE_ID
    {
      this.id := id;
      pairs := new Pair<V>[maxSize](_ => Pair(0, blank));
      size, next := 0, INVALID_PAGE_ID;
    }

    method LowerBound(key: int) returns (i: nat)
      requires Valid() && Ascending(View())
      ensures i == Rank(View(), key)
    {
      var lo, hi := 0, size;
      while lo < hi
        invariant 0 <= lo <= hi <= size
        invariant forall n :: 0 <= n < lo ==> pairs[n].key < key
        invariant forall n :: hi <= n < size ==> key <= pairs[n].key
      {
        var mid := lo + (hi - lo) / 2;
        if pairs[mid].key < key {
          lo := mid + 1;
        } else {
          hi := mid;
        }
      }
      RankSplits(View(), key, lo);
      return lo;
    }

    method Lookup(key: int) returns (v: Option<V>)
      requires Valid() && Ascending(View())
      ensures v == Find(View(), key)
    {
      var i := LowerBound(key);
      if i != size && pairs[i].key == key {
        return Some(pairs[i].value);
      }
      return None;
    }

    /** Everything from `at` on moves one place up. */
    method ShiftUp(at: nat)
      requires Valid() && at <= size < pairs.Length
      modifies pairs
      ensures pairs[..at] == old(pairs[..at]) && pairs[at + 1..size + 1] == old(pairs[at..size])
    {
      ghost var s := View();
      var j := size;
      while j > at
        invariant at <= j <= size && size == |s|
        invariant forall n {:trigger pairs[n]} :: 0 <= n < j ==> pairs[n] == s[n]
        invariant forall n {:trigger pairs[n]} :: j < n <= size ==> pairs[n] == s[n - 1]
      {
        pairs[j] := pairs[j - 1];
        j := j - 1;
      }
    }

    /** Everything behind `at` moves one place down. */
    method ShiftDown(at: nat)
      requires Valid() && at < size
      modifies pairs
      ensures pairs[..at] == old(pairs[..at]) && pairs[at..size - 1] == old(pairs[at + 1..size])
    {
      ghost var s := View();
      var j := at + 1;
      while j < size
        invariant at < j <= size && size == |s|
        invariant forall n {:trigger pairs[n]} :: 0 <= n < at ==> pairs[n] == s[n]
        invariant forall n {:trigger pairs[n]} :: at <= n < j - 1 ==> pairs[n] == s[n + 1]
        invariant forall n {:trigger pairs[n]} :: j - 1 < n < size ==> pairs[n] == s[n]
      {
        pairs[j - 1] := pairs[j];
        j := j + 1;
      }
    }

    /** The page must have room. */
    method Insert(key: int, value: V) returns (ok: bool)
      requires Valid() && Ascending(View()) && size < pairs.Length
      modifies this`size, pairs
      ensures Valid() && ok == !Bound(old(View()), key)
      ensures View() == if ok then Inserted(old(View()), Pair(key, value)) else old(View())
    {
      var at := LowerBound(key);
      if at != size && pairs[at].key == key {
        return false;
      }
      StoreAt(at, Pair(key, value));
      return true;
    }

    method StoreAt(at: nat, p: Pair<V>)
      requires Valid() && at <= size < pairs.Length
      modifies this`size, pairs
      ensures Valid() && View() == old(View())[..at] + [p] + old(View())[at..]
    {
      ghost var s := View();
      ShiftUp(at);
      assert pairs[..at] == s[..at] && pairs[at + 1..size + 1] == s[at..];
      pairs[at] := p;
      size := size + 1;
      assert pairs[..size] == pairs[..at] + [pairs[at]] + pairs[at + 1..size];
    }

    method Remove(key: int) returns (ok: bool)
      requires Valid() && Ascending(View())
      modifies this`size, pairs
      ensures Valid() && ok == Bound(old(View()), key)
      ensures View() == if ok then Removed(old(View()), key) else old(View())
    {
      var at := LowerBound(key);
      if at == size || pairs[at].key != key {
        return false;
      }
      ghost var s := View();
      hide Rank, Ascending;
      ShiftDown(at);
      assert pairs[..at] == s[..at] && pairs[at..size - 1] == s[at + 1..];
      size := size - 1;
      assert pairs[..size] == pairs[..at] + pairs[at..size];
      return true;
    }

    /** The new right sibling must be empty; it enters the chain after this page. */
    method MoveHalfTo(recipient: LeafPage<V>)
      requires Valid() && recipient.Valid() && recipient != this && recipient.pairs != pairs
      requires recipient.size == 0 && size <= recipient.pairs.Length
      modifies this`size, this`next, recipient`size, recipient`next, recipient.pairs
      ensures Valid() && recipient.Valid() && |View()| == |old(View())| / 2 && View() + recipient.View() == old(View())
      ensures next == recipient.id && recipient.next == old(next)
    {
      ghost var s := View();
      var half := size / 2;
      var count := size - half;
      for n := 0 to count
        invariant size == |s| && View() == s && recipient.size == 0 && next == old(next)
        invariant forall m {:trigger recipient.pairs[m]} :: 0 <= m < n ==> recipient.pairs[m] == s[half + m]
      {
        recipient.pairs[n] := pairs[half + n];
      }
      recipient.size := recipient.size + count;
      recipient.next := next;
      next := recipient.id;
      size := half;
      assert recipient.View() == s[half..];
    }

    method MoveAllTo(recipient: LeafPage<V>)
      requires Valid() && recipient.Valid() && recipient != this && recipient.pairs != pairs
      requires recipient.size + size <= recipient.pairs.Length
      modifies this`size, recipient`size, recipient`next, recipient.pairs
      ensures Valid() && recipient.Valid() && View() == [] && recipient.View() == old(recipient.View()) + old(View())
      ensures recipient.next == next
    {
      ghost var s, t := View(), recipient.View();
      var base := recipient.size;
      for n := 0 to size
        invariant size == |s| && View() == s && recipient.size == base == |t| && next == old(next)
        invariant forall m {:trigger recipient.pairs[m]} :: 0 <= m < base ==> recipient.pairs[m] == t[m]
        invariant forall m {:trigger recipient.pairs[m]} :: base <= m < base + n ==> recipient.pairs[m] == s[m - base]
      {
        recipient.pairs[base + n] := pairs[n];
      }
      recipient.size := recipient.size + size;
      recipient.next := next;
      size := 0;
      assert recipient.View() == t + s;
    }
  }

  /** Splitting a leaf and merging it again restores its bindings and the chain. */
  method SplitAndMerge<V>(page: LeafPage<V>, spare: LeafPage<V>)
    requires page.Valid() && spare.Valid() && spare != page && spare.pairs != page.pairs
    requires spare.size == 0 && page.size <= spare.pairs.Length
    modifies page`size, page`next, page.pairs, spare`size, spare`next, spare.pairs
    ensures page.Valid() && page.View() == old(page.View()) && page.next == old(page.next)
  {
    page.MoveHalfTo(spare);
    spare.MoveAllTo(page);
  }
}

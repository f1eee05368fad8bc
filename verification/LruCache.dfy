/** The cache as the program keeps it: a doubly linked list between two sentinels, and a dictionary. */
module LruCache {
  import opened Recency

  class Node {
    var key: int
    var value: int
    var prev: Node?
    var next: Node?

    constructor (key: int, value: int)
      ensures this.key == key && this.value == value
    {
      this.key, this.value, prev, next := key, value, null, null;
    }
  }

  ghost predicate Linked(chain: seq<Node>)
    reads chain
  {
    forall i :: 0 <= i < |chain| - 1 ==> chain[i].next == chain[i + 1] && chain[i + 1].prev == chain[i]
  }

  ghost predicate Distinct(chain: seq<Node>) { forall i, j :: 0 <= i < j < |chain| ==> chain[i] != chain[j] }

  /** The nodes between the sentinels carry the bindings. */
  ghost predicate Carries(chain: seq<Node>, recent: seq<Entry>)
    reads chain
  {
    |chain| == |recent| + 2 && forall i :: 0 <= i < |recent| ==> recent[i] == (chain[i + 1].key, chain[i + 1].value)
  }

  ghost predicate Indexed(chain: seq<Node>, recent: seq<Entry>, cache: map<int, Node>)
  {
    && |chain| == |recent| + 2
    && (forall i :: 0 <= i < |recent| ==> recent[i].0 in cache && cache[recent[i].0] == chain[i + 1])
    && (forall k :: k in cache ==> Holds(recent, k))
  }

  class LRUCache {
    const capacity: nat
    var cache: map<int, Node>
    const head: Node
    const tail: Node
    ghost var chain: seq<Node>
    ghost var recent: seq<Entry>

    ghost predicate Valid()
      reads this, chain
    {
      Framed() && Linked(chain) && Carries(chain, recent) && |recent| <= capacity
    }

    /** The list and the dictionary hold the same nodes. */
    ghost predicate Framed()
      reads this
    {
      && |chain| == |recent| + 2 && chain[0] == head && chain[|chain| - 1] == tail
      && Distinct(chain) && Indexed(chain, recent, cache) && DistinctKeys(recent)
    }

    constructor (capacity: nat)
      ensures Valid() && recent == [] && this.capacity == capacity && fresh(chain)
    {
      this.capacity := capacity;
      cache := map[];
      var h := new Node(0, 0);
      var t := new Node(0, 0);
      head, tail := h, t;
      chain, recent := [h, t], [];
      new;
      head.next := tail;
      tail.prev := head;
    }

    /** Takes a node out of the list. */
    method Remove(node: Node, ghost list: seq<Node>, ghost p: nat, ghost left: Node, ghost right: Node)
      requires 0 < p < |list| - 1 && list[p] == node && Linked(list) && Distinct(list)
      requires left == list[p - 1] && right == list[p + 1]
      modifies left`next, right`prev
      ensures Linked(Cut(list, p))
    {
      assert list[p - 1].next == list[p] && list[p].prev == list[p - 1];
      assert list[p].next == list[p + 1] && list[p + 1].prev == list[p];
      var before := node.prev;
      var after := node.next;
      before.next := after;
      after.prev := before;
      ghost var cut := Cut(list, p);
      forall i | 0 <= i < |cut| - 1 ensures cut[i].next == cut[i + 1] && cut[i + 1].prev == cut[i] {
        if i < p - 1 {
          assert list[i] != list[p - 1] && list[i + 1] != list[p + 1];
        } else if i > p - 1 {
          assert list[i + 1] != list[p - 1] && list[i + 2] != list[p + 1];
        }
      }
    }

    /** Puts a node at the most recently used end. */
    method InsertToTail(node: Node, ghost list: seq<Node>, ghost left: Node)
      requires |list| >= 2 && left == list[|list| - 2] && list[|list| - 1] == tail && Linked(list) && Distinct(list) && node !in list
      modifies left`next, node`prev, node`next, tail`prev
      ensures Linked(Appended(list, node))
    {
      ghost var n := |list|;
      assert list[n - 2].next == list[n - 1] && list[n - 1].prev == list[n - 2];
      var before := tail.prev;
      before.next := node;
      node.prev := before;
      node.next := tail;
      tail.prev := node;
      ghost var more := Appended(list, node);
      forall i | 0 <= i < |more| - 1 ensures more[i].next == more[i + 1] && more[i + 1].prev == more[i] {
        if i < n - 2 {
          assert list[i] != list[n - 2] && list[i + 1] != list[n - 1];
        }
      }
    }

    /** The node of the `i`-th binding goes to the most recently used end; its value may have changed. */
    method Use(node: Node, ghost i: nat, ghost e: Entry)
      requires Framed() && Linked(chain) && 0 < capacity && |recent| <= capacity
      requires i < |recent| && node == chain[i + 1] && e == (node.key, node.value) && e.0 == recent[i].0
      requires forall j :: 0 <= j < |recent| && j != i ==> recent[j] == (chain[j + 1].key, chain[j + 1].value)
      modifies this`chain, this`recent, chain
      ensures Valid() && recent == Without(old(recent), i) + [e]
      ensures node.key == old(node.key) && node.value == old(node.value)
    {
      hide Without, IndexOf, Holds, Cut, Appended, ToEnd, Indexed, Distinct, DistinctKeys, Linked;
      CutParts(chain, i + 1);
      ToEndNodes(chain, i);
      ToEndEntries(recent, i, e);
      ToEndIndexed(chain, recent, cache, i, e);
      ghost var rest := Cut(chain, i + 1);
      ghost var left := rest[|rest| - 2];
      assert left in rest && tail in rest;
      Remove(node, chain, i + 1, chain[i], chain[i + 2]);
      InsertToTail(node, rest, left);
      ToEndIs(chain, i);
      chain := ToEnd(chain, i);
      recent := Without(recent, i) + [e];
    }

    method Get(key: int) returns (value: int)
      requires Valid()
      modifies this, chain
      ensures Valid()
      ensures value == Found(old(recent), key) && recent == Touched(old(recent), key)
    {
      if key !in cache {
        return -1;
      }
      var node := cache[key];
      Use(node, IndexOf(recent, key), (node.key, node.value));
      return node.value;
    }

    /** Drops the least recently used node. */
    method Evict()
      requires Valid() && recent != []
      modifies this`chain, this`recent, this`cache, chain
      ensures Valid() && recent == old(recent)[1..] && cache == old(cache) - {old(recent)[0].0}
      ensures chain == Cut(old(chain), 1)
    {
      assert chain[0].next == chain[1];
      var lru := head.next;
      FirstDropped(chain, recent, cache);
      CutParts(chain, 1);
      Remove(lru, chain, 1, chain[0], chain[2]);
      cache := cache - {lru.key};
      chain := Cut(chain, 1);
      recent := recent[1..];
    }

    method Put(key: int, value: int) returns (failed: bool)
      requires Valid()
      modifies this, chain
      ensures failed <==> capacity == 0
      ensures !failed ==> Valid() && recent == Stored(old(recent), key, value, capacity)
      ensures failed ==> cache == old(cache) == map[]
    {
      if key in cache {
        var node := cache[key];
        ghost var i := IndexOf(recent, key);
        node.value := value;
        Use(node, i, (key, value));
        return false;
      }
      CacheSize(chain, recent, cache);
      if capacity == 0 {
        // the node to evict is the last sentinel: unlinking it stops half-way
        head.next := tail.next;
        return true;
      }
      Admit(key, value);
      return false;
    }

    /** A key that is not there yet: a full cache makes room first. */
    method Admit(key: int, value: int)
      requires Valid() && key !in cache && |cache| == |recent| && capacity > 0
      modifies this, chain
      ensures Valid() && recent == Stored(old(recent), key, value, capacity)
    {
      if |cache| == capacity {
        Evict();
      }
      var node := new Node(key, value);
      Add(node);
    }

    method Add(node: Node)
      requires Valid() && |recent| < capacity && node !in chain && node.key !in cache
      modifies this`chain, this`recent, this`cache, chain, node`prev, node`next
      ensures Valid() && recent == old(recent) + [(node.key, node.value)]
    {
      ghost var e := (node.key, node.value);
      LastAdded(chain, recent, cache, node, e);
      InsertToTail(node, chain, chain[|chain| - 2]);
      cache := cache[node.key := node];
      chain := Appended(chain, node);
      recent := recent + [e];
    }
  }

  /** A full cache drops the node after the first sentinel. */
  lemma FirstDropped(list: seq<Node>, s: seq<Entry>, cache: map<int, Node>)
    requires s != [] && DistinctKeys(s) && Distinct(list) && Indexed(list, s, cache)
    ensures Indexed(Cut(list, 1), s[1..], cache - {s[0].0}) && DistinctKeys(s[1..])
    ensures forall k :: Holds(s[1..], k) <==> Holds(s, k) && k != s[0].0
  {
    forall k ensures Holds(s[1..], k) <==> Holds(s, k) && k != s[0].0 {
      if Holds(s[1..], k) { HoldsAt(s, IndexOf(s[1..], k) + 1); }
      if Holds(s, k) && k != s[0].0 { HoldsAt(s[1..], IndexOf(s, k) - 1); }
    }
    hide Holds;
    var cut := Cut(list, 1);
    assert forall j :: 0 <= j < |cut| ==> cut[j] == list[if j < 1 then j else j + 1];
  }

  /** A new node joins at the most recently used end. */
  lemma LastAdded(list: seq<Node>, s: seq<Entry>, cache: map<int, Node>, node: Node, e: Entry)
    requires DistinctKeys(s) && Distinct(list) && Indexed(list, s, cache) && e.0 !in cache && node !in list
    ensures Indexed(Appended(list, node), s + [e], cache[e.0 := node]) && DistinctKeys(s + [e]) && Distinct(Appended(list, node))
    ensures var t := Appended(list, node);
            && |t| == |list| + 1 && t[0] == list[0] && t[|t| - 1] == list[|list| - 1] && t[|t| - 2] == node
            && forall j :: 0 <= j < |list| - 1 ==> t[j] == list[j]
  {
    forall k | k in cache[e.0 := node] ensures Holds(s + [e], k) {
      HoldsAt(s + [e], if k == e.0 then |s| else IndexOf(s, k));
    }
    forall i | 0 <= i < |s| ensures s[i].0 != e.0 { assert s[i].0 in cache; }
    hide Holds;
  }

  lemma {:induction false} CacheSize(list: seq<Node>, s: seq<Entry>, cache: map<int, Node>)
    requires DistinctKeys(s) && Distinct(list) && Indexed(list, s, cache)
    ensures |cache| == |s|
    decreases |s|
  {
    if s == [] {
      forall k ensures k !in cache {
        assert !Holds(s, k);
      }
      assert cache == map[];
    } else {
      FirstDropped(list, s, cache);
      CutParts(list, 1);
      CacheSize(Cut(list, 1), s[1..], cache - {s[0].0});
      assert cache.Keys == (cache - {s[0].0}).Keys + {s[0].0};
    }
  }

  function Cut(list: seq<Node>, p: nat): seq<Node>
    requires p < |list|
  {
    list[..p] + list[p + 1..]
  }

  /** Before the sentinel at the end. */
  function Appended(list: seq<Node>, node: Node): seq<Node>
    requires list != []
  {
    list[..|list| - 1] + [node, list[|list| - 1]]
  }

  /** The node of the `i`-th binding moved to the end. */
  function ToEnd(list: seq<Node>, i: nat): seq<Node>
    requires i + 2 < |list|
  {
    Appended(Cut(list, i + 1), list[i + 1])
  }

  lemma ToEndIs(list: seq<Node>, i: nat)
    requires i + 2 < |list|
    ensures ToEnd(list, i) == Appended(Cut(list, i + 1), list[i + 1])
  {
  }

  lemma CutParts(list: seq<Node>, p: nat)
    requires 0 < p < |list| - 1 && Distinct(list)
    ensures |Cut(list, p)| == |list| - 1 && Distinct(Cut(list, p)) && list[p] !in Cut(list, p)
    ensures Cut(list, p)[0] == list[0] && Cut(list, p)[|list| - 2] == list[|list| - 1]
    ensures forall n :: n in Cut(list, p) ==> n in list
  {
    var cut := Cut(list, p);
    assert forall i :: 0 <= i < |cut| ==> cut[i] == list[if i < p then i else i + 1];
  }

  lemma ToEndNodes(list: seq<Node>, i: nat)
    requires i + 2 < |list| && Distinct(list)
    ensures var t := ToEnd(list, i);
            && |t| == |list| && t[0] == list[0] && t[|t| - 1] == list[|list| - 1] && t[|t| - 2] == list[i + 1]
            && (forall j :: 1 <= j < i + 1 ==> t[j] == list[j]) && (forall j :: i + 1 <= j < |t| - 2 ==> t[j] == list[j + 1])
            && Distinct(t)
  {
  }

  lemma ToEndEntries(s: seq<Entry>, i: nat, e: Entry)
    requires i < |s| && DistinctKeys(s) && e.0 == s[i].0
    ensures var t := Without(s, i) + [e];
            && |t| == |s| && t[|t| - 1] == e && DistinctKeys(t)
            && (forall j :: 0 <= j < i ==> t[j] == s[j]) && (forall j :: i <= j < |t| - 1 ==> t[j] == s[j + 1])
            && forall k :: Holds(s, k) <==> Holds(t, k)
  {
    var t := Without(s, i) + [e];
    assert forall j :: 0 <= j < |t| - 1 ==> t[j] == s[if j < i then j else j + 1];
    forall k ensures Holds(s, k) <==> Holds(t, k) {
      var p, q := IndexOf(s, k), IndexOf(t, k);
      if p < |s| { HoldsAt(t, if p < i then p else if p == i then |t| - 1 else p - 1); }
      if q < |t| { HoldsAt(s, if q < i then q else if q == |t| - 1 then i else q + 1); }
    }
  }

  lemma ToEndIndexed(list: seq<Node>, s: seq<Entry>, cache: map<int, Node>, i: nat, e: Entry)
    requires i < |s| && DistinctKeys(s) && e.0 == s[i].0 && Distinct(list) && Indexed(list, s, cache)
    ensures Indexed(ToEnd(list, i), Without(s, i) + [e], cache)
  {
    ToEndNodes(list, i);
    ToEndEntries(s, i, e);
    hide Without, ToEnd, Holds;
    var t, n := Without(s, i) + [e], ToEnd(list, i);
    forall j | 0 <= j < |t| ensures t[j].0 in cache && cache[t[j].0] == n[j + 1] {
      var was := if j < i then j else if j == |t| - 1 then i else j + 1;
      assert t[j].0 == s[was].0 && n[j + 1] == list[was + 1];
    }
  }

  lemma {:induction false} HoldsAt(s: seq<Entry>, i: nat)
    requires i < |s|
    ensures Holds(s, s[i].0)
    decreases |s|
  {
    if s[0].0 != s[i].0 {
      HoldsAt(s[1..], i - 1);
    }
  }
}

/** The descent from the root page to the leaf that is responsible for a key. */
module BPlusTree {
  import opened Wrappers
  import opened InternalPages
  import opened LeafPages

  datatype Page<V> = Leaf(pairs: seq<Pair<V>>) | Inner(entries: Entries)

  type Store<V> = map<PageId, Page<V>>

  /** The keys a page is responsible for; `None` is no limit. */
  datatype Range = Range(low: Option<int>, high: Option<int>)

  predicate Within(r: Range, key: int) {
    (r.low.Some? ==> r.low.value <= key) && (r.high.Some? ==> key < r.high.value)
  }

  /** The part of the range that entry `i` covers. */
  function Part(s: Entries, r: Range, i: nat): Range
    requires i < |s|
  {
    Range(if i > 0 then Some(s[i].key) else r.low, if i + 1 < |s| then Some(s[i + 1].key) else r.high)
  }

  /** The page `id` is the root of a tree of `height` levels below it, in order and within its range. */
  predicate WellFormed<V>(pages: Store<V>, id: PageId, height: nat, r: Range)
    decreases height
  {
    && id in pages
    && match pages[id]
       case Leaf(pairs) => height == 0 && Ascending(pairs) && forall i :: 0 <= i < |pairs| ==> Within(r, pairs[i].key)
       case Inner(entries) =>
         && height > 0 && entries != [] && Sorted(entries)
         && (forall i :: 0 < i < |entries| ==> Within(r, entries[i].key))
         && forall i :: 0 <= i < |entries| ==> WellFormed(pages, entries[i].child, height - 1, Part(entries, r, i))
  }

  /** Some leaf below `id` holds the binding. */
  predicate Binds<V(==)>(pages: Store<V>, id: PageId, height: nat, p: Pair<V>)
    decreases height
  {
    && id in pages
    && match pages[id]
       case Leaf(pairs) => p in pairs
       case Inner(entries) => height > 0 && exists i :: 0 <= i < |entries| && Binds(pages, entries[i].child, height - 1, p)
  }

  lemma ChildOf<V>(pages: Store<V>, id: PageId, height: nat, r: Range, i: nat)
    requires WellFormed(pages, id, height, r) && pages[id].Inner? && i < |pages[id].entries|
    ensures var s := pages[id].entries;
            && height > 0 && Sorted(s) && WellFormed(pages, s[i].child, height - 1, Part(s, r, i))
            && (i > 0 ==> Within(r, s[i].key)) && (i + 1 < |s| ==> Within(r, s[i + 1].key))
  {
    hide Part, Within;
  }

  lemma PartIsWithin(s: Entries, r: Range, i: nat, key: int)
    requires i < |s| && Within(Part(s, r, i), key)
    requires (i > 0 ==> Within(r, s[i].key)) && (i + 1 < |s| ==> Within(r, s[i + 1].key))
    ensures Within(r, key)
  {
  }

  lemma BindsBelow<V>(pages: Store<V>, id: PageId, height: nat, p: Pair<V>) returns (i: nat)
    requires id in pages && pages[id].Inner? && Binds(pages, id, height, p)
    ensures height > 0 && i < |pages[id].entries| && Binds(pages, pages[id].entries[i].child, height - 1, p)
  {
    i :| 0 <= i < |pages[id].entries| && Binds(pages, pages[id].entries[i].child, height - 1, p);
  }

  lemma {:induction false} BindingsLieWithin<V>(pages: Store<V>, id: PageId, height: nat, r: Range, p: Pair<V>)
    requires WellFormed(pages, id, height, r) && Binds(pages, id, height, p)
    ensures Within(r, p.key)
    decreases height
  {
    if pages[id].Inner? {
      hide WellFormed, Binds, Within, Part;
      InPages(pages, id, height, r);
      var i := BindsBelow(pages, id, height, p);
      ChildOf(pages, id, height, r, i);
      BindingsLieWithin(pages, pages[id].entries[i].child, height - 1, Part(pages[id].entries, r, i), p);
      PartIsWithin(pages[id].entries, r, i, p.key);
    } else {
      var i :| 0 <= i < |pages[id].pairs| && pages[id].pairs[i] == p;
    }
  }

  lemma InPages<V>(pages: Store<V>, id: PageId, height: nat, r: Range)
    requires WellFormed(pages, id, height, r)
    ensures id in pages
  {
  }

  /** Only the child that a key is routed to can hold it. */
  lemma OnlyThatChild<V>(pages: Store<V>, id: PageId, height: nat, r: Range, p: Pair<V>)
    requires WellFormed(pages, id, height, r) && pages[id].Inner?
    ensures Binds(pages, id, height, p) <==> Binds(pages, Route(pages[id].entries, p.key), height - 1, p)
  {
    var entries := pages[id].entries;
    var n := RouteIndex(entries, p.key);
    forall i | 0 <= i < |entries| && Binds(pages, entries[i].child, height - 1, p) ensures i == n {
      ChildIsTheOneThatCovers(pages, id, height, r, p, i);
    }
  }

  lemma ChildIsTheOneThatCovers<V>(pages: Store<V>, id: PageId, height: nat, r: Range, p: Pair<V>, i: nat)
    requires WellFormed(pages, id, height, r) && pages[id].Inner? && height > 0 && i < |pages[id].entries|
    requires Binds(pages, pages[id].entries[i].child, height - 1, p)
    ensures i == RouteIndex(pages[id].entries, p.key)
  {
    ChildOf(pages, id, height, r, i);
    hide WellFormed, Binds, Sorted;
    var entries := pages[id].entries;
    BindingsLieWithin(pages, entries[i].child, height - 1, Part(entries, r, i), p);
    RouteIsTheOneThatCovers(entries, p.key, i);
  }

  /** The descent ends, at a leaf, and that leaf answers for the whole tree. */
  method FindLeafPage<V>(pages: Store<V>, root: PageId, key: int, ghost height: nat) returns (leaf: Option<PageId>)
    requires root != INVALID_PAGE_ID ==> WellFormed(pages, root, height, Range(None, None))
    ensures leaf.None? <==> root == INVALID_PAGE_ID
    ensures leaf.Some? ==> leaf.value in pages && pages[leaf.value].Leaf? && Ascending(pages[leaf.value].pairs)
    ensures leaf.Some? ==> forall v :: Binds(pages, root, height, Pair(key, v)) <==> Find(pages[leaf.value].pairs, key) == Some(v)
  {
    if root == INVALID_PAGE_ID {
      return None;
    }
    var current := root;
    ghost var level, r := height, Range(None, None);
    while pages[current].Inner?
      invariant WellFormed(pages, current, level, r)
      invariant forall v :: Binds(pages, root, height, Pair(key, v)) <==> Binds(pages, current, level, Pair(key, v))
      decreases level
    {
      var entries := pages[current].entries;
      var next := Route(entries, key);
      forall v ensures Binds(pages, current, level, Pair(key, v)) <==> Binds(pages, next, level - 1, Pair(key, v)) {
        OnlyThatChild(pages, current, level, r, Pair(key, v));
      }
      r := Part(entries, r, RouteIndex(entries, key));
      level := level - 1;
      current := next;
    }
    forall v ensures Binds(pages, current, level, Pair(key, v)) <==> Find(pages[current].pairs, key) == Some(v) {
      FindMeans(pages[current].pairs, key, v);
    }
    return Some(current);
  }
}

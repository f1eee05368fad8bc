/** Inner pages of a B+ tree: an array of separator keys and children, edited in place. */
module InternalPages {
  type PageId = nat

  /** The key of the first entry of a page is not used. */
  datatype Mapping = Mapping(key: int, child: PageId)

  type Entries = seq<Mapping>

  predicate Sorted(s: Entries) { forall i, j :: 0 < i < j < |s| ==> s[i].key < s[j].key }

  /** The entry whose child covers `key`: the last one whose key is not above it. */
  function RouteIndex(s: Entries, key: int): (i: nat)
    requires s != []
    ensures i < |s|
  {
    if |s| == 1 || s[|s| - 1].key <= key then |s| - 1 else RouteIndex(s[..|s| - 1], key)
  }

  function Route(s: Entries, key: int): PageId
    requires s != []
  {
    s[RouteIndex(s, key)].child
  }

  predicate Covers(s: Entries, i: nat, key: int)
    requires i < |s|
  {
    (i > 0 ==> s[i].key <= key) && (i + 1 < |s| ==> key < s[i + 1].key)
  }

  lemma {:induction false} RouteIsTheOneThatCovers(s: Entries, key: int, i: nat)
    requires s != [] && Sorted(s) && i < |s|
    ensures RouteIndex(s, key) == i <==> Covers(s, i, key)
    decreases |s|
  {
    var m := |s| - 1;
    if m > 0 && key < s[m].key {
      var t := s[..m];
      if i < m {
        RouteIsTheOneThatCovers(t, key, i);
      }
    } else if 0 < m && i < m {
      assert s[i + 1].key <= s[m].key;
    }
  }

  function Without(s: Entries, i: nat): Entries
    requires i < |s|
  {
    s[..i] + s[i + 1..]
  }

  function InsertedAfter(s: Entries, i: nat, e: Mapping): Entries
    requires i < |s|
  {
    s[..i + 1] + [e] + s[i + 1..]
  }

  /** Lower and upper half of a split; the key between them goes to the parent. */
  function LeftHalf(s: Entries): Entries { s[..|s| / 2] }

  function Joined(left: Entries, key: int, right: Entries): Entries
    requires right != []
  {
    left + [Mapping(key, right[0].child)] + right[1..]
  }

  // ---- what the edits mean for routing -----------------------------------------------------

  lemma JoinedParts(left: Entries, key: int, right: Entries)
    requires left != [] && right != [] && Sorted(Joined(left, key, right))
    ensures var all := Joined(left, key, right);
            && |all| == |left| + |right| && all[|left|] == Mapping(key, right[0].child)
            && (forall i :: 0 <= i < |left| ==> all[i] == left[i])
            && (forall i :: |left| < i < |all| ==> all[i] == right[i - |left|])
    ensures Sorted(left) && Sorted(right) && (forall i :: 0 < i < |left| ==> left[i].key < key)
    ensures forall i :: 0 < i < |right| ==> key < right[i].key
  {
    var all := Joined(left, key, right);
    forall i | 0 < i < |right| ensures right[i] == all[|left| + i] && key < right[i].key {
      assert all[|left|].key < all[|left| + i].key;
    }
    forall i, j | 0 < i < j < |right| ensures right[i].key < right[j].key {
      assert all[|left| + i].key < all[|left| + j].key;
    }
    forall i | 0 < i < |left| ensures left[i].key < key {
      assert all[i].key < all[|left|].key;
    }
  }

  /** Joining two pages around a key routes below the key by the left page, from it on by the right. */
  lemma JoinRoutes(left: Entries, key: int, right: Entries, k: int)
    requires left != [] && right != [] && Sorted(Joined(left, key, right))
    ensures Sorted(left) && Sorted(right)
    ensures Route(Joined(left, key, right), k) == if k < key then Route(left, k) else Route(right, k)
  {
    JoinedParts(left, key, right);
    var all := Joined(left, key, right);
    hide RouteIndex, Joined, Sorted;
    if k < key {
      var i := RouteIndex(left, k);
      RouteIsTheOneThatCovers(left, k, i);
      RouteIsTheOneThatCovers(all, k, i);
    } else {
      var i := RouteIndex(right, k);
      RouteIsTheOneThatCovers(right, k, i);
      RouteIsTheOneThatCovers(all, k, |left| + i);
    }
  }

  lemma InsertedAt(s: Entries, i: nat, e: Mapping, j: nat)
    requires i < |s|
    ensures |InsertedAfter(s, i, e)| == |s| + 1
    ensures j <= |s| ==> InsertedAfter(s, i, e)[j] == if j <= i then s[j] else if j == i + 1 then e else s[j - 1]
  {
  }

  lemma InsertedIs(s: Entries, i: nat, e: Mapping, t: Entries)
    requires i < |s| && |t| == |s| + 1 && t[i + 1] == e
    requires forall n :: 0 <= n <= i ==> t[n] == s[n]
    requires forall n :: i + 1 < n <= |s| ==> t[n] == s[n - 1]
    ensures t == InsertedAfter(s, i, e)
  {
  }

  lemma InsertedOrder(s: Entries, i: nat, e: Mapping)
    requires i < |s| && Sorted(InsertedAfter(s, i, e))
    ensures Sorted(s) && (i > 0 ==> s[i].key < e.key) && (i + 1 < |s| ==> e.key < s[i + 1].key)
  {
    var t := InsertedAfter(s, i, e);
    if i + 1 < |s| { assert t[i + 1].key < t[i + 2].key; }
    if i > 0 { assert t[i].key < t[i + 1].key; }
    forall p, q | 0 < p < q < |s| ensures s[p].key < s[q].key {
      assert t[if p <= i then p else p + 1].key < t[if q <= i then q else q + 1].key;
    }
  }

  /** A new separator after entry `i` sends the upper part of what entry `i` covered to the new child. */
  lemma InsertRoutes(s: Entries, i: nat, e: Mapping, k: int)
    requires i < |s| && Sorted(InsertedAfter(s, i, e))
    ensures Sorted(s)
    ensures Route(InsertedAfter(s, i, e), k) == if RouteIndex(s, k) == i && e.key <= k then e.child else Route(s, k)
  {
    InsertedOrder(s, i, e);
    var t, r := InsertedAfter(s, i, e), RouteIndex(s, k);
    hide RouteIndex, Sorted, InsertedAfter, Covers;
    var now := if r > i || (r == i && e.key <= k) then r + 1 else r;
    RouteIsTheOneThatCovers(s, k, r);
    InsertedAt(s, i, e, now);
    InsertedCovers(s, i, e, r, k);
    RouteIsTheOneThatCovers(t, k, now);
  }

  lemma InsertedCovers(s: Entries, i: nat, e: Mapping, r: nat, k: int)
    requires i < |s| && r < |s| && Covers(s, r, k)
    requires (i > 0 ==> s[i].key < e.key) && (i + 1 < |s| ==> e.key < s[i + 1].key)
    ensures var now := if r > i || (r == i && e.key <= k) then r + 1 else r;
            now < |InsertedAfter(s, i, e)| && Covers(InsertedAfter(s, i, e), now, k)
  {
    InsertedAt(s, i, e, r);
    InsertedAt(s, i, e, r + 1);
    InsertedAt(s, i, e, r + 2);
    hide InsertedAfter;
  }

  lemma WithoutAt(s: Entries, i: nat, j: nat)
    requires i < |s|
    ensures |Without(s, i)| == |s| - 1
    ensures j < |s| - 1 ==> Without(s, i)[j] == s[if j < i then j else j + 1]
  {
  }

  lemma WithoutOrder(s: Entries, i: nat)
    requires i < |s| && Sorted(s)
    ensures Sorted(Without(s, i))
  {
  }

  /** Removing entry `i` hands what it covered to its left neighbour, or to the right for the first. */
  lemma RemoveRoutes(s: Entries, i: nat, k: int)
    requires i < |s| && |s| > 1 && Sorted(s)
    ensures Sorted(Without(s, i))
    ensures Route(Without(s, i), k) ==
            if RouteIndex(s, k) != i then Route(s, k) else if i > 0 then s[i - 1].child else s[1].child
  {
    hide *;
    WithoutOrder(s, i);
    var r := RouteIndex(s, k);
    RouteCovers(s, k);
    WithoutCovers(s, i, r, k);
    var now := if r < i || r == 0 then r else r - 1;
    RouteAt(Without(s, i), now, k);
    RouteAt(s, r, k);
    WithoutAt(s, i, now);
  }

  lemma RouteCovers(s: Entries, k: int)
    requires s != [] && Sorted(s)
    ensures Covers(s, RouteIndex(s, k), k)
  {
    RouteIsTheOneThatCovers(s, k, RouteIndex(s, k));
  }

  lemma RouteAt(s: Entries, i: nat, k: int)
    requires i < |s| && Sorted(s) && Covers(s, i, k)
    ensures RouteIndex(s, k) == i && Route(s, k) == s[i].child
  {
    RouteIsTheOneThatCovers(s, k, i);
  }

  lemma WithoutCovers(s: Entries, i: nat, r: nat, k: int)
    requires i < |s| && r < |s| && |s| > 1 && Covers(s, r, k)
    requires Sorted(s)
    ensures var now := if r < i || r == 0 then r else r - 1;
            now < |Without(s, i)| && Covers(Without(s, i), now, k)
  {
    var now := if r < i || r == 0 then r else r - 1;
    WithoutAt(s, i, now);
    WithoutAt(s, i, now + 1);
    if r + 2 < |s| { assert s[r + 1].key < s[r + 2].key; }
    if r > 1 { assert s[r - 1].key < s[r].key; }
    hide Without, Sorted;
  }

  // ---- the page ----------------------------------------------------------------------------

  lemma HalvesJoin(s: Entries, half: nat, right: Entries)
    requires half < |s| && |right| == |s| - half && right[0].child == s[half].child
    requires forall m :: 1 <= m < |right| ==> right[m] == s[half + m]
    ensures Joined(s[..half], s[half].key, right) == s
  {
    assert right[1..] == s[half + 1..];
    assert s == s[..half] + [s[half]] + s[half + 1..];
  }

  class InternalPage {
    const slots: array<Mapping>
    var size: nat

    predicate Valid()
      reads this
    {
      size <= slots.Length
    }

    function View(): Entries
      requires Valid()
      reads this, slots
    {
      slots[..size]
    }

    constructor (maxSize: nat)
      ensures Valid() && fresh(slots) && View() == [] && slots.Length == maxSize
    {
      slots := new Mapping[maxSize](_ => Mapping(0, 0));
      size := 0;
    }

    method Lookup(key: int) returns (child: PageId)
      requires Valid() && size > 0 && Sorted(View())
      ensures child == Route(View(), key)
    {
      var lo, hi := 1, size;
      while lo < hi
        invariant 1 <= lo <= size && hi <= size && lo <= hi
        invariant forall i :: 0 < i < lo ==> slots[i].key <= key
        invariant forall i :: hi <= i < size ==> key < slots[i].key
      {
        var mid := lo + (hi - lo) / 2;
        if slots[mid].key <= key {
          lo := mid + 1;
        } else {
          hi := mid;
        }
      }
      RouteIsTheOneThatCovers(View(), key, lo - 1);
      return slots[lo - 1].child;
    }

    method IndexOf(child: PageId) returns (i: nat)
      requires Valid() && exists j :: 0 <= j < size && slots[j].child == child
      ensures i < size && slots[i].child == child && forall j :: 0 <= j < i ==> slots[j].child != child
    {
      i := 0;
      while i < size && slots[i].child != child
        invariant i <= size && forall j :: 0 <= j < i ==> slots[j].child != child
      {
        i := i + 1;
      }
    }

    /** The child that was split must be there, and the page must have room. */
    method InsertNodeAfter(oldChild: PageId, key: int, newChild: PageId) returns (ghost i: nat)
      requires Valid() && size < slots.Length && exists j :: 0 <= j < size && slots[j].child == oldChild
      modifies this`size, slots
      ensures Valid() && i < |old(View())| && old(View())[i].child == oldChild
      ensures forall j :: 0 <= j < i ==> old(View())[j].child != oldChild
      ensures View() == InsertedAfter(old(View()), i, Mapping(key, newChild))
    {
      var at := IndexOf(oldChild);
      i := at;
      ghost var s := View();
      var j := size;
      while j > at + 1
        invariant at < j <= size && s == old(View()) && size == |s|
        invariant forall n {:trigger slots[n]} :: 0 <= n < j ==> slots[n] == s[n]
        invariant forall n {:trigger slots[n]} :: j < n <= size ==> slots[n] == s[n - 1]
      {
        slots[j] := slots[j - 1];
        j := j - 1;
      }
      slots[at + 1] := Mapping(key, newChild);
      size := size + 1;
      InsertedIs(s, at, Mapping(key, newChild), View());
    }

    /** The child must be there. */
    method RemoveChild(child: PageId) returns (ghost i: nat)
      requires Valid() && exists j :: 0 <= j < size && slots[j].child == child
      modifies this`size, slots
      ensures Valid() && i < |old(View())| && old(View())[i].child == child
      ensures forall j :: 0 <= j < i ==> old(View())[j].child != child
      ensures View() == Without(old(View()), i)
    {
      var at := IndexOf(child);
      i := at;
      ghost var s := View();
      var j := at + 1;
      while j < size
        invariant at < j <= size && size == |s|
        invariant forall n {:trigger slots[n]} :: 0 <= n < at ==> slots[n] == s[n]
        invariant forall n {:trigger slots[n]} :: at <= n < j - 1 ==> slots[n] == s[n + 1]
        invariant forall n {:trigger slots[n]} :: j - 1 < n < size ==> slots[n] == s[n]
      {
        slots[j - 1] := slots[j];
        j := j + 1;
      }
      size := size - 1;
      assert View() == Without(s, at);
    }

    /** The recipient keeps its own unused first key. */
    method MoveHalfTo(recipient: InternalPage) returns (pushUp: int)
      requires Valid() && size >= 2 && recipient != this && recipient.slots != slots && recipient.slots.Length >= size
      modifies this`size, recipient`size, recipient.slots
      ensures Valid() && recipient.Valid() && pushUp == old(View())[old(size) / 2].key
      ensures View() == LeftHalf(old(View())) && View() != [] && recipient.View() != []
      ensures Joined(View(), pushUp, recipient.View()) == old(View())
    {
      ghost var s := View();
      var half := size / 2;
      pushUp := slots[half].key;
      recipient.slots[0] := recipient.slots[0].(child := slots[half].child);
      var count := size - half - 1;
      for n := 0 to count
        invariant size == |s| && View() == s && recipient.slots[0].child == s[half].child
        invariant forall m :: 1 <= m < n + 1 ==> recipient.slots[m] == s[half + m]
      {
        recipient.slots[1 + n] := slots[half + 1 + n];
      }
      recipient.size := count + 1;
      size := half;
      HalvesJoin(s, half, recipient.View());
    }

    method MoveAllTo(recipient: InternalPage, parentKey: int)
      requires Valid() && recipient.Valid() && size > 0 && recipient != this && recipient.slots != slots
      requires recipient.size + size <= recipient.slots.Length
      modifies this`size, recipient`size, recipient.slots
      ensures Valid() && recipient.Valid() && View() == []
      ensures recipient.View() == Joined(old(recipient.View()), parentKey, old(View()))
    {
      ghost var s, t := View(), recipient.View();
      var base := recipient.size;
      recipient.slots[base] := Mapping(parentKey, slots[0].child);
      for n := 1 to size
        invariant size == |s| && View() == s && recipient.size == base == |t|
        invariant forall m :: 0 <= m < base ==> recipient.slots[m] == t[m]
        invariant recipient.slots[base] == Mapping(parentKey, s[0].child)
        invariant forall m :: base + 1 <= m < base + n ==> recipient.slots[m] == s[m - base]
      {
        recipient.slots[base + n] := slots[n];
      }
      recipient.size := recipient.size + size;
      size := 0;
      assert recipient.View() == Joined(t, parentKey, s);
    }
  }

  /** After a split, the two pages with the pushed-up key between them route every key as before. */
  lemma SplitRoutes(before: Entries, left: Entries, key: int, right: Entries, k: int)
    requires Sorted(before) && left != [] && right != [] && Joined(left, key, right) == before
    ensures Sorted(left) && Sorted(right)
    ensures Route(before, k) == if k < key then Route(left, k) else Route(right, k)
  {
    JoinRoutes(left, key, right, k);
  }

  /** Splitting a page and merging it again around the same key changes nothing. */
  method SplitAndMerge(page: InternalPage, spare: InternalPage)
    requires page.Valid() && page.size >= 2 && spare != page && spare.slots != page.slots
    requires spare.slots.Length >= page.size
    modifies page`size, spare`size, page.slots, spare.slots
    ensures page.Valid() && page.View() == old(page.View())
  {
    var key := page.MoveHalfTo(spare);
    spare.MoveAllTo(page, key);
  }
}

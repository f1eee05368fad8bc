/** Insertion, search, and what every reachable tree guarantees. */
module AvlMap {
  import opened Wrappers
  import opened AvlTrees

  function Inserted<V>(t: Tree<V>, k: int, v: V): (r: Tree<V>)
    requires Balanced(t)
    ensures r.Node? && Balanced(r) && Height(t) <= Height(r) <= Height(t) + 1
    ensures Height(r) == Height(t) + 1 ==> GrewAt(r, k)
  {
    if t.Leaf? then Node(k, v, 1, Leaf, Leaf)
    else if k < t.key then
      var u := Updated(t.(left := Inserted(t.left, k, v)));
      OffByOneCanRebalance(u, k);
      RebalanceBalances(u, k);
      Rebalance(u, k)
    else if t.key < k then
      var u := Updated(t.(right := Inserted(t.right, k, v)));
      OffByOneCanRebalance(u, k);
      RebalanceBalances(u, k);
      Rebalance(u, k)
    else t.(value := v)
  }

  // ---- insertion on sorted lists -----------------------------------------------------------

  /** One binding put in its place. */
  function Placed<V>(s: seq<(int, V)>, k: int, v: V): seq<(int, V)> {
    if s == [] || k < s[0].0 then [(k, v)] + s
    else if k == s[0].0 then [(k, v)] + s[1..]
    else [s[0]] + Placed(s[1..], k, v)
  }

  ghost predicate HasKey<V>(s: seq<(int, V)>, k: int) { exists i :: 0 <= i < |s| && s[i].0 == k }

  lemma {:induction false} PlacedIsUpdate<V>(s: seq<(int, V)>, k: int, v: V, e: (int, V))
    requires Sorted(s)
    ensures e in Placed(s, k, v) <==> if e.0 == k then e.1 == v else e in s
    ensures |Placed(s, k, v)| == |s| + if HasKey(s, k) then 0 else 1
    decreases |s|
  {
    if s == [] {
    } else {
      assert s == [s[0]] + s[1..];
      if s[0].0 < k {
        PlacedIsUpdate(s[1..], k, v, e);
        assert HasKey(s, k) <==> HasKey(s[1..], k) by {
          if HasKey(s, k) { var i :| 0 <= i < |s| && s[i].0 == k; assert s[1..][i - 1].0 == k; }
          if HasKey(s[1..], k) { var i :| 0 <= i < |s[1..]| && s[1..][i].0 == k; assert s[i + 1].0 == k; }
        }
      }
    }
  }

  lemma {:induction false} PlacedStaysSorted<V>(s: seq<(int, V)>, k: int, v: V)
    requires Sorted(s)
    ensures Sorted(Placed(s, k, v))
    decreases |s|
  {
    if s == [] || k <= s[0].0 {
    } else {
      PlacedStaysSorted(s[1..], k, v);
      forall e | e in Placed(s[1..], k, v) ensures s[0].0 < e.0 {
        PlacedIsUpdate(s[1..], k, v, e);
      }
    }
  }

  lemma {:induction false} PlacedInJoin<V>(l: seq<(int, V)>, m: seq<(int, V)>, k: int, v: V)
    requires Sorted(l + m) && m != []
    ensures Placed(l + m, k, v) == if k < m[0].0 then Placed(l, k, v) + m else l + Placed(m, k, v)
    decreases |l|
  {
    if l == [] {
      assert l + m == m;
    } else {
      FirstsAscend(l, m);
      JoinTail(l, m);
      hide Placed, Sorted;
      PlacedInJoin(l[1..], m, k, v);
      PlacedStep(l, m, k, v);
    }
  }

  lemma FirstsAscend<V>(l: seq<(int, V)>, m: seq<(int, V)>)
    requires l != [] && m != [] && Sorted(l + m)
    ensures l[0].0 < m[0].0
  {
    assert (l + m)[0].0 < (l + m)[|l|].0;
  }

  lemma JoinTail<V>(l: seq<(int, V)>, m: seq<(int, V)>)
    requires l != [] && Sorted(l + m)
    ensures (l + m)[1..] == l[1..] + m && Sorted(l[1..] + m)
  {
    assert (l + m)[1..] == l[1..] + m;
  }

  lemma Join3<T>(a: seq<T>, b: seq<T>, c: seq<T>)
    ensures (a + b) + c == a + (b + c)
  {
  }

  lemma PlacedInFront<V>(x: (int, V), rest: seq<(int, V)>, k: int, v: V)
    ensures Placed([x] + rest, k, v) ==
            if k < x.0 then [(k, v)] + ([x] + rest)
            else if k == x.0 then [(k, v)] + rest
            else [x] + Placed(rest, k, v)
  {
    assert ([x] + rest)[1..] == rest;
  }

  lemma PlacedStep<V>(l: seq<(int, V)>, m: seq<(int, V)>, k: int, v: V)
    requires l != [] && m != [] && l[0].0 < m[0].0
    requires Placed(l[1..] + m, k, v) == if k < m[0].0 then Placed(l[1..], k, v) + m else l[1..] + Placed(m, k, v)
    ensures Placed(l + m, k, v) == if k < m[0].0 then Placed(l, k, v) + m else l + Placed(m, k, v)
  {
    hide Placed;
    var x, rest := l[0], l[1..];
    assert l == [x] + rest;
    Join3([x], rest, m);
    PlacedInFront(x, rest, k, v);
    PlacedInFront(x, rest + m, k, v);
    if k < x.0 {
      Join3([(k, v)], l, m);
    } else if k == x.0 {
      Join3([(k, v)], rest, m);
    } else {
      Join3([x], Placed(rest, k, v), m);
      Join3([x], rest, Placed(m, k, v));
    }
  }

  lemma PlacedInMiddle<V>(l: seq<(int, V)>, e: (int, V), r: seq<(int, V)>, k: int, v: V)
    requires Sorted(l + [e] + r)
    ensures Placed(l + [e] + r, k, v) ==
            if k < e.0 then Placed(l, k, v) + [e] + r
            else if e.0 < k then l + [e] + Placed(r, k, v)
            else l + [(k, v)] + r
  {
    hide Placed, Sorted;
    var m := [e] + r;
    Join3(l, [e], r);
    PlacedInJoin(l, m, k, v);
    PlacedInFront(e, r, k, v);
    Join3(Placed(l, k, v), [e], r);
    Join3(l, [e], Placed(r, k, v));
    Join3(l, [(k, v)], r);
  }

  lemma SortedMiddle<V>(l: seq<(int, V)>, e: (int, V), r: seq<(int, V)>)
    requires Sorted(l + [e] + r)
    ensures Sorted(l) && Sorted(r)
    ensures forall x :: x in l ==> x.0 < e.0
    ensures forall x :: x in r ==> e.0 < x.0
  {
    var s := l + [e] + r;
    assert forall i :: 0 <= i < |l| ==> s[i] == l[i];
    assert s[|l|] == e;
    assert forall i :: 0 <= i < |r| ==> s[|l| + 1 + i] == r[i];
  }

  lemma SortedParts<V>(t: Tree<V>)
    requires t.Node? && Sorted(Entries(t))
    ensures Sorted(Entries(t.left)) && Sorted(Entries(t.right))
    ensures forall e :: e in Entries(t.left) ==> e.0 < t.key
    ensures forall e :: e in Entries(t.right) ==> t.key < e.0
  {
    hide Sorted;
    SortedMiddle(Entries(t.left), (t.key, t.value), Entries(t.right));
  }

  /** Insertion is insertion into the sorted list of bindings. */
  lemma {:induction false} InsertPlaces<V>(t: Tree<V>, k: int, v: V)
    requires Avl(t)
    ensures Entries(Inserted(t, k, v)) == Placed(Entries(t), k, v)
    decreases t
  {
    if t.Leaf? {
    } else {
      SortedParts(t);
      PlacedInMiddle(Entries(t.left), (t.key, t.value), Entries(t.right), k, v);
      hide Placed, Sorted;
      if k < t.key {
        InsertPlaces(t.left, k, v);
        RebalancedEntries(t.(left := Inserted(t.left, k, v)), k);
      } else if t.key < k {
        InsertPlaces(t.right, k, v);
        RebalancedEntries(t.(right := Inserted(t.right, k, v)), k);
      }
    }
  }

  lemma RebalancedEntries<V>(t: Tree<V>, k: int)
    requires t.Node? && OffByOne(Updated(t), k)
    ensures CanRebalance(Updated(t), k) && Entries(Rebalance(Updated(t), k)) == Entries(t)
  {
    OffByOneCanRebalance(Updated(t), k);
    RebalanceKeeps(Updated(t), k);
  }

  /** Every insertion keeps a search tree, exactly one binding changes, and the height grows by at
      most one. */
  lemma InsertKeepsAvl<V>(t: Tree<V>, k: int, v: V)
    requires Avl(t)
    ensures var r := Inserted(t, k, v);
            && Avl(r) && Height(t) <= Height(r) <= Height(t) + 1
            && |Entries(r)| == |Entries(t)| + (if HasKey(Entries(t), k) then 0 else 1)
            && forall e :: e in Entries(r) <==> if e.0 == k then e.1 == v else e in Entries(t)
  {
    hide Inserted, Placed, Entries, Sorted, HasKey, Balanced;
    InsertPlaces(t, k, v);
    PlacedStaysSorted(Entries(t), k, v);
    PlacedIsUpdate(Entries(t), k, v, (k, v));
    forall e ensures e in Placed(Entries(t), k, v) <==> if e.0 == k then e.1 == v else e in Entries(t) {
      PlacedIsUpdate(Entries(t), k, v, e);
    }
  }

  // ---- height ------------------------------------------------------------------------------

  function Fib(n: nat): nat { if n < 2 then n else Fib(n - 1) + Fib(n - 2) }

  lemma {:induction false} FibGrows(n: nat, m: nat)
    requires n <= m
    ensures Fib(n) <= Fib(m)
    decreases m
  {
    if n == m {
    } else {
      FibGrows(n, m - 1);
      assert m >= 2 ==> Fib(m) >= Fib(m - 1);
    }
  }

  /** A balanced tree of height `h` has at least Fib(h + 2) - 1 nodes: searches stay logarithmic. */
  lemma {:induction false} HeightIsLogarithmic<V>(t: Tree<V>)
    requires Balanced(t)
    ensures |Entries(t)| >= Fib(Height(t) + 2) - 1
    decreases t
  {
    if t.Leaf? {
    } else {
      HeightIsLogarithmic(t.left);
      HeightIsLogarithmic(t.right);
      var h := Height(t);
      FibGrows(h, Height(t.left) + 2);
      FibGrows(h, Height(t.right) + 2);
      assert Fib(h + 2) == Fib(h + 1) + Fib(h);
    }
  }

  // ---- the container -----------------------------------------------------------------------

  lemma GoesLeft<V>(t: Tree<V>, e: (int, V))
    requires t.Node? && Sorted(Entries(t))
    ensures e.0 < t.key ==> (e in Entries(t) <==> e in Entries(t.left))
    ensures t.key < e.0 ==> (e in Entries(t) <==> e in Entries(t.right))
    ensures e.0 == t.key ==> (e in Entries(t) <==> e.1 == t.value)
  {
    SortedParts(t);
  }

  class AvlTree<V(!new)> {
    var root: Tree<V>
    var count: nat

    ghost predicate Valid()
      reads this
    {
      Avl(root) && count == |Entries(root)|
    }

    constructor ()
      ensures Valid() && Entries(root) == []
    {
      root, count := Leaf, 0;
    }

    method InsertNode(t: Tree<V>, k: int, v: V) returns (r: Tree<V>)
      requires Avl(t)
      modifies this`count
      ensures r == Inserted(t, k, v) && count == old(count) + |Entries(r)| - |Entries(t)|
      decreases t
    {
      InsertKeepsAvl(t, k, v);
      if t.Leaf? {
        count := count + 1;
        return Node(k, v, 1, Leaf, Leaf);
      }
      SortedParts(t);
      if k < t.key {
        var left := InsertNode(t.left, k, v);
        var node := Updated(t.(left := left));
        OffByOneCanRebalance(node, k);
        RebalanceKeeps(node, k);
        r := Rebalance(node, k);
      } else if t.key < k {
        var right := InsertNode(t.right, k, v);
        var node := Updated(t.(right := right));
        OffByOneCanRebalance(node, k);
        RebalanceKeeps(node, k);
        r := Rebalance(node, k);
      } else {
        r := t.(value := v);
      }
    }

    method Insert(k: int, v: V)
      requires Valid()
      modifies this
      ensures Valid() && root == Inserted(old(root), k, v)
      ensures count == old(count) + if HasKey(old(Entries(root)), k) then 0 else 1
      ensures forall e :: e in Entries(root) <==> if e.0 == k then e.1 == v else e in old(Entries(root))
    {
      InsertKeepsAvl(root, k, v);
      root := InsertNode(root, k, v);
    }

    /** It looks at no more nodes than the tree is high. */
    method Find(k: int) returns (v: Option<V>, ghost looks: nat)
      requires Valid()
      ensures v.Some? ==> (k, v.value) in Entries(root)
      ensures v.None? ==> forall w :: (k, w) !in Entries(root)
      ensures looks <= Height(root)
    {
      var n := root;
      looks := 0;
      while n.Node?
        invariant Avl(n) && looks + Height(n) <= Height(root)
        invariant forall w :: (k, w) in Entries(root) <==> (k, w) in Entries(n)
        decreases n
      {
        SortedParts(n);
        forall w ensures k < n.key ==> ((k, w) in Entries(n) <==> (k, w) in Entries(n.left))
                 ensures n.key < k ==> ((k, w) in Entries(n) <==> (k, w) in Entries(n.right))
                 ensures k == n.key ==> ((k, w) in Entries(n) <==> w == n.value)
        {
          GoesLeft(n, (k, w));
        }
        looks := looks + 1;
        if k < n.key {
          n := n.left;
        } else if n.key < k {
          n := n.right;
        } else {
          return Some(n.value), looks;
        }
      }
      return None, looks;
    }

    /** In ascending order. */
    method SortedKeys() returns (keys: seq<int>)
      requires Valid()
      ensures |keys| == count && forall i :: 0 <= i < |keys| ==> keys[i] == Entries(root)[i].0
      ensures forall i, j :: 0 <= i < j < |keys| ==> keys[i] < keys[j]
    {
      keys := InOrder(root, []);
    }

    method InOrder(t: Tree<V>, before: seq<int>) returns (out: seq<int>)
      ensures |out| == |before| + |Entries(t)| && before <= out
      ensures forall i :: 0 <= i < |Entries(t)| ==> out[|before| + i] == Entries(t)[i].0
      decreases t
    {
      if t.Leaf? {
        return before;
      }
      var l := InOrder(t.left, before);
      var m := l + [t.key];
      out := InOrder(t.right, m);
      var n := |Entries(t.left)|;
      forall i | 0 <= i < |Entries(t)| ensures out[|before| + i] == Entries(t)[i].0 {
        if i > n { assert Entries(t)[i] == Entries(t.right)[i - n - 1]; assert out[|m| + (i - n - 1)] == Entries(t.right)[i - n - 1].0; }
        else if i < n { assert out[|before| + i] == m[|before| + i] == l[|before| + i]; }
        else { assert out[|l|] == m[|l|]; }
      }
    }
  }
}

/** Trees that cache their heights, their rotations, and insertion with rebalancing. */
module AvlTrees {
  datatype Tree<V> = Leaf | Node(key: int, value: V, height: nat, left: Tree<V>, right: Tree<V>)

  function Max(a: int, b: int): int { if a >= b then a else b }

  /** The cached height. */
  function Height<V>(t: Tree<V>): nat { if t.Leaf? then 0 else t.height }

  function BalanceFactor<V>(t: Tree<V>): int { if t.Leaf? then 0 else Height(t.left) - Height(t.right) }

  /** A node with its height brought up to date. */
  function Updated<V>(t: Tree<V>): Tree<V>
    requires t.Node?
  {
    t.(height := 1 + Max(Height(t.left), Height(t.right)))
  }

  function RotateRight<V>(y: Tree<V>): Tree<V>
    requires y.Node? && y.left.Node?
  {
    var x := y.left;
    Updated(x.(right := Updated(y.(left := x.right))))
  }

  function RotateLeft<V>(x: Tree<V>): Tree<V>
    requires x.Node? && x.right.Node?
  {
    var y := x.right;
    Updated(y.(left := Updated(x.(right := y.left))))
  }

  /** What rebalancing takes for granted: a heavy side has the nodes that its rotations move. */
  predicate CanRebalance<V>(t: Tree<V>, k: int) {
    && t.Node?
    && (BalanceFactor(t) > 1 ==> t.left.Node? && (t.left.key < k ==> t.left.right.Node?))
    && (BalanceFactor(t) < -1 ==> t.right.Node? && (k < t.right.key ==> t.right.left.Node?))
  }

  function Rebalance<V>(t: Tree<V>, k: int): Tree<V>
    requires CanRebalance(t, k)
  {
    var bf := BalanceFactor(t);
    if bf > 1 && k < t.left.key then RotateRight(t)
    else if bf < -1 && t.right.key < k then RotateLeft(t)
    else if bf > 1 && t.left.key < k then RotateRight(t.(left := RotateLeft(t.left)))
    else if bf < -1 && k < t.right.key then RotateLeft(t.(right := RotateRight(t.right)))
    else t
  }

  // ---- what a tree means -------------------------------------------------------------------

  /** The bindings, in the order of an in-order traversal. */
  function Entries<V>(t: Tree<V>): seq<(int, V)> {
    if t.Leaf? then [] else Entries(t.left) + [(t.key, t.value)] + Entries(t.right)
  }

  predicate Sorted<V>(s: seq<(int, V)>) { forall i, j :: 0 <= i < j < |s| ==> s[i].0 < s[j].0 }

  /** Heights are exact, and the two sides of every node differ by at most one. */
  predicate Balanced<V>(t: Tree<V>) {
    t.Node? ==>
      && Balanced(t.left) && Balanced(t.right)
      && t.height == 1 + Max(Height(t.left), Height(t.right)) && -1 <= BalanceFactor(t) <= 1
  }

  predicate Avl<V>(t: Tree<V>) { Sorted(Entries(t)) && Balanced(t) }

  lemma Associate<T>(a: seq<T>, p: seq<T>, b: seq<T>, q: seq<T>, c: seq<T>)
    ensures (a + p + b) + q + c == a + p + (b + q + c)
  {
  }

  /** Rotations change neither the order nor the content. */
  lemma RotateRightKeeps<V>(y: Tree<V>)
    requires y.Node? && y.left.Node?
    ensures Entries(RotateRight(y)) == Entries(y)
  {
    var x := y.left;
    var a, b, c := Entries(x.left), Entries(x.right), Entries(y.right);
    var p, q := [(x.key, x.value)], [(y.key, y.value)];
    assert Entries(x) == a + p + b;
    assert Entries(Updated(y.(left := x.right))) == b + q + c;
    Associate(a, p, b, q, c);
  }

  lemma RotateLeftKeeps<V>(x: Tree<V>)
    requires x.Node? && x.right.Node?
    ensures Entries(RotateLeft(x)) == Entries(x)
  {
    var y := x.right;
    var a, b, c := Entries(x.left), Entries(y.left), Entries(y.right);
    var p, q := [(x.key, x.value)], [(y.key, y.value)];
    assert Entries(y) == b + q + c;
    assert Entries(Updated(x.(right := y.left))) == a + p + b;
    Associate(a, p, b, q, c);
  }

  lemma RebalanceKeeps<V>(t: Tree<V>, k: int)
    requires CanRebalance(t, k)
    ensures Entries(Rebalance(t, k)) == Entries(t)
  {
    hide RotateLeft, RotateRight, BalanceFactor;
    var bf := BalanceFactor(t);
    if bf > 1 && k < t.left.key {
      RotateRightKeeps(t);
    } else if bf < -1 && t.right.key < k {
      RotateLeftKeeps(t);
    } else if bf > 1 && t.left.key < k {
      RotateLeftKeeps(t.left);
      RotatedIsNode(t.left);
      RotateRightKeeps(t.(left := RotateLeft(t.left)));
    } else if bf < -1 && k < t.right.key {
      RotateRightKeeps(t.right);
      RotatedIsNode(t.right);
      RotateLeftKeeps(t.(right := RotateRight(t.right)));
    }
  }

  lemma RotatedIsNode<V>(t: Tree<V>)
    requires t.Node?
    ensures t.right.Node? ==> RotateLeft(t).Node?
    ensures t.left.Node? ==> RotateRight(t).Node?
  {
  }

  // ---- rebalancing -------------------------------------------------------------------------

  /** A side grew by one because of `k`: unless that side is the new node itself, it now leans
      towards where `k` went. */
  predicate GrewAt<V>(t: Tree<V>, k: int) {
    && t.Node? && Balanced(t)
    && (t.key == k ==> t.left.Leaf? && t.right.Leaf?)
    && (k < t.key ==> Height(t.left) == Height(t.right) + 1)
    && (t.key < k ==> Height(t.right) == Height(t.left) + 1)
  }

  /** Both sides in balance, one of them possibly too high by one since `k` was inserted there. */
  predicate OffByOne<V>(t: Tree<V>, k: int) {
    && t.Node? && Balanced(t.left) && Balanced(t.right) && t.height == 1 + Max(Height(t.left), Height(t.right))
    && -2 <= BalanceFactor(t) <= 2
    && (BalanceFactor(t) == 2 ==> k < t.key && GrewAt(t.left, k))
    && (BalanceFactor(t) == -2 ==> t.key < k && GrewAt(t.right, k))
  }

  lemma OffByOneCanRebalance<V>(t: Tree<V>, k: int)
    requires OffByOne(t, k)
    ensures CanRebalance(t, k)
  {
  }

  lemma HeavyLeftLeft<V>(t: Tree<V>)
    requires t.Node? && t.left.Node? && Balanced(t.left) && Balanced(t.right)
    requires Height(t.left) == Height(t.right) + 2 && Height(t.left.left) == Height(t.left.right) + 1
    ensures Balanced(RotateRight(t)) && Height(RotateRight(t)) == Height(t.left)
  {
  }

  lemma HeavyRightRight<V>(t: Tree<V>)
    requires t.Node? && t.right.Node? && Balanced(t.left) && Balanced(t.right)
    requires Height(t.right) == Height(t.left) + 2 && Height(t.right.right) == Height(t.right.left) + 1
    ensures Balanced(RotateLeft(t)) && Height(RotateLeft(t)) == Height(t.right)
  {
  }

  lemma HeavyLeftRight<V>(t: Tree<V>)
    requires t.Node? && t.left.Node? && t.left.right.Node? && Balanced(t.left) && Balanced(t.right)
    requires Height(t.left) == Height(t.right) + 2 && Height(t.left.right) == Height(t.left.left) + 1
    ensures RotateLeft(t.left).Node?
    ensures var r := RotateRight(t.(left := RotateLeft(t.left))); Balanced(r) && Height(r) == Height(t.left)
  {
    assert Balanced(t.left.right) && Balanced(t.left.left);
  }

  lemma HeavyRightLeft<V>(t: Tree<V>)
    requires t.Node? && t.right.Node? && t.right.left.Node? && Balanced(t.left) && Balanced(t.right)
    requires Height(t.right) == Height(t.left) + 2 && Height(t.right.left) == Height(t.right.right) + 1
    ensures RotateRight(t.right).Node?
    ensures var r := RotateLeft(t.(right := RotateRight(t.right))); Balanced(r) && Height(r) == Height(t.right)
  {
    assert Balanced(t.right.left) && Balanced(t.right.right);
  }

  /** Rebalancing restores balance, and a tree that was too high becomes one lower. */
  lemma RebalanceBalances<V>(t: Tree<V>, k: int)
    requires OffByOne(t, k) && CanRebalance(t, k)
    ensures Balanced(Rebalance(t, k))
    ensures -1 <= BalanceFactor(t) <= 1 ==> Rebalance(t, k) == t
    ensures BalanceFactor(t) == 2 || BalanceFactor(t) == -2 ==> Height(Rebalance(t, k)) == Height(t) - 1
  {
    var bf := BalanceFactor(t);
    hide RotateLeft, RotateRight;
    if bf == 2 {
      if k < t.left.key { HeavyLeftLeft(t); } else if t.left.key < k { HeavyLeftRight(t); }
    } else if bf == -2 {
      if t.right.key < k { HeavyRightRight(t); } else if k < t.right.key { HeavyRightLeft(t); }
    }
  }
}

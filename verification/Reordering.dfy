/** Sorting a list: the ascending list of the same elements, and which element went where. */
module Reordering {
  predicate Ascending(s: seq<int>) { forall i, j :: 0 <= i < j < |s| ==> s[i] <= s[j] }

  /** `now[i]` is `was[order[i]]`, and `back` undoes `order`. */
  predicate Reorders(order: seq<nat>, back: seq<nat>, was: seq<int>, now: seq<int>) {
    && |order| == |back| == |was| == |now|
    && (forall i :: 0 <= i < |was| ==> order[i] < |was| && now[i] == was[order[i]])
    && (forall i :: 0 <= i < |was| ==> back[i] < |was| && was[i] == now[back[i]])
    && Undoes(order, back) && Undoes(back, order)
  }

  predicate Undoes(order: seq<nat>, back: seq<nat>) {
    forall i :: 0 <= i < |order| && order[i] < |back| ==> back[order[i]] == i
  }

  lemma ReordersBack(order: seq<nat>, back: seq<nat>, was: seq<int>, now: seq<int>)
    requires Reorders(order, back, was, now)
    ensures Reorders(back, order, now, was)
  {
  }

  /** Where `x` belongs in an ascending list. */
  function Place(s: seq<int>, x: int): (p: nat)
    ensures p <= |s|
  {
    if s == [] || s[|s| - 1] <= x then |s| else Place(s[..|s| - 1], x)
  }

  lemma {:induction false} PlaceSplits(s: seq<int>, x: int)
    requires Ascending(s)
    ensures forall i :: 0 <= i < Place(s, x) ==> s[i] <= x
    ensures forall i :: Place(s, x) <= i < |s| ==> x <= s[i]
    decreases |s|
  {
    if s == [] || s[|s| - 1] <= x {
    } else {
      PlaceSplits(s[..|s| - 1], x);
    }
  }

  function PutAt(s: seq<int>, p: nat, x: int): seq<int>
    requires p <= |s|
  {
    s[..p] + [x] + s[p..]
  }

  lemma PutAtIs(s: seq<int>, p: nat, x: int)
    requires p <= |s|
    ensures |PutAt(s, p, x)| == |s| + 1 && PutAt(s, p, x)[p] == x
    ensures forall i :: 0 <= i < p ==> PutAt(s, p, x)[i] == s[i]
    ensures forall i :: p < i <= |s| ==> PutAt(s, p, x)[i] == s[i - 1]
  {
  }

  function Sorted(s: seq<int>): (r: seq<int>)
    ensures |r| == |s|
  {
    if s == [] then []
    else
      var m, before := |s| - 1, Sorted(s[..|s| - 1]);
      PutAt(before, Place(before, s[m]), s[m])
  }

  lemma {:induction false} SortedAscends(s: seq<int>)
    ensures Ascending(Sorted(s))
    decreases |s|
  {
    if s == [] {
    } else {
      var before, x := Sorted(s[..|s| - 1]), s[|s| - 1];
      SortedAscends(s[..|s| - 1]);
      PlaceSplits(before, x);
      PutAtIs(before, Place(before, x), x);
      hide PutAt;
    }
  }

  /** How places shift when one more element is put at `p`: the last one goes there. */
  function Shifted(back: seq<nat>, p: nat): (r: seq<nat>)
    ensures |r| == |back| + 1 && r[|back|] == p
    ensures forall i :: 0 <= i < |back| ==> r[i] == if back[i] < p then back[i] else back[i] + 1
  {
    seq(|back| + 1, i requires 0 <= i <= |back| =>
      if i == |back| then p else if back[i] < p then back[i] else back[i] + 1)
  }

  /** And which element stands where: the last one, `n`, at `p`. */
  function Inserted(order: seq<nat>, p: nat, n: nat): (r: seq<nat>)
    requires p <= |order|
    ensures |r| == |order| + 1 && r[p] == n
    ensures forall i :: 0 <= i < p ==> r[i] == order[i]
    ensures forall i :: p < i <= |order| ==> r[i] == order[i - 1]
  {
    seq(|order| + 1, i requires 0 <= i <= |order| =>
      if i < p then order[i] else if i == p then n else order[i - 1])
  }

  lemma PutGoes(order: seq<nat>, back: seq<nat>, was: seq<int>, now: seq<int>, p: nat, x: int, i: nat)
    requires Reorders(order, back, was, now) && p <= |now| && i <= |was|
    ensures var j := Inserted(order, p, |was|)[i];
            j <= |was| && PutAt(now, p, x)[i] == (was + [x])[j] && Shifted(back, p)[j] == i
  {
    PutAtIs(now, p, x);
    hide PutAt;
    if i < p {
      assert back[order[i]] == i;
    } else if i > p {
      assert back[order[i - 1]] == i - 1;
    }
  }

  lemma PutCame(order: seq<nat>, back: seq<nat>, was: seq<int>, now: seq<int>, p: nat, x: int, i: nat)
    requires Reorders(order, back, was, now) && p <= |now| && i <= |was|
    ensures var j := Shifted(back, p)[i];
            j <= |was| && (was + [x])[i] == PutAt(now, p, x)[j] && Inserted(order, p, |was|)[j] == i
  {
    PutAtIs(now, p, x);
    hide PutAt;
    if i < |was| {
      assert order[back[i]] == i;
    }
  }

  lemma PutReorders(order: seq<nat>, back: seq<nat>, was: seq<int>, now: seq<int>, p: nat, x: int)
    requires Reorders(order, back, was, now) && p <= |now|
    ensures Reorders(Inserted(order, p, |was|), Shifted(back, p), was + [x], PutAt(now, p, x))
  {
    var more, undone, all, put := Inserted(order, p, |was|), Shifted(back, p), was + [x], PutAt(now, p, x);
    assert |more| == |undone| == |all| == |put| == |was| + 1;
    forall i | 0 <= i <= |was| ensures more[i] <= |was| && put[i] == all[more[i]] && undone[more[i]] == i {
      PutGoes(order, back, was, now, p, x, i);
    }
    forall i | 0 <= i <= |was| ensures undone[i] <= |was| && all[i] == put[undone[i]] && more[undone[i]] == i {
      PutCame(order, back, was, now, p, x, i);
    }
    hide PutAt, Inserted, Shifted;
  }

  lemma LengthsOf(order: seq<nat>, back: seq<nat>, was: seq<int>, now: seq<int>)
    requires Reorders(order, back, was, now)
    ensures |order| == |back| == |was| == |now|
  {
  }

  /** The sorted list has the elements of the list, each in its own new place. */
  lemma {:induction false} SortedReorders(s: seq<int>) returns (order: seq<nat>, back: seq<nat>)
    ensures Reorders(order, back, s, Sorted(s))
    decreases |s|
  {
    if s == [] {
      order, back := [], [];
    } else {
      var m := |s| - 1;
      var before := Sorted(s[..m]);
      var p := Place(before, s[m]);
      assert Sorted(s) == PutAt(before, p, s[m]) && s[..m] + [s[m]] == s;
      assert p <= |before| == m;
      hide *;
      var o, b := SortedReorders(s[..m]);
      LengthsOf(o, b, s[..m], before);
      PutReorders(o, b, s[..m], before, p, s[m]);
      order, back := Inserted(o, p, m), Shifted(b, p);
    }
  }
}

/** A bounded cache as a list of bindings, least recently used first. */
module Recency {
  type Entry = (int, int)

  function IndexOf(s: seq<Entry>, k: int): (i: nat)
    ensures i <= |s| && (i < |s| ==> s[i].0 == k) && forall j :: 0 <= j < i ==> s[j].0 != k
  {
    if s == [] then 0 else if s[0].0 == k then 0 else 1 + IndexOf(s[1..], k)
  }

  predicate Holds(s: seq<Entry>, k: int) { IndexOf(s, k) < |s| }

  function Without(s: seq<Entry>, i: nat): seq<Entry>
    requires i < |s|
  {
    s[..i] + s[i + 1..]
  }

  /** A lookup moves what it finds to the end. */
  function Touched(s: seq<Entry>, k: int): seq<Entry> {
    var i := IndexOf(s, k);
    if i < |s| then Without(s, i) + [s[i]] else s
  }

  function Found(s: seq<Entry>, k: int): int {
    var i := IndexOf(s, k);
    if i < |s| then s[i].1 else -1
  }

  /** A store puts its binding at the end; a new one in a full cache pushes out the first. */
  function Stored(s: seq<Entry>, k: int, v: int, capacity: nat): seq<Entry> {
    var i := IndexOf(s, k);
    if i < |s| then Without(s, i) + [(k, v)]
    else (if |s| == capacity && s != [] then s[1..] else s) + [(k, v)]
  }

  predicate DistinctKeys(s: seq<Entry>) { forall i, j :: 0 <= i < j < |s| ==> s[i].0 != s[j].0 }

  // ---- whole runs --------------------------------------------------------------------------

  datatype Op = Get(key: int) | Put(key: int, value: int)

  function Apply(s: seq<Entry>, op: Op, capacity: nat): seq<Entry> {
    match op
    case Get(k) => Touched(s, k)
    case Put(k, v) => Stored(s, k, v, capacity)
  }

  function Run(ops: seq<Op>, capacity: nat): seq<Entry> {
    if ops == [] then [] else Apply(Run(ops[..|ops| - 1], capacity), ops[|ops| - 1], capacity)
  }

  /** One more than the position of the last operation on `k`, or 0. */
  function LastUse(ops: seq<Op>, k: int): nat {
    if ops == [] then 0 else if ops[|ops| - 1].key == k then |ops| else LastUse(ops[..|ops| - 1], k)
  }

  lemma {:induction false} LastUseIsPast(ops: seq<Op>, k: int)
    ensures LastUse(ops, k) <= |ops|
    decreases |ops|
  {
    if ops == [] || ops[|ops| - 1].key == k {
    } else {
      LastUseIsPast(ops[..|ops| - 1], k);
    }
  }

  /** Least recently used first, by the operations that have been made. */
  predicate ByLastUse(s: seq<Entry>, ops: seq<Op>) {
    forall i, j :: 0 <= i < j < |s| ==> LastUse(ops, s[i].0) < LastUse(ops, s[j].0)
  }

  lemma AppendKeepsOrder(s: seq<Entry>, kept: seq<Entry>, e: Entry, ops: seq<Op>, op: Op)
    requires op.key == e.0 && ByLastUse(kept, ops) && forall i :: 0 <= i < |kept| ==> kept[i].0 != e.0
    ensures ByLastUse(kept + [e], ops + [op])
  {
    var all, more := ops + [op], kept + [e];
    assert all[..|ops|] == ops;
    forall i | 0 <= i < |kept| ensures LastUse(all, kept[i].0) == LastUse(ops, kept[i].0) < LastUse(all, e.0) {
      LastUseIsPast(ops, kept[i].0);
    }
  }

  /** An operation on a key that is not there leaves the order alone. */
  lemma MissKeepsOrder(s: seq<Entry>, ops: seq<Op>, op: Op)
    requires ByLastUse(s, ops) && !Holds(s, op.key)
    ensures ByLastUse(s, ops + [op])
  {
    var all := ops + [op];
    assert all[..|ops|] == ops;
    assert forall i :: 0 <= i < |s| ==> LastUse(all, s[i].0) == LastUse(ops, s[i].0);
  }

  lemma WithoutKeeps(s: seq<Entry>, i: nat, ops: seq<Op>)
    requires i < |s| && ByLastUse(s, ops) && DistinctKeys(s)
    ensures ByLastUse(Without(s, i), ops) && forall j :: 0 <= j < |Without(s, i)| ==> Without(s, i)[j].0 != s[i].0
  {
    var t := Without(s, i);
    assert forall j :: 0 <= j < |t| ==> t[j] == s[if j < i then j else j + 1];
  }

  lemma OrderMeansDistinct(s: seq<Entry>, ops: seq<Op>)
    requires ByLastUse(s, ops)
    ensures DistinctKeys(s)
  {
  }

  lemma ApplyKeepsOrder(s: seq<Entry>, ops: seq<Op>, op: Op, capacity: nat)
    requires ByLastUse(s, ops) && 0 < capacity && |s| <= capacity
    ensures ByLastUse(Apply(s, op, capacity), ops + [op]) && |Apply(s, op, capacity)| <= capacity
  {
    OrderMeansDistinct(s, ops);
    var i := IndexOf(s, op.key);
    if i < |s| {
      WithoutKeeps(s, i, ops);
      AppendKeepsOrder(s, Without(s, i), if op.Get? then s[i] else (op.key, op.value), ops, op);
    } else if op.Get? {
      MissKeepsOrder(s, ops, op);
    } else {
      var kept := if |s| == capacity then s[1..] else s;
      AppendKeepsOrder(s, kept, (op.key, op.value), ops, op);
    }
  }

  /** Over every run the cache stays within its capacity, lists each key once, and lists them in the
      order of their last use -- so what a full cache pushes out is the least recently used key. */
  lemma {:induction false} OrderedByLastUse(ops: seq<Op>, capacity: nat)
    requires 0 < capacity
    ensures ByLastUse(Run(ops, capacity), ops) && |Run(ops, capacity)| <= capacity && DistinctKeys(Run(ops, capacity))
    decreases |ops|
  {
    if ops == [] {
    } else {
      var before, op := ops[..|ops| - 1], ops[|ops| - 1];
      OrderedByLastUse(before, capacity);
      ApplyKeepsOrder(Run(before, capacity), before, op, capacity);
      assert before + [op] == ops;
      OrderMeansDistinct(Run(ops, capacity), ops);
    }
  }

  /** The value of the last store to `k`. */
  predicate LastStored(ops: seq<Op>, k: int, v: int) {
    ops != [] && if ops[|ops| - 1].Put? && ops[|ops| - 1].key == k then ops[|ops| - 1].value == v
                 else LastStored(ops[..|ops| - 1], k, v)
  }

  /** What a lookup finds is what was last stored. */
  lemma {:induction false} FindsTheLastStored(ops: seq<Op>, capacity: nat, i: nat)
    requires 0 < capacity && i < |Run(ops, capacity)|
    ensures LastStored(ops, Run(ops, capacity)[i].0, Run(ops, capacity)[i].1)
    decreases |ops|
  {
    var before, op := ops[..|ops| - 1], ops[|ops| - 1];
    var s, t := Run(before, capacity), Run(ops, capacity);
    OrderedByLastUse(before, capacity);
    OrderedByLastUse(ops, capacity);
    var e := t[i];
    if !(op.Put? && op.key == e.0) {
      assert e in s by { FromBefore(s, op, capacity, i); }
      var j :| 0 <= j < |s| && s[j] == e;
      FindsTheLastStored(before, capacity, j);
    } else {
      assert e == t[|t| - 1];
    }
  }

  lemma FromBefore(s: seq<Entry>, op: Op, capacity: nat, i: nat)
    requires i < |Apply(s, op, capacity)|
    ensures var e := Apply(s, op, capacity)[i]; (op.Put? && e == (op.key, op.value)) || e in s
  {
  }

  // ---- one operation, by the bindings ------------------------------------------------------

  predicate Binds(s: seq<Entry>, k: int) { exists i :: 0 <= i < |s| && s[i].0 == k }

  /** What a lookup answers: the value that is bound, or -1. */
  lemma FoundIsBound(s: seq<Entry>, k: int)
    requires DistinctKeys(s)
    ensures forall v :: (k, v) in s ==> Found(s, k) == v
    ensures !Binds(s, k) ==> Found(s, k) == -1
    ensures Holds(s, k) <==> Binds(s, k)
  {
    var i := IndexOf(s, k);
    forall v | (k, v) in s ensures Found(s, k) == v {
      var j :| 0 <= j < |s| && s[j] == (k, v);
    }
    if Binds(s, k) {
      var j :| 0 <= j < |s| && s[j].0 == k;
    }
  }

  lemma WithoutHolds(s: seq<Entry>, i: nat, e: Entry)
    requires i < |s| && DistinctKeys(s)
    ensures e in Without(s, i) <==> e in s && e.0 != s[i].0
  {
    var t := Without(s, i);
    assert forall j :: 0 <= j < |t| ==> t[j] == s[if j < i then j else j + 1];
    if e in s && e.0 != s[i].0 {
      var j :| 0 <= j < |s| && s[j] == e;
      assert t[if j < i then j else j - 1] == e;
    }
  }

  lemma TouchedHolds(s: seq<Entry>, k: int, e: Entry)
    requires DistinctKeys(s)
    ensures e in Touched(s, k) <==> e in s
  {
    var i := IndexOf(s, k);
    if i < |s| {
      WithoutHolds(s, i, e);
      if e in s && e.0 == k {
        var j :| 0 <= j < |s| && s[j] == e;
      }
    }
  }

  /** A store where there is room, or where the key is bound already. */
  lemma StoredHolds(s: seq<Entry>, k: int, v: int, capacity: nat, e: Entry)
    requires DistinctKeys(s) && |s| <= capacity && (|s| < capacity || Binds(s, k))
    ensures e in Stored(s, k, v, capacity) <==> e == (k, v) || (e in s && e.0 != k)
  {
    var i := IndexOf(s, k);
    if i < |s| { WithoutHolds(s, i, e); }
  }

  /** A store of a new key in a full cache. */
  lemma StoredPushesOut(s: seq<Entry>, k: int, v: int, capacity: nat, e: Entry)
    requires DistinctKeys(s) && |s| == capacity > 0 && !Binds(s, k)
    ensures e in Stored(s, k, v, capacity) <==> e == (k, v) || (e in s && e != s[0])
  {
    assert IndexOf(s, k) == |s|;
    if e in s && e != s[0] {
      var j :| 0 <= j < |s| && s[j] == e;
      assert s[1..][j - 1] == e;
    }
    if e in s[1..] {
      var j :| 0 <= j < |s[1..]| && s[1..][j] == e;
      assert s[j + 1] == e && s[0].0 != s[j + 1].0;
    }
  }

  /** One more operation changes exactly this. A lookup changes no binding. A store binds its key and
      changes no other binding, except that a new key in a full cache pushes out one binding: that of
      the key whose last use is the longest ago. */
  lemma OneMoreOperation(ops: seq<Op>, op: Op, capacity: nat) returns (lru: Entry)
    requires 0 < capacity
    ensures var s, t := Run(ops, capacity), Run(ops + [op], capacity);
            && (op.Get? ==> forall e: Entry :: e in t <==> e in s)
            && (op.Put? && (|s| < capacity || Binds(s, op.key)) ==>
                  forall e: Entry :: e in t <==> e == (op.key, op.value) || (e in s && e.0 != op.key))
            && (op.Put? && |s| >= capacity && !Binds(s, op.key) ==>
                  && lru in s && (forall e: Entry :: e in s && e != lru ==> LastUse(ops, lru.0) < LastUse(ops, e.0))
                  && forall e: Entry :: e in t <==> e == (op.key, op.value) || (e in s && e != lru))
  {
    OrderedByLastUse(ops, capacity);
    var s, all := Run(ops, capacity), ops + [op];
    assert all[..|ops|] == ops && all[|ops|] == op;
    var t := Apply(s, op, capacity);
    hide Run, Stored, Touched, LastUse;
    lru := if s == [] then (0, 0) else s[0];
    match op
    case Get(k) => forall e: Entry ensures e in t <==> e in s { TouchedHolds(s, k, e); }
    case Put(k, v) =>
      if |s| < capacity || Binds(s, k) {
        forall e: Entry ensures e in t <==> e == (k, v) || (e in s && e.0 != k) { StoredHolds(s, k, v, capacity, e); }
      } else {
        forall e: Entry ensures e in t <==> e == (k, v) || (e in s && e != lru) { StoredPushesOut(s, k, v, capacity, e); }
        forall e: Entry | e in s && e != lru ensures LastUse(ops, lru.0) < LastUse(ops, e.0) {
          var j :| 0 <= j < |s| && s[j] == e;
        }
      }
  }
}

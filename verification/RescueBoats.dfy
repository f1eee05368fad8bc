/** Boats for one or two people: pairing the heaviest with the lightest uses as few as possible. */
module RescueBoats {
  import opened Reordering

  /** Two people, by index; or one, twice. */
  type Boat = (nat, nat)

  /** Pairs within `l..r` that fit, nobody in two of them. */
  predicate Matching(people: seq<int>, limit: int, l: int, r: int, pairs: set<Boat>)
    requires 0 <= l && r < |people|
  {
    && (forall p :: p in pairs ==> l <= p.0 < p.1 <= r && people[p.0] + people[p.1] <= limit)
    && Apart(pairs)
  }

  predicate Apart(pairs: set<Boat>) {
    forall p, q :: p in pairs && q in pairs && p != q ==> p.0 != q.0 && p.0 != q.1 && p.1 != q.0 && p.1 != q.1
  }

  /** The pairs that the two pointers form. */
  function Paired(people: seq<int>, limit: int, l: int, r: int): nat
    requires 0 <= l && r < |people|
    decreases r - l
  {
    if l >= r then 0
    else if people[l] + people[r] > limit then Paired(people, limit, l, r - 1)
    else 1 + Paired(people, limit, l + 1, r - 1)
  }

  /** The pair that person `i` is in. */
  predicate In(p: Boat, i: int) { p.0 == i || p.1 == i }

  function Pair(i: nat, j: nat): Boat { if i < j then (i, j) else (j, i) }

  /** Nobody can form more pairs: an exchange argument over the two outermost people. */
  lemma {:induction false} NoMatchingIsLarger(people: seq<int>, limit: int, l: int, r: int, pairs: set<Boat>)
    requires Ascending(people) && 0 <= l && r < |people| && Matching(people, limit, l, r, pairs)
    ensures |pairs| <= Paired(people, limit, l, r)
    decreases r - l
  {
    if l >= r {
      forall p ensures p !in pairs {}
      assert pairs == {};
    } else if people[l] + people[r] > limit {
      forall p | p in pairs ensures p.1 < r {
        assert people[l] <= people[p.0];
      }
      NoMatchingIsLarger(people, limit, l, r - 1, pairs);
    } else {
      var inner := Exchange(people, limit, l, r, pairs);
      NoMatchingIsLarger(people, limit, l + 1, r - 1, inner);
    }
  }

  /** Without the outermost two, what remains of a matching is one of the people between them. */
  lemma InnerMatching(people: seq<int>, limit: int, l: int, r: int, pairs: set<Boat>)
    requires 0 <= l < r < |people| && Matching(people, limit, l, r, pairs)
    requires forall p :: p in pairs ==> p.0 != l && p.1 != r
    ensures Matching(people, limit, l + 1, r - 1, pairs)
  {
  }

  /** A matching can be turned into one that leaves out the outermost two and loses one pair at most. */
  lemma Exchange(people: seq<int>, limit: int, l: int, r: int, pairs: set<Boat>) returns (inner: set<Boat>)
    requires Ascending(people) && 0 <= l < r < |people| && people[l] + people[r] <= limit
    requires Matching(people, limit, l, r, pairs)
    ensures Matching(people, limit, l + 1, r - 1, inner) && |pairs| <= |inner| + 1
  {
    if p :| p in pairs && p.0 == l {
      if q :| q in pairs && q.1 == r && q != p {
        SwapKeeps(people, limit, l, r, pairs, p, q);
        inner := Swapped(pairs, p, q);
      } else {
        inner := Dropped(people, limit, l, r, pairs, p);
      }
    } else if q :| q in pairs && q.1 == r {
      inner := Dropped(people, limit, l, r, pairs, q);
    } else {
      inner := pairs;
      InnerMatching(people, limit, l, r, inner);
    }
  }

  lemma Dropped(people: seq<int>, limit: int, l: int, r: int, pairs: set<Boat>, p: Boat) returns (inner: set<Boat>)
    requires 0 <= l < r < |people| && Matching(people, limit, l, r, pairs) && p in pairs
    requires forall q :: q in pairs && q != p ==> q.0 != l && q.1 != r
    ensures Matching(people, limit, l + 1, r - 1, inner) && |pairs| == |inner| + 1
  {
    inner := pairs - {p};
    assert Matching(people, limit, l, r, inner);
    InnerMatching(people, limit, l, r, inner);
  }

  /** The two partners sail together. */
  function Swapped(pairs: set<Boat>, p: Boat, q: Boat): set<Boat> { pairs - {p, q} + {Pair(p.1, q.0)} }

  lemma SwapKeeps(people: seq<int>, limit: int, l: int, r: int, pairs: set<Boat>, p: Boat, q: Boat)
    requires Ascending(people) && 0 <= l < r < |people| && Matching(people, limit, l, r, pairs)
    requires p in pairs && q in pairs && p != q && p.0 == l && q.1 == r
    ensures Matching(people, limit, l + 1, r - 1, Swapped(pairs, p, q)) && |Swapped(pairs, p, q)| == |pairs| - 1
  {
    var rest := pairs - {p, q};
    PartnersFit(people, limit, l, r, pairs, p, q);
    OthersMatch(people, limit, l, r, pairs, p, q);
    TwoLess(pairs, p, q);
    hide Matching, Ascending, In;
    OneMorePair(people, limit, l + 1, r - 1, rest, Pair(p.1, q.0));
  }

  lemma PartnersFit(people: seq<int>, limit: int, l: int, r: int, pairs: set<Boat>, p: Boat, q: Boat)
    requires Ascending(people) && 0 <= l < r < |people| && Matching(people, limit, l, r, pairs)
    requires p in pairs && q in pairs && p != q && p.0 == l && q.1 == r
    ensures l < p.1 < r && l < q.0 < r && p.1 != q.0 && people[p.1] + people[q.0] <= limit
  {
    assert people[p.1] <= people[r];
  }

  lemma OthersMatch(people: seq<int>, limit: int, l: int, r: int, pairs: set<Boat>, p: Boat, q: Boat)
    requires 0 <= l < r < |people| && Matching(people, limit, l, r, pairs)
    requires p in pairs && q in pairs && p != q && p.0 == l && q.1 == r
    ensures forall s :: s in pairs - {p, q} ==> !In(s, p.1) && !In(s, q.0)
    ensures Matching(people, limit, l + 1, r - 1, pairs - {p, q})
  {
    var rest := pairs - {p, q};
    assert Matching(people, limit, l, r, rest);
    forall s | s in rest ensures s.0 != l && s.1 != r && !In(s, p.1) && !In(s, q.0) {
      assert s in pairs;
    }
    InnerMatching(people, limit, l, r, rest);
  }

  lemma OneMorePair(people: seq<int>, limit: int, l: int, r: int, rest: set<Boat>, n: Boat)
    requires 0 <= l && r < |people| && Matching(people, limit, l, r, rest)
    requires l <= n.0 < n.1 <= r && people[n.0] + people[n.1] <= limit
    requires forall s :: s in rest ==> !In(s, n.0) && !In(s, n.1)
    ensures n !in rest && Matching(people, limit, l, r, rest + {n})
  {
    JoinsApart(rest, n);
  }

  lemma TwoLess(pairs: set<Boat>, p: Boat, q: Boat)
    requires p in pairs && q in pairs && p != q
    ensures |pairs - {p, q}| == |pairs| - 2
  {
    assert pairs - {p, q} == (pairs - {p}) - {q};
  }

  lemma JoinsApart(rest: set<Boat>, n: Boat)
    requires Apart(rest) && forall s :: s in rest ==> !In(s, n.0) && !In(s, n.1)
    ensures Apart(rest + {n})
  {
  }

  // ---- fleets ------------------------------------------------------------------------------

  predicate Carried(boats: set<Boat>, i: int) { exists b :: b in boats && In(b, i) }

  /** Everybody in exactly one boat, and no boat too heavy. */
  ghost predicate Fleet(people: seq<int>, limit: int, boats: set<Boat>) {
    && (forall b :: b in boats ==> Light(b, people, limit))
    && Apart(boats)
    && forall i :: 0 <= i < |people| ==> Carried(boats, i)
  }

  /** A boat of the people, not too heavy. */
  predicate Light(b: Boat, people: seq<int>, limit: int) {
    b.0 <= b.1 < |people| && (if b.0 == b.1 then people[b.0] else people[b.0] + people[b.1]) <= limit
  }

  function Doubles(boats: set<Boat>): set<Boat> { set b | b in boats && b.0 < b.1 }

  function Aboard(boats: set<Boat>): set<nat> { (set b | b in boats :: b.0) + (set b | b in boats :: b.1) }

  lemma {:induction false} SeatsTaken(boats: set<Boat>)
    requires Apart(boats) && forall b :: b in boats ==> b.0 <= b.1
    ensures |Aboard(boats)| == |boats| + |Doubles(boats)|
    decreases |boats|
  {
    if boats == {} {
      assert Aboard(boats) == {} && Doubles(boats) == {};
    } else {
      var b :| b in boats;
      var rest := boats - {b};
      SeatsTaken(rest);
      AboardSplits(boats, b);
    }
  }

  lemma AboardSplits(boats: set<Boat>, b: Boat)
    requires Apart(boats) && b in boats && b.0 <= b.1
    ensures |Aboard(boats)| == |Aboard(boats - {b})| + if b.0 < b.1 then 2 else 1
    ensures |Doubles(boats)| == |Doubles(boats - {b})| + if b.0 < b.1 then 1 else 0
  {
    AboardSplit(boats, b);
    DoublesSplit(boats, b);
    AddTwo(Aboard(boats - {b}), b.0, b.1);
    hide Aboard, Doubles;
  }

  lemma AboardSplit(boats: set<Boat>, b: Boat)
    requires Apart(boats) && b in boats
    ensures Aboard(boats) == Aboard(boats - {b}) + {b.0, b.1}
    ensures b.0 !in Aboard(boats - {b}) && b.1 !in Aboard(boats - {b})
  {
    forall c | c in boats - {b} ensures c.0 != b.0 && c.0 != b.1 && c.1 != b.0 && c.1 != b.1 {}
  }

  lemma DoublesSplit(boats: set<Boat>, b: Boat)
    requires b in boats
    ensures Doubles(boats) == Doubles(boats - {b}) + if b.0 < b.1 then {b} else {}
  {
  }

  lemma AddTwo(s: set<nat>, x: nat, y: nat)
    requires x !in s && y !in s
    ensures |s + {x, y}| == |s| + if x == y then 1 else 2
  {
    if x == y {
      assert s + {x, y} == s + {x};
    } else {
      assert s + {x, y} == s + {x} + {y};
    }
  }

  function Everyone(n: nat): (s: set<nat>)
    ensures |s| == n && forall i :: i in s <==> 0 <= i < n
  {
    if n == 0 then {} else Everyone(n - 1) + {n - 1}
  }

  lemma EverybodyAboard(people: seq<int>, limit: int, boats: set<Boat>)
    requires Fleet(people, limit, boats)
    ensures Aboard(boats) == Everyone(|people|)
  {
    forall i: nat ensures i in Aboard(boats) <==> i in Everyone(|people|) {
      if i < |people| {
        assert Carried(boats, i);
        var b :| b in boats && In(b, i);
      }
    }
  }

  lemma DoublesMatch(people: seq<int>, limit: int, boats: set<Boat>)
    requires Fleet(people, limit, boats)
    ensures Matching(people, limit, 0, |people| - 1, Doubles(boats))
  {
    hide Carried;
  }

  /** No fleet is smaller than what the two pointers count. */
  lemma NoFleetIsSmaller(people: seq<int>, limit: int, boats: set<Boat>)
    requires Ascending(people) && Fleet(people, limit, boats)
    ensures |boats| >= |people| - Paired(people, limit, 0, |people| - 1)
  {
    EverybodyAboard(people, limit, boats);
    DoublesMatch(people, limit, boats);
    SeatsTaken(boats);
    hide Aboard, Doubles, Matching, Paired, Everyone, Fleet;
    NoMatchingIsLarger(people, limit, 0, |people| - 1, Doubles(boats));
  }

  // ---- the same people in another order ----------------------------------------------------

  /** The boat of the same two people, when person `i` is known as `order[i]`. */
  function Moved(b: Boat, order: seq<nat>): Boat
    requires b.0 < |order| && b.1 < |order|
  {
    Pair(order[b.0], order[b.1])
  }

  ghost predicate Seated(boats: set<Boat>, n: nat) { forall b :: b in boats ==> b.0 < n && b.1 < n }

  function AllMoved(boats: set<Boat>, order: seq<nat>): set<Boat>
    requires forall b :: b in boats ==> b.0 < |order| && b.1 < |order|
  {
    set b | b in boats :: Moved(b, order)
  }

  lemma MovedApart(b: Boat, c: Boat, order: seq<nat>, back: seq<nat>, was: seq<int>, now: seq<int>)
    requires Reorders(order, back, was, now) && b.0 < |now| && b.1 < |now| && c.0 < |now| && c.1 < |now|
    requires b.0 != c.0 && b.0 != c.1 && b.1 != c.0 && b.1 != c.1
    ensures var p, q := Moved(b, order), Moved(c, order);
            p != q && p.0 != q.0 && p.0 != q.1 && p.1 != q.0 && p.1 != q.1
  {
    assert back[order[b.0]] == b.0 && back[order[b.1]] == b.1 && back[order[c.0]] == c.0 && back[order[c.1]] == c.1;
  }

  lemma MovedWeighs(b: Boat, order: seq<nat>, back: seq<nat>, was: seq<int>, now: seq<int>)
    requires Reorders(order, back, was, now) && b.0 < |now| && b.1 < |now|
    ensures var p := Moved(b, order);
            && p.0 <= p.1 < |was| && (p.0 == p.1 <==> b.0 == b.1)
            && (b.0 == b.1 ==> was[p.0] == now[b.0]) && (b.0 != b.1 ==> was[p.0] + was[p.1] == now[b.0] + now[b.1])
  {
    assert back[order[b.0]] == b.0 && back[order[b.1]] == b.1;
  }

  lemma OneMoreMoved(boats: set<Boat>, b: Boat, order: seq<nat>, back: seq<nat>, was: seq<int>, now: seq<int>)
    requires Reorders(order, back, was, now) && Apart(boats) && Seated(boats, |now|) && b in boats
    ensures AllMoved(boats, order) == AllMoved(boats - {b}, order) + {Moved(b, order)}
    ensures Moved(b, order) !in AllMoved(boats - {b}, order)
  {
    assert |order| == |now|;
    hide Reorders, Moved;
    forall c | c in boats - {b} ensures Moved(c, order) != Moved(b, order) {
      MovedApart(b, c, order, back, was, now);
    }
  }

  lemma {:induction false} AsManyMoved(boats: set<Boat>, order: seq<nat>, back: seq<nat>, was: seq<int>, now: seq<int>)
    requires Reorders(order, back, was, now) && Apart(boats) && Seated(boats, |now|)
    ensures |AllMoved(boats, order)| == |boats|
    decreases |boats|
  {
    assert |order| == |now|;
    if boats == {} {
      assert AllMoved(boats, order) == {};
    } else {
      var b :| b in boats;
      assert Apart(boats - {b}) && Seated(boats - {b}, |now|);
      OneMoreMoved(boats, b, order, back, was, now);
      hide Reorders, Moved, AllMoved, Apart;
      AsManyMoved(boats - {b}, order, back, was, now);
    }
  }

  lemma AllMovedApart(boats: set<Boat>, order: seq<nat>, back: seq<nat>, was: seq<int>, now: seq<int>)
    requires Reorders(order, back, was, now) && Apart(boats) && Seated(boats, |now|)
    ensures Apart(AllMoved(boats, order))
  {
    assert |order| == |now|;
    hide Reorders, Moved;
    forall p, q | p in AllMoved(boats, order) && q in AllMoved(boats, order) && p != q
      ensures p.0 != q.0 && p.0 != q.1 && p.1 != q.0 && p.1 != q.1
    {
      var b :| b in boats && Moved(b, order) == p;
      var c :| c in boats && Moved(c, order) == q;
      MovedApart(b, c, order, back, was, now);
    }
  }

  lemma AllMovedLight(order: seq<nat>, back: seq<nat>, was: seq<int>, now: seq<int>, limit: int, boats: set<Boat>)
    requires Reorders(order, back, was, now) && Seated(boats, |order|) && forall b :: b in boats ==> Light(b, now, limit)
    ensures forall p :: p in AllMoved(boats, order) ==> Light(p, was, limit)
  {
    assert |order| == |now| == |was|;
    hide Reorders, Moved;
    forall p | p in AllMoved(boats, order) ensures Light(p, was, limit) {
      var b :| b in boats && Moved(b, order) == p;
      assert Light(b, now, limit);
      MovedWeighs(b, order, back, was, now);
    }
  }

  /** A fleet for the people in one order is one of the same size for them in another. */
  lemma FleetMoves(order: seq<nat>, back: seq<nat>, was: seq<int>, now: seq<int>, limit: int, boats: set<Boat>)
    requires Reorders(order, back, was, now) && Fleet(now, limit, boats)
    ensures Seated(boats, |order|) && Fleet(was, limit, AllMoved(boats, order))
    ensures |AllMoved(boats, order)| == |boats|
  {
    assert |order| == |now| == |was|;
    hide Reorders, Apart, AllMoved, Carried;
    AsManyMoved(boats, order, back, was, now);
    AllMovedApart(boats, order, back, was, now);
    AllMovedLight(order, back, was, now, limit, boats);
    forall i | 0 <= i < |was| ensures Carried(AllMoved(boats, order), i) {
      CarriedMoves(order, back, was, now, boats, i);
    }
  }

  lemma CarriedMoves(order: seq<nat>, back: seq<nat>, was: seq<int>, now: seq<int>, boats: set<Boat>, i: nat)
    requires Reorders(order, back, was, now) && Seated(boats, |order|) && i < |was|
    requires forall j :: 0 <= j < |now| ==> Carried(boats, j)
    ensures Carried(AllMoved(boats, order), i)
  {
    assert Carried(boats, back[i]) && order[back[i]] == i;
    var b :| b in boats && In(b, back[i]);
    assert Moved(b, order) in AllMoved(boats, order) && In(Moved(b, order), i);
  }

  /** The boats still needed for the people in `l..r`. */
  function ToCome(people: seq<int>, limit: int, l: int, r: int): int
    requires 0 <= l && r < |people|
  {
    (if l <= r then r - l + 1 else 0) - Paired(people, limit, l, r)
  }

  lemma OneFewerToCome(people: seq<int>, limit: int, l: int, r: int)
    requires 0 <= l <= r < |people|
    ensures ToCome(people, limit, l, r) == 1 + if people[l] + people[r] > limit then ToCome(people, limit, l, r - 1)
                                               else ToCome(people, limit, l + 1, r - 1)
  {
  }

  lemma NoneToCome(people: seq<int>, limit: int, l: int, r: int)
    requires 0 <= l && r < |people| && l > r
    ensures ToCome(people, limit, l, r) == 0
  {
  }

  predicate NobodyTooHeavy(people: seq<int>, limit: int) { forall i :: 0 <= i < |people| ==> people[i] <= limit }

  /** `boats` is a fleet, and no fleet is smaller. */
  ghost predicate Smallest(people: seq<int>, limit: int, boats: set<Boat>) {
    Fleet(people, limit, boats) && forall other :: Fleet(people, limit, other) ==> |boats| <= |other|
  }

  /** So sorting the people first changes nothing. */
  lemma SmallestMoves(order: seq<nat>, back: seq<nat>, was: seq<int>, now: seq<int>, limit: int, boats: set<Boat>)
    requires Reorders(order, back, was, now) && Smallest(now, limit, boats)
    ensures Seated(boats, |order|) && Smallest(was, limit, AllMoved(boats, order)) && |AllMoved(boats, order)| == |boats|
  {
    FleetMoves(order, back, was, now, limit, boats);
    ReordersBack(order, back, was, now);
    hide Fleet, Reorders, AllMoved;
    forall other | Fleet(was, limit, other) ensures |boats| <= |other| {
      FleetMoves(back, order, now, was, limit, other);
    }
  }

  /** Nobody alone is too heavy for a boat. The list is sorted in place, as a side effect. */
  method NumRescueBoats(people: array<int>, limit: int) returns (ans: nat, ghost boats: set<Boat>)
    requires NobodyTooHeavy(people[..], limit)
    modifies people
    ensures people[..] == Sorted(old(people[..]))
    ensures Smallest(old(people[..]), limit, boats) && |boats| == ans
  {
    ghost var was := people[..];
    var sorted := Sorted(people[..]);
    forall i | 0 <= i < people.Length {
      people[i] := sorted[i];
    }
    assert people[..] == sorted;
    ghost var order, back := SortedReorders(was);
    SortedAscends(was);
    SortedFits(order, back, was, limit);
    hide *;
    ans, boats := TwoPointers(people[..], limit);
    SmallestMoves(order, back, was, sorted, limit, boats);
    boats := AllMoved(boats, order);
  }

  lemma SortedFits(order: seq<nat>, back: seq<nat>, was: seq<int>, limit: int)
    requires Reorders(order, back, was, Sorted(was)) && NobodyTooHeavy(was, limit)
    ensures NobodyTooHeavy(Sorted(was), limit)
  {
  }

  /** The loop, on the sorted list. */
  method TwoPointers(people: seq<int>, limit: int) returns (ans: nat, ghost boats: set<Boat>)
    requires Ascending(people) && NobodyTooHeavy(people, limit)
    ensures Smallest(people, limit, boats) && |boats| == ans
  {
    ans := 0;
    var l, r := 0, |people| - 1;
    hide *;
    while l <= r
      invariant 0 <= l <= r + 2 && r < |people|
      invariant ans + ToCome(people, limit, l, r) == ToCome(people, limit, 0, |people| - 1)
      decreases r - l + 1
    {
      var w := people[l] + people[r];
      OneFewerToCome(people, limit, l, r);
      if w > limit {
        r := r - 1;
      } else {
        l := l + 1;
        r := r - 1;
      }
      ans := ans + 1;
    }
    NoneToCome(people, limit, l, r);
    boats := SmallestFleet(people, limit);
  }

  /** The boats that the two pointers fill, one after the other. */
  lemma {:induction false} Board(people: seq<int>, limit: int, boats: set<Boat>, l: int, r: int, ans: nat)
    returns (all: set<Boat>)
    requires 0 <= l <= r + 2 && r < |people| && Rowing(people, limit, boats, l, r, ans) && NobodyTooHeavy(people, limit)
    ensures Fleet(people, limit, all) && |all| == ToCome(people, limit, 0, |people| - 1)
    decreases r - l + 2
  {
    hide *;
    if l > r {
      Landed(people, limit, boats, l, r, ans);
      all := boats;
    } else if people[l] + people[r] > limit {
      NextAlone(people, limit, boats, l, r, ans);
      all := Board(people, limit, boats + {Pair(r, r)}, l, r - 1, ans + 1);
    } else {
      NextPair(people, limit, boats, l, r, ans);
      all := Board(people, limit, boats + {Pair(l, r)}, l + 1, r - 1, ans + 1);
    }
  }

  lemma SmallestFleet(people: seq<int>, limit: int) returns (boats: set<Boat>)
    requires Ascending(people) && NobodyTooHeavy(people, limit)
    ensures Smallest(people, limit, boats) && |boats| == ToCome(people, limit, 0, |people| - 1)
  {
    hide *;
    NobodyAboard(people, limit);
    boats := Board(people, limit, {}, 0, |people| - 1, 0);
    Fewest(people, limit, boats);
  }

  /** `ans` boats have left, with everybody but those in `l..r`. */
  ghost predicate Rowing(people: seq<int>, limit: int, boats: set<Boat>, l: int, r: int, ans: nat)
    requires 0 <= l && r < |people|
  {
    |boats| == ans && ans + ToCome(people, limit, l, r) == ToCome(people, limit, 0, |people| - 1) && Aboarded(people, limit, boats, l, r)
  }

  lemma NobodyAboard(people: seq<int>, limit: int)
    ensures Rowing(people, limit, {}, 0, |people| - 1, 0)
  {
  }

  lemma NextAlone(people: seq<int>, limit: int, boats: set<Boat>, l: int, r: int, ans: nat)
    requires 0 <= l <= r < |people| && Rowing(people, limit, boats, l, r, ans) && NobodyTooHeavy(people, limit)
    requires people[l] + people[r] > limit
    ensures Rowing(people, limit, boats + {Pair(r, r)}, l, r - 1, ans + 1)
  {
    assert people[r] <= limit;
    hide Aboarded, ToCome;
    OneMoreBoat(people, limit, boats, l, r, Pair(r, r));
    OneFewerToCome(people, limit, l, r);
  }

  lemma NextPair(people: seq<int>, limit: int, boats: set<Boat>, l: int, r: int, ans: nat)
    requires 0 <= l <= r < |people| && Rowing(people, limit, boats, l, r, ans) && NobodyTooHeavy(people, limit)
    requires people[l] + people[r] <= limit
    ensures Rowing(people, limit, boats + {Pair(l, r)}, l + 1, r - 1, ans + 1)
  {
    assert people[r] <= limit;
    hide Aboarded, ToCome;
    OneMoreBoat(people, limit, boats, l, r, Pair(l, r));
    OneFewerToCome(people, limit, l, r);
  }

  lemma Landed(people: seq<int>, limit: int, boats: set<Boat>, l: int, r: int, ans: nat)
    requires 0 <= l && r < |people| && l > r && Rowing(people, limit, boats, l, r, ans)
    ensures Fleet(people, limit, boats) && |boats| == ans == ToCome(people, limit, 0, |people| - 1)
  {
    NoneToCome(people, limit, l, r);
    AllAboard(people, limit, boats, l, r);
    hide Fleet;
  }

  lemma Fewest(people: seq<int>, limit: int, boats: set<Boat>)
    requires Ascending(people) && Fleet(people, limit, boats) && |boats| == ToCome(people, limit, 0, |people| - 1)
    ensures Smallest(people, limit, boats)
  {
    assert |boats| == |people| - Paired(people, limit, 0, |people| - 1);
    hide Ascending, Fleet, Paired, ToCome;
    forall other | Fleet(people, limit, other) ensures |boats| <= |other| {
      NoFleetIsSmaller(people, limit, other);
    }
  }

  lemma AllAboard(people: seq<int>, limit: int, boats: set<Boat>, l: int, r: int)
    requires Aboarded(people, limit, boats, l, r) && l > r
    ensures Fleet(people, limit, boats)
  {
    hide Carried;
  }

  /** All but those in `l..r` are aboard. */
  ghost predicate Aboarded(people: seq<int>, limit: int, boats: set<Boat>, l: int, r: int) {
    && (forall b :: b in boats ==> Light(b, people, limit) && !(l <= b.0 <= r) && !(l <= b.1 <= r))
    && Apart(boats)
    && forall i :: 0 <= i < |people| && !(l <= i <= r) ==> Carried(boats, i)
  }

  lemma OneMoreBoat(people: seq<int>, limit: int, boats: set<Boat>, l: int, r: int, b: Boat)
    requires 0 <= l <= r < |people| && Aboarded(people, limit, boats, l, r) && people[r] <= limit
    requires if people[l] + people[r] > limit then b == (r, r) else b == (l, r)
    ensures b !in boats
    ensures if people[l] + people[r] > limit then Aboarded(people, limit, boats + {b}, l, r - 1)
            else Aboarded(people, limit, boats + {b}, l + 1, r - 1)
  {
    var now := boats + {b};
    forall c | c in boats ensures !In(c, b.0) && !In(c, b.1) {}
    JoinsApart(boats, b);
    forall i | In(b, i) ensures Carried(now, i) { assert b in now; }
    forall i | Carried(boats, i) ensures Carried(now, i) {
      var c :| c in boats && In(c, i);
      assert c in now;
    }
    hide Carried, Apart;
  }
}

/** Sums over the counts of the distinct tasks, level by level. */
module TaskCounts {
  import opened TaskSchedule

  /** The runs above level `j`: what is left when every task may drop its last `j` runs. */
  function Above(cs: seq<nat>, j: nat): nat {
    if cs == [] then 0
    else Above(cs[..|cs| - 1], j) + if cs[|cs| - 1] > j then cs[|cs| - 1] - j else 0
  }

  /** How many tasks have more than `j` runs. */
  function Width(cs: seq<nat>, j: nat): nat {
    if cs == [] then 0 else Width(cs[..|cs| - 1], j) + if cs[|cs| - 1] > j then 1 else 0
  }

  lemma {:induction false} LevelStep(cs: seq<nat>, j: nat)
    ensures Above(cs, j) == Above(cs, j + 1) + Width(cs, j)
    ensures Width(cs, j + 1) <= Width(cs, j)
    decreases |cs|
  {
    if cs == [] {
    } else {
      LevelStep(cs[..|cs| - 1], j);
    }
  }

  lemma {:induction false} OneRunLess(cs: seq<nat>, i: nat, j: nat)
    requires i < |cs| && cs[i] > 0
    ensures Above(cs[i := cs[i] - 1], j) == Above(cs, j) - if cs[i] > j then 1 else 0
    ensures cs[i] > j ==> Above(cs, j) >= 1
    decreases |cs|
  {
    var m := |cs| - 1;
    var less := cs[i := cs[i] - 1];
    if i < m {
      OneRunLess(cs[..m], i, j);
      assert less[..m] == cs[..m][i := cs[i] - 1];
    } else {
      assert less[..m] == cs[..m];
    }
  }

  lemma {:induction false} NothingAbove(cs: seq<nat>, f: nat)
    requires forall i :: 0 <= i < |cs| ==> cs[i] <= f
    ensures Above(cs, f) == 0
    decreases |cs|
  {
    if cs == [] {
    } else {
      NothingAbove(cs[..|cs| - 1], f);
    }
  }

  function Level(cs: seq<nat>, n: nat, j: nat): int { Above(cs, j) + Gap(j, n) }

  /** While levels are wide, going down loses nothing ... */
  lemma {:induction false} WideLevels(cs: seq<nat>, n: nat, j: nat)
    requires j > 0 ==> Width(cs, j - 1) >= n + 1
    ensures Level(cs, n, j) <= Above(cs, 0)
  {
    hide Gap;
    GapStep(0, n);
    if j == 0 {
    } else {
      LevelStep(cs, j - 1);
      GapStep(j - 1, n);
      if j > 1 { LevelStep(cs, j - 2); }
      WideLevels(cs, n, j - 1);
    }
  }

  /** ... and from the first narrow one on, going up loses nothing. */
  lemma {:induction false} NarrowLevels(cs: seq<nat>, n: nat, j: nat, f: nat)
    requires j < f && Width(cs, j) <= n + 1
    requires forall i :: 0 <= i < |cs| ==> cs[i] <= f
    ensures Level(cs, n, j) <= Gap(f - 1, n) + Width(cs, f - 1)
    decreases f - j
  {
    hide Gap;
    LevelStep(cs, j);
    if j == f - 1 {
      NothingAbove(cs, f);
    } else {
      GapStep(j, n);
      NarrowLevels(cs, n, j + 1, f);
    }
  }

  /** So every level stays below the larger of the two ends. */
  lemma LevelsAreBounded(cs: seq<nat>, n: nat, j: nat, f: nat)
    requires j < f && forall i :: 0 <= i < |cs| ==> cs[i] <= f
    ensures Level(cs, n, j) <= Max(Above(cs, 0), Gap(f - 1, n) + Width(cs, f - 1))
  {
    hide Gap, Level;
    if Width(cs, j) <= n + 1 {
      NarrowLevels(cs, n, j, f);
    } else {
      if j > 0 { LevelStep(cs, j - 1); }
      WideLevels(cs, n, j);
    }
  }

  // ---- the counts of a list of tasks -------------------------------------------------------

  predicate DistinctNames(names: seq<Task>) {
    forall i, j :: 0 <= i < j < |names| ==> names[i] != names[j]
  }

  /** `names` lists each task of `m` once, `counts` how often it occurs. */
  predicate Tally(m: multiset<Task>, names: seq<Task>, counts: seq<nat>) {
    && |names| == |counts| && DistinctNames(names)
    && (forall i :: 0 <= i < |names| ==> counts[i] > 0 && m[names[i]] == counts[i])
    && (forall t :: t in m ==> t in names)
  }

  lemma TallyOfRest(m: multiset<Task>, names: seq<Task>, counts: seq<nat>)
    requires Tally(m, names, counts) && names != []
    ensures var k := |names| - 1;
            Tally(m[names[k] := 0], names[..k], counts[..k]) && m[names[k]] == counts[k]
  {
    var k := |names| - 1;
    var less := m[names[k] := 0];
    forall t | t in less ensures t in names[..k] {
      assert t in m;
      var i :| 0 <= i < |names| && names[i] == t;
      assert names[..k][i] == t;
    }
  }

  lemma {:induction false} TallyTotal(m: multiset<Task>, names: seq<Task>, counts: seq<nat>)
    requires Tally(m, names, counts)
    ensures Above(counts, 0) == |m|
    decreases |names|
  {
    if names == [] {
      assert m == multiset{};
    } else {
      var k := |names| - 1;
      TallyOfRest(m, names, counts);
      hide DistinctNames;
      TallyTotal(m[names[k] := 0], names[..k], counts[..k]);
      assert |m[names[k] := 0]| == |m| - counts[k];
    }
  }

  function Named(names: seq<Task>, counts: seq<nat>, j: nat): set<Task>
    requires |names| == |counts|
  {
    if names == [] then {}
    else
      var k := |names| - 1;
      Named(names[..k], counts[..k], j) + if counts[k] > j then {names[k]} else {}
  }

  predicate Listed(names: seq<Task>, counts: seq<nat>, j: nat, t: Task)
    requires |names| == |counts|
  {
    exists i :: 0 <= i < |names| && names[i] == t && counts[i] > j
  }

  lemma ListedStep(names: seq<Task>, counts: seq<nat>, j: nat, t: Task)
    requires |names| == |counts| && names != []
    ensures var k := |names| - 1;
            Listed(names, counts, j, t) <==> Listed(names[..k], counts[..k], j, t) || (names[k] == t && counts[k] > j)
  {
    var k := |names| - 1;
    if Listed(names[..k], counts[..k], j, t) {
      var i :| 0 <= i < k && names[..k][i] == t && counts[..k][i] > j;
      assert names[i] == t && counts[i] > j;
    }
    if Listed(names, counts, j, t) {
      var i :| 0 <= i < |names| && names[i] == t && counts[i] > j;
      if i < k {
        assert names[..k][i] == t && counts[..k][i] > j;
      }
    }
  }

  lemma {:induction false} NamedAre(names: seq<Task>, counts: seq<nat>, j: nat)
    requires |names| == |counts| && DistinctNames(names)
    ensures |Named(names, counts, j)| == Width(counts, j)
    ensures forall t :: t in Named(names, counts, j) <==> Listed(names, counts, j, t)
    decreases |names|
  {
    if names == [] {
    } else {
      var k := |names| - 1;
      NamedAre(names[..k], counts[..k], j);
      assert !Listed(names[..k], counts[..k], j, names[k]);
      hide Listed;
      forall t ensures t in Named(names, counts, j) <==> Listed(names, counts, j, t) {
        ListedStep(names, counts, j, t);
      }
    }
  }

  /** The bound, read off the counts. */
  lemma TallyBound(tasks: seq<Task>, names: seq<Task>, counts: seq<nat>, n: nat)
    requires Tally(multiset(tasks), names, counts) && tasks != []
    ensures TopFrequency(tasks) > 0
    ensures forall i :: 0 <= i < |counts| ==> counts[i] <= TopFrequency(tasks)
    ensures Bound(tasks, n) == Max(Above(counts, 0), Gap(TopFrequency(tasks) - 1, n) + Width(counts, TopFrequency(tasks) - 1))
  {
    hide Gap, Tops, Tally;
    var f := TopFrequency(tasks);
    TallyTotal(multiset(tasks), names, counts);
    assert |multiset(tasks)| == |tasks|;
    TopsAreWidest(tasks, names, counts);
  }

  lemma CountsAtMostTop(tasks: seq<Task>, names: seq<Task>, counts: seq<nat>, i: nat)
    requires Tally(multiset(tasks), names, counts) && i < |counts|
    ensures counts[i] <= TopFrequency(tasks)
  {
    TopOverIsMax(tasks, |tasks|);
    assert names[i] in multiset(tasks);
    var j :| 0 <= j < |tasks| && tasks[j] == names[i];
  }

  lemma TopsAreListed(tasks: seq<Task>, names: seq<Task>, counts: seq<nat>, t: Task)
    requires Tally(multiset(tasks), names, counts) && TopFrequency(tasks) > 0
    ensures t in Tops(tasks) <==> Listed(names, counts, TopFrequency(tasks) - 1, t)
  {
    if t in Tops(tasks) {
      assert t in multiset(tasks);
      var i :| 0 <= i < |names| && names[i] == t;
      assert counts[i] > TopFrequency(tasks) - 1;
    }
    if Listed(names, counts, TopFrequency(tasks) - 1, t) {
      var i :| 0 <= i < |names| && names[i] == t && counts[i] > TopFrequency(tasks) - 1;
      CountsAtMostTop(tasks, names, counts, i);
      assert t in multiset(tasks);
    }
  }

  lemma TopsAreWidest(tasks: seq<Task>, names: seq<Task>, counts: seq<nat>)
    requires Tally(multiset(tasks), names, counts) && tasks != []
    ensures TopFrequency(tasks) > 0
    ensures forall i :: 0 <= i < |counts| ==> counts[i] <= TopFrequency(tasks)
    ensures |Tops(tasks)| == Width(counts, TopFrequency(tasks) - 1)
  {
    assert DistinctNames(names) && |names| == |counts|;
    hide *;
    TopIsPositive(tasks);
    WidthIsNamed(names, counts, TopFrequency(tasks) - 1);
    TopsAreNamed(tasks, names, counts);
    CountsAtMostTopAll(tasks, names, counts);
  }

  lemma WidthIsNamed(names: seq<Task>, counts: seq<nat>, j: nat)
    requires |names| == |counts| && DistinctNames(names)
    ensures |Named(names, counts, j)| == Width(counts, j)
  {
    NamedAre(names, counts, j);
  }

  lemma CountsAtMostTopAll(tasks: seq<Task>, names: seq<Task>, counts: seq<nat>)
    requires Tally(multiset(tasks), names, counts)
    ensures forall i :: 0 <= i < |counts| ==> counts[i] <= TopFrequency(tasks)
  {
    forall i | 0 <= i < |counts| ensures counts[i] <= TopFrequency(tasks) {
      CountsAtMostTop(tasks, names, counts, i);
    }
  }

  lemma TopIsNamed(tasks: seq<Task>, names: seq<Task>, counts: seq<nat>, t: Task)
    requires Tally(multiset(tasks), names, counts) && TopFrequency(tasks) > 0
    ensures t in Tops(tasks) <==> t in Named(names, counts, TopFrequency(tasks) - 1)
  {
    NamedAre(names, counts, TopFrequency(tasks) - 1);
    TopsAreListed(tasks, names, counts, t);
  }

  lemma TopsAreNamed(tasks: seq<Task>, names: seq<Task>, counts: seq<nat>)
    requires Tally(multiset(tasks), names, counts) && TopFrequency(tasks) > 0
    ensures Tops(tasks) == Named(names, counts, TopFrequency(tasks) - 1)
  {
    assert |names| == |counts|;
    hide *;
    forall t ensures t in Tops(tasks) <==> t in Named(names, counts, TopFrequency(tasks) - 1) {
      TopIsNamed(tasks, names, counts, t);
    }
  }

  lemma TopIsPositive(tasks: seq<Task>)
    requires tasks != []
    ensures TopFrequency(tasks) > 0
  {
    TopOverIsMax(tasks, |tasks|);
    assert tasks[0] in multiset(tasks);
  }
}

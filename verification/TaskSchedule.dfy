/** Schedules with a cooldown: what is valid, and how short one can be. */
module TaskSchedule {
  import opened Wrappers

  type Task = string

  /** One slot per unit of time; `None` is an idle slot. */
  type Schedule = seq<Option<Task>>

  function Bag(s: Schedule): (b: multiset<Task>)
    ensures |b| <= |s|
  {
    if s == [] then multiset{}
    else
      var last := s[|s| - 1];
      Bag(s[..|s| - 1]) + if last.Some? then multiset{last.value} else multiset{}
  }

  lemma BagStep(s: Schedule, t: Task)
    requires s != []
    ensures Bag(s)[t] == Bag(s[..|s| - 1])[t] + if s[|s| - 1] == Some(t) then 1 else 0
  {
  }

  lemma {:induction false} InBag(s: Schedule, t: Task)
    ensures Bag(s)[t] > 0 <==> exists i :: 0 <= i < |s| && s[i] == Some(t)
    decreases |s|
  {
    if s == [] {
    } else {
      var before := s[..|s| - 1];
      InBag(before, t);
      assert forall i :: 0 <= i < |before| ==> before[i] == s[i];
    }
  }

  predicate Spaced(s: Schedule, n: nat) {
    forall i, j :: 0 <= i < j < |s| && s[i].Some? && s[i] == s[j] ==> j - i > n
  }

  predicate Valid(s: Schedule, tasks: seq<Task>, n: nat) {
    Bag(s) == multiset(tasks) && Spaced(s, n)
  }

  /** The slots that `k` cooldowns take. */
  function Gap(k: int, n: nat): int { k * (n + 1) }

  lemma GapStep(k: int, n: nat)
    ensures Gap(k + 1, n) == Gap(k, n) + n + 1 && Gap(0, n) == 0
  {
  }

  function Max(a: int, b: int): int { if a >= b then a else b }

  function TopOver(tasks: seq<Task>, k: nat): nat
    requires k <= |tasks|
  {
    if k == 0 then 0 else Max(TopOver(tasks, k - 1), multiset(tasks)[tasks[k - 1]])
  }

  /** How often the most frequent task occurs. */
  function TopFrequency(tasks: seq<Task>): nat { TopOver(tasks, |tasks|) }

  /** The tasks that occur that often. */
  function Tops(tasks: seq<Task>): set<Task> {
    set t | t in tasks && multiset(tasks)[t] == TopFrequency(tasks)
  }

  /** The least number of slots. */
  function Bound(tasks: seq<Task>, n: nat): nat {
    if tasks == [] then 0
    else Max(|tasks|, Gap(TopFrequency(tasks) - 1, n) + |Tops(tasks)|)
  }

  lemma {:induction false} TopOverIsMax(tasks: seq<Task>, k: nat)
    requires k <= |tasks|
    ensures forall i :: 0 <= i < k ==> multiset(tasks)[tasks[i]] <= TopOver(tasks, k)
    ensures k > 0 ==> exists i :: 0 <= i < k && multiset(tasks)[tasks[i]] == TopOver(tasks, k)
  {
    if k == 0 {
    } else {
      TopOverIsMax(tasks, k - 1);
      if k == 1 || multiset(tasks)[tasks[k - 1]] >= TopOver(tasks, k - 1) {
        assert tasks[k - 1] in multiset(tasks);
        assert multiset(tasks)[tasks[k - 1]] == TopOver(tasks, k);
      } else {
        var i :| 0 <= i < k - 1 && multiset(tasks)[tasks[i]] == TopOver(tasks, k - 1);
        assert multiset(tasks)[tasks[i]] == TopOver(tasks, k);
      }
    }
  }

  // ---- no schedule is shorter --------------------------------------------------------------

  predicate IsFirst(s: Schedule, t: Task, i: nat) {
    i < |s| && s[i] == Some(t) && forall j :: 0 <= j < i ==> s[j] != Some(t)
  }

  predicate IsLast(s: Schedule, t: Task, i: nat) {
    i < |s| && s[i] == Some(t) && forall j :: i < j < |s| ==> s[j] != Some(t)
  }

  /** The `k` runs of a task reach from its first one `k - 1` cooldowns on. */
  lemma {:induction false} RunsSpread(s: Schedule, t: Task, n: nat, first: nat) returns (last: nat)
    requires Spaced(s, n) && IsFirst(s, t, first)
    ensures IsLast(s, t, last) && first + Gap(Bag(s)[t] as int - 1, n) <= last
    decreases |s|
  {
    hide Gap, Bag;
    var m := |s| - 1;
    var before := s[..m];
    BagStep(s, t);
    assert forall j :: 0 <= j < m ==> s[j] == before[j];
    GapStep(0, n);
    if first < m {
      last := RunsSpread(before, t, n, first);
      if s[m] == Some(t) {
        assert m - last > n;
        GapStep(Bag(before)[t] as int - 1, n);
        last := m;
      }
    } else {
      last := m;
      InBag(before, t);
      assert Bag(before)[t] == 0;
    }
  }

  lemma FirstExists(s: Schedule, t: Task) returns (i: nat)
    requires Bag(s)[t] > 0
    ensures IsFirst(s, t, i)
    decreases |s|
  {
    var before := s[..|s| - 1];
    if Bag(before)[t] > 0 {
      i := FirstExists(before, t);
      assert forall j :: 0 <= j < |before| ==> s[j] == before[j];
    } else {
      i := |s| - 1;
      InBag(before, t);
      assert forall j :: 0 <= j < |before| ==> s[j] == before[j];
    }
  }

  /** At most `k` keys have distinct values below `k`. */
  lemma {:induction false} Pigeonhole(f: map<Task, nat>, k: nat)
    requires forall a, b :: a in f && b in f && f[a] == f[b] ==> a == b
    requires forall a :: a in f ==> f[a] < k
    ensures |f| <= k
  {
    if k == 0 {
      assert f.Keys == {};
    } else if exists a :: a in f && f[a] == k - 1 {
      var a :| a in f && f[a] == k - 1;
      var rest := f - {a};
      assert rest.Keys == f.Keys - {a};
      Pigeonhole(rest, k - 1);
    } else {
      Pigeonhole(f, k - 1);
    }
  }

  /** The top tasks start at different slots, and each needs its own run of cooldowns after that. */
  lemma TopTasksNeedRoom(s: Schedule, tasks: seq<Task>, n: nat)
    requires Valid(s, tasks, n) && tasks != []
    ensures |s| >= Gap(TopFrequency(tasks) - 1, n) + |Tops(tasks)|
  {
    hide Gap, Spaced, Bag;
    var tops, room := Tops(tasks), |s| - Gap(TopFrequency(tasks) - 1, n);
    forall t | t in tops ensures exists i: nat :: IsFirst(s, t, i) && i < room {
      assert t in multiset(tasks);
      var i := FirstExists(s, t);
      var last := RunsSpread(s, t, n, i);
    }
    ghost var starts := map t | t in tops :: StartOf(s, t, room);
    assert starts.Keys == tops;
    var some := SomeTop(tasks);
    assert starts[some] < room;
    forall a, b | a in starts && b in starts && starts[a] == starts[b] ensures a == b {
      assert s[starts[a]] == Some(a) && s[starts[b]] == Some(b);
    }
    Pigeonhole(starts, room);
    assert |starts| == |starts.Keys|;
  }

  ghost function StartOf(s: Schedule, t: Task, room: int): (i: nat)
    requires exists i: nat :: IsFirst(s, t, i) && i < room
    ensures IsFirst(s, t, i) && i < room
  {
    var i: nat :| IsFirst(s, t, i) && i < room; i
  }

  lemma SomeTop(tasks: seq<Task>) returns (t: Task)
    requires tasks != []
    ensures t in Tops(tasks)
  {
    TopOverIsMax(tasks, |tasks|);
    var i :| 0 <= i < |tasks| && multiset(tasks)[tasks[i]] == TopFrequency(tasks);
    t := tasks[i];
  }

  lemma NoScheduleIsShorter(s: Schedule, tasks: seq<Task>, n: nat)
    requires Valid(s, tasks, n)
    ensures |s| >= Bound(tasks, n)
  {
    hide Gap;
    assert |multiset(tasks)| == |tasks|;
    if tasks != [] {
      TopTasksNeedRoom(s, tasks, n);
    }
  }
}

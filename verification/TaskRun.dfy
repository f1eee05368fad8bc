/** The scheduling loop itself, on the heap and the queue it keeps. */
module TaskRun {
  import opened Wrappers
  import opened TaskSchedule
  import opened TaskCounts
  import opened TaskScheduler

  // ---- the schedule laid out so far --------------------------------------------------------

  /** `t` does not run from slot `from` on. */
  predicate Quiet(s: Schedule, t: Task, from: int) {
    forall q :: 0 <= q < |s| && q >= from ==> s[q] != Some(t)
  }

  predicate Tallied(p: Plan, s: Sim) {
    && |s.rem| == |p.counts| == |p.names|
    && (forall i :: 0 <= i < |p.names| ==> Bag(s.schedule)[p.names[i]] + s.rem[i] == p.counts[i])
    && (forall t :: t in Bag(s.schedule) ==> t in p.names)
  }

  predicate Rested(p: Plan, s: Sim)
    requires PlacedOnce(s) && |s.rem| == |p.names|
  {
    && (forall i :: 0 <= i < |s.ready| ==> Quiet(s.schedule, p.names[s.ready[i]], s.time - p.n))
    && (forall i :: 0 <= i < |s.cooling| ==> Quiet(s.schedule, p.names[s.cooling[i].job], s.cooling[i].at - 1 - p.n))
  }

  predicate Laid(p: Plan, s: Sim)
    requires PlacedOnce(s)
  {
    |s.schedule| == s.time && Tallied(p, s) && Spaced(s.schedule, p.n) && Rested(p, s)
  }

  lemma AwakeAreRested(p: Plan, s: Sim)
    requires PlacedOnce(s) && |s.rem| == |p.names| && Rested(p, s)
    ensures ReadyRested(p.names, s.schedule, Awake(s), s.time - p.n)
    ensures CoolingRested(p.names, s.schedule, Asleep(s), p.n)
  {
    AwakeAt(s);
    var woken := AsleepAt(s);
    hide Quiet, Apart, Awake, Asleep;
    AwakeAreReadyRested(p, s);
    forall i | 0 <= i < |Asleep(s)|
      ensures Asleep(s)[i].job < |p.names| && Quiet(s.schedule, p.names[Asleep(s)[i].job], Asleep(s)[i].at - 1 - p.n)
    {
      assert Asleep(s)[i] == s.cooling[i + woken];
    }
  }

  lemma AwakeAreReadyRested(p: Plan, s: Sim)
    requires PlacedOnce(s) && |s.rem| == |p.names| && Rested(p, s)
    ensures ReadyRested(p.names, s.schedule, Awake(s), s.time - p.n)
  {
    AwakeAt(s);
    hide Quiet, Apart, Awake;
    forall i | 0 <= i < |Awake(s)|
      ensures Awake(s)[i] < |p.names| && Quiet(s.schedule, p.names[Awake(s)[i]], s.time - p.n)
    {
      if i < |s.ready| {
        assert Awake(s)[i] == s.ready[i];
      } else {
        assert s.cooling[0].at - 1 - p.n == s.time - p.n;
      }
    }
  }

  lemma QuietGoesOn(s: Schedule, t: Task, from: int, x: Option<Task>)
    requires Quiet(s, t, from) && x != Some(t)
    ensures Quiet(s + [x], t, from) && Quiet(s + [x], t, from + 1)
  {
  }

  lemma SpacedGoesOn(s: Schedule, n: nat, t: Task)
    requires Spaced(s, n) && Quiet(s, t, |s| - n)
    ensures Spaced(s + [Some(t)], n)
  {
  }

  lemma BagGoesOn(s: Schedule, x: Option<Task>)
    ensures Bag(s + [x]) == Bag(s) + if x.Some? then multiset{x.value} else multiset{}
  {
    assert (s + [x])[..|s|] == s;
  }

  lemma RunKeepsTallied(p: Plan, s: Sim, k: nat)
    requires Tallied(p, s) && DistinctNames(p.names) && k < |Awake(s)| && JobAt(s, k) < |s.rem| && s.rem[JobAt(s, k)] > 0
    ensures Tallied(p, RunJob(p, s, k))
  {
    hide Bag;
    BagGoesOn(s.schedule, Some(p.names[JobAt(s, k)]));
  }

  predicate ReadyRested(names: seq<Task>, schedule: Schedule, ready: seq<nat>, from: int) {
    forall i :: 0 <= i < |ready| ==> ready[i] < |names| && Quiet(schedule, names[ready[i]], from)
  }

  predicate CoolingRested(names: seq<Task>, schedule: Schedule, cooling: seq<Rest>, n: nat) {
    forall i :: 0 <= i < |cooling| ==> cooling[i].job < |names| && Quiet(schedule, names[cooling[i].job], cooling[i].at - 1 - n)
  }

  lemma RunKeepsReadyRested(names: seq<Task>, rem: seq<nat>, schedule: Schedule, awake: seq<nat>, from: int, k: nat)
    requires DistinctNames(names) && ReadyOnce(awake, rem) && k < |awake| && ReadyRested(names, schedule, awake, from)
    ensures ReadyRested(names, schedule + [Some(names[awake[k]])], Without(awake, k), from + 1)
  {
    WithoutAt(awake, k);
    hide Without, Quiet;
    var rest := Without(awake, k);
    forall i | 0 <= i < |rest| ensures rest[i] < |names| && Quiet(schedule + [Some(names[awake[k]])], names[rest[i]], from + 1) {
      var j := if i < k then i else i + 1;
      assert rest[i] == awake[j] != awake[k];
      QuietGoesOn(schedule, names[rest[i]], from, Some(names[awake[k]]));
    }
  }

  lemma RunKeepsCoolingRested(names: seq<Task>, schedule: Schedule, asleep: seq<Rest>, job: nat, left: nat, at: int, n: nat)
    requires DistinctNames(names) && job < |names| && CoolingRested(names, schedule, asleep, n)
    requires forall j :: 0 <= j < |asleep| ==> asleep[j].job != job
    requires at - 1 - n > |schedule|
    ensures CoolingRested(names, schedule + [Some(names[job])], asleep + Resting(at, job, left), n)
  {
    var cooling, x := asleep + Resting(at, job, left), Some(names[job]);
    NeverLater(schedule + [x], names[job], at - 1 - n);
    hide Quiet;
    forall i | 0 <= i < |cooling|
      ensures cooling[i].job < |names| && Quiet(schedule + [x], names[cooling[i].job], cooling[i].at - 1 - n)
    {
      if i < |asleep| {
        assert cooling[i] == asleep[i];
        QuietGoesOn(schedule, names[asleep[i].job], asleep[i].at - 1 - n, x);
      }
    }
  }

  lemma NeverLater(s: Schedule, t: Task, from: int)
    requires from >= |s|
    ensures Quiet(s, t, from)
  {
  }

  lemma RunKeepsRested(p: Plan, s: Sim, k: nat)
    requires PlacedOnce(s) && |s.rem| == |p.names| && Rested(p, s) && DistinctNames(p.names) && |s.schedule| == s.time
    requires k < |Awake(s)| && JobAt(s, k) < |s.rem| && s.rem[JobAt(s, k)] > 0
    requires PlacedOnce(RunJob(p, s, k))
    ensures Rested(p, RunJob(p, s, k))
  {
    AwakeAreRested(p, s);
    AwakeAreUnfinished(s);
    var awake, asleep := Awake(s), Asleep(s);
    assert forall j :: 0 <= j < |asleep| ==> asleep[j].job != awake[k];
    hide Awake, Asleep, PlacedOnce, ReadyOnce, CoolingOnce, Apart, Quiet, DistinctNames, Rested;
    RunKeepsReadyRested(p.names, s.rem, s.schedule, awake, s.time - p.n, k);
    RunKeepsCoolingRested(p.names, s.schedule, asleep, awake[k], s.rem[awake[k]] - 1, s.time + 2 + p.n, p.n);
    hide ReadyRested, CoolingRested, Without, Resting;
    RestedFrom(p, RunJob(p, s, k));
  }

  lemma RestedFrom(p: Plan, s: Sim)
    requires PlacedOnce(s) && |s.rem| == |p.names|
    requires ReadyRested(p.names, s.schedule, s.ready, s.time - p.n) && CoolingRested(p.names, s.schedule, s.cooling, p.n)
    ensures Rested(p, s)
  {
    hide Quiet;
  }

  lemma RunKeepsLaid(p: Plan, s: Sim, k: nat)
    requires PlacedOnce(s) && Laid(p, s) && DistinctNames(p.names) && k < |Awake(s)| && JobAt(s, k) < |s.rem| && s.rem[JobAt(s, k)] > 0
    requires PlacedOnce(RunJob(p, s, k))
    ensures Laid(p, RunJob(p, s, k))
  {
    AwakeAreRested(p, s);
    assert JobAt(s, k) == Awake(s)[k];
    hide Spaced, Quiet, DistinctNames, Bag, PlacedOnce, Rested;
    RunKeepsTallied(p, s, k);
    RunKeepsRested(p, s, k);
    SpacedGoesOn(s.schedule, p.n, p.names[JobAt(s, k)]);
    hide Tallied, Awake, Asleep, Without, Resting;
  }

  lemma IdleKeepsLaid(p: Plan, s: Sim)
    requires Places(s) && Laid(p, s) && Awake(s) == []
    requires PlacedOnce(Idle(s))
    ensures Laid(p, Idle(s))
  {
    BagGoesOn(s.schedule, None);
    hide Bag;
    AwakeAreRested(p, s);
    forall i | 0 <= i < |Asleep(s)| ensures Quiet(Idle(s).schedule, p.names[Asleep(s)[i].job], Asleep(s)[i].at - 1 - p.n) {
      QuietGoesOn(s.schedule, p.names[Asleep(s)[i].job], Asleep(s)[i].at - 1 - p.n, None);
    }
  }

  /** When both structures are empty, everything has run. */
  lemma Finished(p: Plan, s: Sim, tasks: seq<Task>)
    requires Tally(multiset(tasks), p.names, p.counts)
    requires Places(s) && Tallied(p, s) && s.ready == [] && s.cooling == []
    ensures Bag(s.schedule) == multiset(tasks)
  {
    hide Bag;
    forall t ensures Bag(s.schedule)[t] == multiset(tasks)[t] {
      if t in Bag(s.schedule) || t in multiset(tasks) {
        var i :| 0 <= i < |p.names| && p.names[i] == t;
        assert s.rem[i] == 0;
      }
    }
  }

  // ---- the heap ----------------------------------------------------------------------------

  function Neg(count: nat): int { -(count as int) }

  function Keys(jobs: seq<nat>, rem: seq<nat>): (keys: seq<int>)
    requires forall i :: 0 <= i < |jobs| ==> jobs[i] < |rem|
    ensures |keys| == |jobs| && forall i :: 0 <= i < |jobs| ==> keys[i] == Neg(rem[jobs[i]])
  {
    seq(|jobs|, i requires 0 <= i < |jobs| => Neg(rem[jobs[i]]))
  }

  lemma KeysWithout(jobs: seq<nat>, rem: seq<nat>, k: nat, left: nat)
    requires ReadyOnce(jobs, rem) && k < |jobs|
    ensures forall i :: 0 <= i < |Without(jobs, k)| ==> Without(jobs, k)[i] < |rem|
    ensures multiset(Keys(Without(jobs, k), rem[jobs[k] := left])) == multiset(Keys(jobs, rem)) - multiset{Neg(rem[jobs[k]])}
  {
    WithoutAt(jobs, k);
    var all := Keys(jobs, rem);
    var rest := Keys(Without(jobs, k), rem[jobs[k] := left]);
    hide Without, Keys, Neg;
    forall i | 0 <= i < |rest| ensures rest[i] == all[if i < k then i else i + 1] {
      assert Without(jobs, k)[i] == jobs[if i < k then i else i + 1];
    }
    assert rest == all[..k] + all[k + 1..];
    OneOut(all, k);
  }

  lemma OneOut(all: seq<int>, k: nat)
    requires k < |all|
    ensures multiset(all[..k] + all[k + 1..]) == multiset(all) - multiset{all[k]}
  {
    assert all == all[..k] + [all[k]] + all[k + 1..];
  }

  lemma LeastExists(heap: multiset<int>) returns (least: int)
    requires heap != multiset{}
    ensures least in heap && forall y :: y in heap ==> least <= y
    decreases |heap|
  {
    if forall x :: x !in heap {
      assert false;
    }
    least :| least in heap;
    var rest := heap - multiset{least};
    assert forall y :: y in heap ==> y == least || y in rest;
    if rest != multiset{} {
      var other := LeastExists(rest);
      least := if other <= least then other else least;
    }
  }

  method HeapPop(heap: multiset<int>) returns (least: int, rest: multiset<int>)
    requires heap != multiset{}
    ensures least in heap && forall y :: y in heap ==> least <= y
    ensures rest == heap - multiset{least}
  {
    ghost var some := LeastExists(heap);
    least :| least in heap && forall y :: y in heap ==> least <= y;
    rest := heap - multiset{least};
  }

  /** The counts by task, in the order in which the tasks first occur. */
  method Counter(tasks: seq<Task>) returns (names: seq<Task>, counts: seq<nat>)
    ensures Tally(multiset(tasks), names, counts)
  {
    var freq: map<Task, nat> := map[];
    names := [];
    for i := 0 to |tasks|
      invariant DistinctNames(names)
      invariant forall t :: t in names <==> t in freq
      invariant forall t :: t in freq <==> t in multiset(tasks[..i])
      invariant forall t :: t in freq ==> freq[t] == multiset(tasks[..i])[t]
    {
      var t := tasks[i];
      assert tasks[..i + 1] == tasks[..i] + [t];
      if t !in freq {
        names := names + [t];
        freq := freq[t := 1];
      } else {
        freq := freq[t := freq[t] + 1];
      }
    }
    assert tasks[..|tasks|] == tasks;
    assert forall j :: 0 <= j < |names| ==> names[j] in names;
    counts := seq(|names|, j requires 0 <= j < |names| => freq[names[j]]);
  }

  // ---- the loop ----------------------------------------------------------------------------

  predicate Pairs(cooling: seq<Rest>, rem: seq<nat>, cooldown: seq<(int, int)>) {
    && |cooldown| == |cooling|
    && forall i :: 0 <= i < |cooling| ==> cooling[i].job < |rem| && cooldown[i] == (cooling[i].at, Neg(rem[cooling[i].job]))
  }

  /** The heap and the queue hold the counts of the tasks that `ready` and `cooling` name. */
  predicate Mirrors(ready: seq<nat>, cooling: seq<Rest>, rem: seq<nat>, heap: multiset<int>, cooldown: seq<(int, int)>) {
    && (forall i :: 0 <= i < |ready| ==> ready[i] < |rem|)
    && heap == multiset(Keys(ready, rem))
    && Pairs(cooling, rem, cooldown)
  }

  lemma Woken(s: Sim, heap: multiset<int>, cooldown: seq<(int, int)>)
    requires Mirrors(s.ready, s.cooling, s.rem, heap, cooldown) && Wakes(s)
    ensures cooldown != [] && Mirrors(Awake(s), Asleep(s), s.rem, heap + multiset{cooldown[0].1}, cooldown[1..])
  {
    assert Keys(Awake(s), s.rem) == Keys(s.ready, s.rem) + [cooldown[0].1];
  }

  /** The count that the heap gives up belongs to a task with the most runs left. */
  lemma PickOf(s: Sim, heap: multiset<int>, cooldown: seq<(int, int)>, least: int) returns (k: nat)
    requires Places(s) && Mirrors(Awake(s), Asleep(s), s.rem, heap, cooldown)
    requires least in heap && forall y :: y in heap ==> least <= y
    ensures Picks(s, k) && Neg(s.rem[JobAt(s, k)]) == least
  {
    var keys := Keys(Awake(s), s.rem);
    assert least in keys;
    k :| 0 <= k < |keys| && keys[k] == least;
    forall i | 0 <= i < |Awake(s)| ensures s.rem[JobAt(s, i)] <= s.rem[JobAt(s, k)] {
      assert keys[i] in heap;
    }
  }

  function Queued(cooldown: seq<(int, int)>, at: int, count: int): seq<(int, int)> {
    if count < 0 then cooldown + [(at, count)] else cooldown
  }

  lemma PairsAfter(asleep: seq<Rest>, rem: seq<nat>, cooldown: seq<(int, int)>, job: nat, left: nat, at: int)
    requires Pairs(asleep, rem, cooldown) && job < |rem|
    requires forall i :: 0 <= i < |asleep| ==> asleep[i].job != job
    ensures Pairs(asleep + Resting(at, job, left), rem[job := left], Queued(cooldown, at, Neg(left)))
  {
  }

  lemma MirrorsAfter(awake: seq<nat>, asleep: seq<Rest>, rem: seq<nat>, heap: multiset<int>, cooldown: seq<(int, int)>,
                     k: nat, left: nat, at: int)
    requires Mirrors(awake, asleep, rem, heap, cooldown) && ReadyOnce(awake, rem) && k < |awake|
    requires forall j :: 0 <= j < |asleep| ==> awake[k] != asleep[j].job
    ensures Mirrors(Without(awake, k), asleep + Resting(at, awake[k], left), rem[awake[k] := left],
                    heap - multiset{Neg(rem[awake[k]])}, Queued(cooldown, at, Neg(left)))
  {
    hide Keys, Neg, Queued, Without, Pairs, Resting;
    PairsAfter(asleep, rem, cooldown, awake[k], left, at);
    KeysWithout(awake, rem, k, left);
  }

  lemma SimMirrors(s: Sim, k: nat, heap: multiset<int>, cooldown: seq<(int, int)>, left: nat, at: int)
    requires Places(s) && Mirrors(Awake(s), Asleep(s), s.rem, heap, cooldown)
    requires k < |Awake(s)| && JobAt(s, k) < |s.rem|
    ensures Mirrors(Without(Awake(s), k), Asleep(s) + Resting(at, JobAt(s, k), left), s.rem[JobAt(s, k) := left],
                    heap - multiset{Neg(s.rem[JobAt(s, k)])}, Queued(cooldown, at, Neg(left)))
  {
    AwakeAreUnfinished(s);
    hide Awake, Asleep, Places, Neg, Queued, Without, Resting, Mirrors;
    MirrorsAfter(Awake(s), Asleep(s), s.rem, heap, cooldown, k, left, at);
  }

  lemma RunMirrors(p: Plan, s: Sim, k: nat, heap: multiset<int>, cooldown: seq<(int, int)>)
    requires Places(s) && Mirrors(Awake(s), Asleep(s), s.rem, heap, cooldown)
    requires k < |Awake(s)| && |s.rem| == |p.names| && JobAt(s, k) < |s.rem| && s.rem[JobAt(s, k)] > 0
    ensures var t, left := RunJob(p, s, k), s.rem[JobAt(s, k)] - 1;
            Mirrors(t.ready, t.cooling, t.rem, heap - multiset{Neg(s.rem[JobAt(s, k)])},
                    Queued(cooldown, s.time + 2 + p.n, Neg(left)))
  {
    hide Awake, Asleep, Places, Neg, Queued, Without, Resting, Mirrors;
    SimMirrors(s, k, heap, cooldown, s.rem[JobAt(s, k)] - 1, s.time + 2 + p.n);
  }

  lemma NothingAwake(ready: seq<nat>, cooling: seq<Rest>, rem: seq<nat>, cooldown: seq<(int, int)>)
    requires Mirrors(ready, cooling, rem, multiset{}, cooldown)
    ensures ready == []
  {
    assert |multiset(Keys(ready, rem))| == |ready|;
  }

  function Start(p: Plan): Sim {
    Sim(0, seq(|p.counts|, i requires 0 <= i < |p.counts| => i), [], p.counts, [])
  }

  lemma PlanOf(tasks: seq<Task>, p: Plan)
    requires Tally(multiset(tasks), p.names, p.counts)
    requires p.top == TopFrequency(tasks) && p.bound == Bound(tasks, p.n)
    ensures IsPlan(p)
  {
    hide Gap, Bound;
    if tasks != [] {
      hide TopFrequency;
      TallyBound(tasks, p.names, p.counts, p.n);
    }
  }

  lemma StartIsPlaced(p: Plan)
    requires |p.counts| == |p.names| && forall i :: 0 <= i < |p.counts| ==> p.counts[i] > 0
    ensures Places(Start(p)) && Counts(p, Start(p)) && Laid(p, Start(p))
    ensures Mirrors(Start(p).ready, [], p.counts, multiset(Negated(p.counts)), [])
  {
    assert forall i :: 0 <= i < |p.counts| ==> Start(p).ready[i] == i;
    assert Keys(Start(p).ready, p.counts) == Negated(p.counts);
  }

  lemma StartHolds(tasks: seq<Task>, p: Plan)
    requires Tally(multiset(tasks), p.names, p.counts)
    requires p.top == TopFrequency(tasks) && p.bound == Bound(tasks, p.n)
    ensures Going(p, Start(p), 0, multiset(Negated(p.counts)), [])
  {
    PlanOf(tasks, p);
    hide Bound, TopFrequency, Gap;
    StartIsPlaced(p);
    NothingRanYet(p, Start(p));
    hide Laid, Places, Counts, IsPlan, Mirrors, Negated, Clock, Timely, Levels;
  }

  lemma NothingRanYet(p: Plan, s: Sim)
    requires s.time == 0 && s.cooling == [] && s.rem == p.counts
    ensures Clock(p, s) && Timely(p, s) && Levels(p, s)
  {
    hide Above, Gap;
  }

  function Negated(counts: seq<nat>): (r: seq<int>)
    ensures |r| == |counts| && forall i :: 0 <= i < |r| ==> r[i] == Neg(counts[i])
  {
    seq(|counts|, i requires 0 <= i < |counts| => Neg(counts[i]))
  }

  /** The state between two slots. */
  ghost predicate Going(p: Plan, s: Sim, time: int, heap: multiset<int>, cooldown: seq<(int, int)>) {
    Inv(p, s) && Laid(p, s) && s.time == time && Mirrors(s.ready, s.cooling, s.rem, heap, cooldown)
  }

  /** The state within a slot, once the task that has cooled down is back in the heap. */
  ghost predicate Roused(p: Plan, s: Sim, time: int, heap: multiset<int>, cooldown: seq<(int, int)>) {
    Inv(p, s) && Laid(p, s) && s.time + 1 == time && Mirrors(Awake(s), Asleep(s), s.rem, heap, cooldown)
  }

  lemma Rouse(p: Plan, s: Sim, time: int, heap: multiset<int>, cooldown: seq<(int, int)>)
    requires Going(p, s, time, heap, cooldown) && (heap != multiset{} || cooldown != [])
    ensures s.ready != [] || s.cooling != []
    ensures if cooldown != [] && cooldown[0].0 == time + 1
            then Roused(p, s, time + 1, heap + multiset{cooldown[0].1}, cooldown[1..])
            else Roused(p, s, time + 1, heap, cooldown)
  {
    hide Inv, Laid;
    if Wakes(s) {
      Woken(s, heap, cooldown);
    }
  }

  lemma RunStep(p: Plan, s: Sim, time: int, heap: multiset<int>, cooldown: seq<(int, int)>, least: int) returns (t: Sim)
    requires Roused(p, s, time, heap, cooldown) && least in heap && forall y :: y in heap ==> least <= y
    ensures Going(p, t, time, heap - multiset{least}, Queued(cooldown, time + 1 + p.n, least + 1))
    ensures Above(t.rem, 0) < Above(s.rem, 0)
  {
    InvParts(p, s);
    hide *;
    RousedParts(p, s, time, heap, cooldown);
    var k := PickOf(s, heap, cooldown, least);
    PickedIsUnfinished(p, s, k);
    RunKeepsInv(p, s, k);
    t := RunJob(p, s, k);
    InvParts(p, t);
    RunKeepsLaid(p, s, k);
    RunMirrors(p, s, k, heap, cooldown);
    RunIsGoing(p, s, k, time, heap, cooldown, least);
  }

  lemma RousedParts(p: Plan, s: Sim, time: int, heap: multiset<int>, cooldown: seq<(int, int)>)
    requires Roused(p, s, time, heap, cooldown)
    ensures Inv(p, s) && PlacedOnce(s) && Laid(p, s) && s.time + 1 == time && Mirrors(Awake(s), Asleep(s), s.rem, heap, cooldown)
  {
    InvParts(p, s);
  }

  lemma RunIsGoing(p: Plan, s: Sim, k: nat, time: int, heap: multiset<int>, cooldown: seq<(int, int)>, least: int)
    requires k < |Awake(s)| && |s.rem| == |p.names| && JobAt(s, k) < |s.rem| && s.rem[JobAt(s, k)] > 0
    requires Neg(s.rem[JobAt(s, k)]) == least && s.time + 1 == time
    requires var t := RunJob(p, s, k);
             Inv(p, t) && PlacedOnce(t) && Laid(p, t)
             && Mirrors(t.ready, t.cooling, t.rem, heap - multiset{least}, Queued(cooldown, s.time + 2 + p.n, Neg(s.rem[JobAt(s, k)] - 1)))
    ensures var t := RunJob(p, s, k);
            Going(p, t, time, heap - multiset{least}, Queued(cooldown, time + 1 + p.n, least + 1)) && Above(t.rem, 0) < Above(s.rem, 0)
  {
    hide Inv, Laid, Mirrors, PlacedOnce, Awake, Asleep, Queued;
    OneRunLess(s.rem, JobAt(s, k), 0);
  }

  lemma InvParts(p: Plan, s: Sim)
    requires Inv(p, s)
    ensures Places(s) && PlacedOnce(s) && DistinctNames(p.names) && |s.rem| == |p.names|
  {
  }

  lemma IdleStep(p: Plan, s: Sim, time: int, cooldown: seq<(int, int)>) returns (t: Sim)
    requires Roused(p, s, time, multiset{}, cooldown) && (s.ready != [] || s.cooling != [])
    ensures Going(p, t, time, multiset{}, cooldown)
    ensures t.rem == s.rem && s.cooling != [] && t.cooling == s.cooling && t.time == time == s.time + 1 <= s.cooling[0].at
  {
    NothingAwake(Awake(s), Asleep(s), s.rem, cooldown);
    t := Idle(s);
    InvParts(p, s);
    NextExpiry(p, s);
    hide Laid, Inv, Places, Mirrors;
    IdleKeepsInv(p, s);
    InvParts(p, t);
    IdleKeepsLaid(p, s);
  }

  lemma NextExpiry(p: Plan, s: Sim)
    requires Inv(p, s) && s.cooling != []
    ensures s.time < s.cooling[0].at
  {
  }

  lemma Done(p: Plan, s: Sim, time: int, tasks: seq<Task>)
    requires Going(p, s, time, multiset{}, []) && Tally(multiset(tasks), p.names, p.counts)
    ensures |s.schedule| == time <= p.bound && Valid(s.schedule, tasks, p.n)
  {
    InvParts(p, s);
    NothingAwake(s.ready, s.cooling, s.rem, []);
    Finished(p, s, tasks);
  }

  lemma NoneIsShorter(tasks: seq<Task>, n: nat)
    ensures forall s: Schedule :: Valid(s, tasks, n) ==> Bound(tasks, n) <= |s|
  {
    hide *;
    forall s: Schedule | Valid(s, tasks, n) ensures Bound(tasks, n) <= |s| {
      NoScheduleIsShorter(s, tasks, n);
    }
  }

  method LeastInterval(tasks: seq<Task>, n: nat) returns (time: nat, ghost schedule: Schedule)
    ensures time == Bound(tasks, n)
    ensures |schedule| == time && Valid(schedule, tasks, n)
    ensures forall s: Schedule :: Valid(s, tasks, n) ==> time <= |s|
  {
    hide Going, Roused, Bound, Valid, Tally, Above, Negated, TopFrequency, Start;
    var names, counts := Counter(tasks);
    ghost var p := Plan(names, counts, n, TopFrequency(tasks), Bound(tasks, n));
    ghost var s := Start(p);
    StartHolds(tasks, p);
    var heap := multiset(Negated(counts));
    var cooldown: seq<(int, int)> := [];
    time := 0;
    while heap != multiset{} || cooldown != []
      invariant Going(p, s, time, heap, cooldown)
      decreases Above(s.rem, 0), if s.cooling != [] then s.cooling[0].at - time else 0
    {
      Rouse(p, s, time, heap, cooldown);
      time := time + 1;
      if cooldown != [] && cooldown[0].0 == time {
        heap := heap + multiset{cooldown[0].1};
        cooldown := cooldown[1..];
      }
      if heap != multiset{} {
        var least, rest := HeapPop(heap);
        s := RunStep(p, s, time, heap, cooldown, least);
        heap := rest;
        var count := least + 1;
        if count < 0 {
          cooldown := cooldown + [(time + 1 + n, count)];
        }
      } else {
        s := IdleStep(p, s, time, cooldown);
      }
    }
    Done(p, s, time, tasks);
    NoneIsShorter(tasks, n);
    schedule := s.schedule;
  }
}

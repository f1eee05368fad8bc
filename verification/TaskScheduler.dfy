/**
 The greedy scheduler: a heap of (negated) counts and a queue of tasks cooling down.

 The program keeps only counts; `Sim` also remembers, as ghost state, which task each count belongs
 to and which task ran in each slot.
 */
module TaskScheduler {
  import opened Wrappers
  import opened TaskSchedule
  import opened TaskCounts

  /** `job` indexes the list of distinct tasks; it may run again in slot `at` (counted from 1). */
  datatype Rest = Rest(at: int, job: nat)

  datatype Sim = Sim(time: nat, ready: seq<nat>, cooling: seq<Rest>, rem: seq<nat>, schedule: Schedule)

  datatype Plan = Plan(names: seq<Task>, counts: seq<nat>, n: nat, top: nat, bound: nat)

  predicate IsPlan(p: Plan) {
    && |p.names| == |p.counts| && DistinctNames(p.names)
    && (forall i :: 0 <= i < |p.counts| ==> p.counts[i] <= p.top)
    && (p.top > 0 ==> Max(Above(p.counts, 0), Gap(p.top - 1, p.n) + Width(p.counts, p.top - 1)) <= p.bound)
  }

  // ---- one slot ----------------------------------------------------------------------------

  predicate Wakes(s: Sim) { s.cooling != [] && s.cooling[0].at == s.time + 1 }

  function Awake(s: Sim): seq<nat> { if Wakes(s) then s.ready + [s.cooling[0].job] else s.ready }

  function Asleep(s: Sim): seq<Rest> { if Wakes(s) then s.cooling[1..] else s.cooling }

  function Without(js: seq<nat>, k: nat): seq<nat>
    requires k < |js|
  {
    js[..k] + js[k + 1..]
  }

  function Resting(at: int, job: nat, left: nat): seq<Rest> { if left > 0 then [Rest(at, job)] else [] }

  /** The slot in which `Awake(s)[k]` runs. */
  function RunJob(p: Plan, s: Sim, k: nat): Sim
    requires k < |Awake(s)| && Awake(s)[k] < |s.rem| == |p.names| && s.rem[Awake(s)[k]] > 0
  {
    var job := Awake(s)[k];
    var left := s.rem[job] - 1;
    Sim(s.time + 1, Without(Awake(s), k),
        Asleep(s) + Resting(s.time + 2 + p.n, job, left),
        s.rem[job := left], s.schedule + [Some(p.names[job])])
  }

  /** The slot in which nothing can run. */
  function Idle(s: Sim): Sim {
    Sim(s.time + 1, [], Asleep(s), s.rem, s.schedule + [None])
  }

  // ---- what every slot keeps ---------------------------------------------------------------

  /** Every unfinished task is in exactly one of the two structures, once. */
  predicate Places(s: Sim) {
    PlacedOnce(s) && PlacedAll(s)
  }

  predicate PlacedOnce(s: Sim) {
    ReadyOnce(s.ready, s.rem) && CoolingOnce(s.cooling, s.rem) && Apart(s.ready, s.cooling)
  }

  predicate ReadyOnce(ready: seq<nat>, rem: seq<nat>) {
    && (forall i :: 0 <= i < |ready| ==> ready[i] < |rem| && rem[ready[i]] > 0)
    && (forall i, j :: 0 <= i < j < |ready| ==> ready[i] != ready[j])
  }

  predicate CoolingOnce(cooling: seq<Rest>, rem: seq<nat>) {
    && (forall i :: 0 <= i < |cooling| ==> cooling[i].job < |rem| && rem[cooling[i].job] > 0)
    && (forall i, j :: 0 <= i < j < |cooling| ==> cooling[i].job != cooling[j].job)
  }

  predicate Apart(ready: seq<nat>, cooling: seq<Rest>) {
    forall i, j :: 0 <= i < |ready| && 0 <= j < |cooling| ==> ready[i] != cooling[j].job
  }

  predicate PlacedAll(s: Sim) {
    forall job :: 0 <= job < |s.rem| && s.rem[job] > 0 ==> job in s.ready || Cools(s, job)
  }

  predicate Cools(s: Sim, job: nat) { exists i :: 0 <= i < |s.cooling| && s.cooling[i].job == job }

  /** Expiries lie ahead, one per slot: none is ever missed. */
  predicate Clock(p: Plan, s: Sim) {
    && (forall i :: 0 <= i < |s.cooling| ==> s.time < s.cooling[i].at <= s.time + 1 + p.n)
    && (forall i, j :: 0 <= i < j < |s.cooling| ==> s.cooling[i].at < s.cooling[j].at)
  }

  /** Every task in the cooldown queue can still finish within the bound. */
  predicate Timely(p: Plan, s: Sim) { InTime(s.cooling, s.rem, p.n, p.bound) }

  predicate InTime(cooling: seq<Rest>, rem: seq<nat>, n: nat, bound: int) {
    forall i :: 0 <= i < |cooling| ==>
      cooling[i].job < |rem| && cooling[i].at + Gap(rem[cooling[i].job] as int - 1, n) <= bound
  }

  /** At each level: either only tasks above it ran so far, or none above it waits in the heap. */
  ghost predicate Levels(p: Plan, s: Sim) {
    forall c: nat :: s.time + Above(s.rem, c) == Above(p.counts, c) || ReadyAtMost(s.ready, s.rem, c)
  }

  predicate ReadyAtMost(ready: seq<nat>, rem: seq<nat>, c: nat) {
    forall i :: 0 <= i < |ready| ==> ready[i] < |rem| && rem[ready[i]] <= c
  }

  predicate Counts(p: Plan, s: Sim) {
    && |s.rem| == |p.counts| == |p.names|
    && (forall i :: 0 <= i < |s.rem| ==> s.rem[i] <= p.counts[i])
    && (s.ready == [] && s.cooling == [] ==> s.time <= p.bound)
  }

  ghost predicate Inv(p: Plan, s: Sim) {
    IsPlan(p) && Places(s) && Counts(p, s) && Clock(p, s) && Timely(p, s) && Levels(p, s)
  }

  /** `Awake(s)[k]` has the most runs left of those that may run. */
  predicate Picks(s: Sim, k: nat) {
    k < |Awake(s)| && forall i :: 0 <= i < |Awake(s)| ==> JobAt(s, i) < |s.rem| && JobAt(s, k) < |s.rem| && s.rem[JobAt(s, i)] <= s.rem[JobAt(s, k)]
  }

  function JobAt(s: Sim, i: nat): nat
    requires i < |Awake(s)|
  {
    Awake(s)[i]
  }

  lemma AwakeAt(s: Sim)
    ensures |s.ready| <= |Awake(s)| <= |s.ready| + 1
    ensures forall i :: 0 <= i < |s.ready| ==> Awake(s)[i] == s.ready[i]
    ensures |Awake(s)| > |s.ready| <==> Wakes(s)
    ensures Wakes(s) ==> Awake(s)[|s.ready|] == s.cooling[0].job
  {
  }

  lemma AsleepAt(s: Sim) returns (woken: nat)
    ensures woken == (if Wakes(s) then 1 else 0) && |Asleep(s)| + woken == |s.cooling|
    ensures forall i :: 0 <= i < |Asleep(s)| ==> Asleep(s)[i] == s.cooling[i + woken]
  {
    woken := if Wakes(s) then 1 else 0;
  }

  lemma AwakeAreUnfinished(s: Sim)
    requires PlacedOnce(s)
    ensures ReadyOnce(Awake(s), s.rem) && CoolingOnce(Asleep(s), s.rem) && Apart(Awake(s), Asleep(s))
  {
    AwakeAt(s);
    var woken := AsleepAt(s);
    hide Awake, Asleep;
    AwakeAreOnce(s);
    AsleepAreOnce(s);
    forall i, j | 0 <= i < |Awake(s)| && 0 <= j < |Asleep(s)| ensures Awake(s)[i] != Asleep(s)[j].job {
      assert Asleep(s)[j] == s.cooling[j + woken];
    }
  }

  lemma AwakeAreOnce(s: Sim)
    requires PlacedOnce(s)
    ensures ReadyOnce(Awake(s), s.rem)
  {
    AwakeAt(s);
    hide Awake;
  }

  lemma AsleepAreOnce(s: Sim)
    requires PlacedOnce(s)
    ensures CoolingOnce(Asleep(s), s.rem)
  {
    var woken := AsleepAt(s);
    hide Asleep, ReadyOnce, Apart;
  }

  lemma WithoutAt(awake: seq<nat>, k: nat)
    requires k < |awake|
    ensures |Without(awake, k)| == |awake| - 1
    ensures forall i :: 0 <= i < |awake| - 1 ==> Without(awake, k)[i] == awake[if i < k then i else i + 1]
  {
  }

  lemma RunKeepsReadyOnce(awake: seq<nat>, rem: seq<nat>, k: nat, left: nat)
    requires ReadyOnce(awake, rem) && k < |awake|
    ensures ReadyOnce(Without(awake, k), rem[awake[k] := left])
  {
    WithoutAt(awake, k);
    hide Without;
  }

  lemma RunKeepsCoolingOnce(asleep: seq<Rest>, rem: seq<nat>, job: nat, left: nat, at: int)
    requires CoolingOnce(asleep, rem) && job < |rem| && forall j :: 0 <= j < |asleep| ==> asleep[j].job != job
    ensures CoolingOnce(asleep + Resting(at, job, left), rem[job := left])
  {
  }

  lemma RunKeepsApart(awake: seq<nat>, asleep: seq<Rest>, rem: seq<nat>, k: nat, left: nat, at: int)
    requires ReadyOnce(awake, rem) && Apart(awake, asleep) && k < |awake|
    ensures Apart(Without(awake, k), asleep + Resting(at, awake[k], left))
  {
    WithoutAt(awake, k);
    hide Without;
  }

  lemma RunKeepsPlacedOnce(p: Plan, s: Sim, k: nat)
    requires PlacedOnce(s) && |s.rem| == |p.names| && k < |Awake(s)| && Awake(s)[k] < |s.rem| && s.rem[Awake(s)[k]] > 0
    ensures PlacedOnce(RunJob(p, s, k))
  {
    AwakeAreUnfinished(s);
    var awake, asleep := Awake(s), Asleep(s);
    var left := s.rem[awake[k]] - 1;
    RunKeepsReadyOnce(awake, s.rem, k, left);
    assert forall j :: 0 <= j < |asleep| ==> asleep[j].job != awake[k];
    RunKeepsCoolingOnce(asleep, s.rem, awake[k], left, s.time + 2 + p.n);
    RunKeepsApart(awake, asleep, s.rem, k, left, s.time + 2 + p.n);
    hide ReadyOnce, CoolingOnce, Apart, Awake, Asleep, Without, Resting;
  }

  lemma RunKeepsPlacedAll(p: Plan, s: Sim, k: nat)
    requires Places(s) && Counts(p, s) && k < |Awake(s)| && Awake(s)[k] < |s.rem| && s.rem[Awake(s)[k]] > 0
    ensures PlacedAll(RunJob(p, s, k))
  {
    hide PlacedOnce;
    var t, awake, job := RunJob(p, s, k), Awake(s), Awake(s)[k];
    forall j | 0 <= j < |t.rem| && t.rem[j] > 0 ensures j in t.ready || Cools(t, j) {
      assert s.rem[j] > 0;
      StillPlaced(s, j);
      if j == job {
        assert t.cooling[|Asleep(s)|].job == j;
      } else if j in awake {
        var i :| 0 <= i < |awake| && awake[i] == j;
        assert t.ready[if i < k then i else i - 1] == j;
      } else {
        var i :| 0 <= i < |Asleep(s)| && Asleep(s)[i].job == j;
        assert t.cooling[i].job == j;
      }
    }
  }

  lemma StillPlaced(s: Sim, job: nat)
    requires job in s.ready || Cools(s, job)
    ensures job in Awake(s) || exists i :: 0 <= i < |Asleep(s)| && Asleep(s)[i].job == job
  {
    if job in s.ready {
      var i :| 0 <= i < |s.ready| && s.ready[i] == job;
      assert Awake(s)[i] == job;
    } else {
      var i :| 0 <= i < |s.cooling| && s.cooling[i].job == job;
      if Wakes(s) {
        if i == 0 {
          assert Awake(s)[|s.ready|] == job;
        } else {
          assert Asleep(s)[i - 1].job == job;
        }
      } else {
        assert Asleep(s)[i].job == job;
      }
    }
  }

  lemma IdleKeepsPlaces(s: Sim)
    requires Places(s) && Awake(s) == []
    ensures Places(Idle(s))
  {
    forall job | 0 <= job < |s.rem| && s.rem[job] > 0 ensures Cools(Idle(s), job) {
      StillPlaced(s, job);
      var i :| 0 <= i < |Asleep(s)| && Asleep(s)[i].job == job;
      assert Idle(s).cooling[i].job == job;
    }
  }

  lemma RunKeepsClock(p: Plan, s: Sim, k: nat)
    requires Places(s) && Counts(p, s) && Clock(p, s) && k < |Awake(s)| && Awake(s)[k] < |s.rem| && s.rem[Awake(s)[k]] > 0
    ensures Clock(p, RunJob(p, s, k))
  {
    hide Places, PlacedOnce, PlacedAll, Without;
  }

  /** The heart of optimality: the task that runs is never late. Either this slot and all before it
      went to tasks at least as long -- then there were few enough of them -- or this task was the
      only long one awake, so it had just cooled down, on time. */
  lemma RunsInTime(p: Plan, s: Sim, k: nat)
    requires Inv(p, s) && Picks(s, k)
    ensures s.time + 1 + Gap(s.rem[JobAt(s, k)] - 1, p.n) <= p.bound
  {
    hide *;
    PickedIsUnfinished(p, s, k);
    var c := s.rem[JobAt(s, k)] - 1;
    if s.time + Above(s.rem, c) == Above(p.counts, c) {
      OnlyLongOnesRan(p, s, JobAt(s, k));
    } else {
      LevelOr(p, s, c);
      JustCooledDown(p, s, k);
    }
  }

  lemma PickedIsUnfinished(p: Plan, s: Sim, k: nat)
    requires Inv(p, s) && Picks(s, k)
    ensures Places(s) && |s.rem| == |p.counts| && k < |Awake(s)| && JobAt(s, k) < |s.rem| && s.rem[JobAt(s, k)] > 0
  {
    hide Gap, Levels, Timely, Clock;
    AwakeAreUnfinished(s);
  }

  lemma LevelOr(p: Plan, s: Sim, c: nat)
    requires Inv(p, s) && s.time + Above(s.rem, c) != Above(p.counts, c)
    ensures PlacedOnce(s) && ReadyAtMost(s.ready, s.rem, c)
  {
    hide Gap, Timely, Clock, IsPlan;
  }

  lemma OnlyLongOnesRan(p: Plan, s: Sim, job: nat)
    requires Inv(p, s) && job < |s.rem| && s.rem[job] > 0
    requires s.time + Above(s.rem, s.rem[job] - 1) == Above(p.counts, s.rem[job] - 1)
    ensures s.time + 1 + Gap(s.rem[job] - 1, p.n) <= p.bound
  {
    hide Gap, Levels, Timely, Clock, Places;
    var c := s.rem[job] - 1;
    assert p.counts[job] <= p.top;
    OneRunLess(s.rem, job, c);
    LevelsAreBounded(p.counts, p.n, c, p.top);
  }

  lemma JustCooledDown(p: Plan, s: Sim, k: nat)
    requires Inv(p, s) && k < |Awake(s)| && JobAt(s, k) < |s.rem| && s.rem[JobAt(s, k)] > 0
    requires PlacedOnce(s) && ReadyAtMost(s.ready, s.rem, s.rem[JobAt(s, k)] - 1)
    ensures s.time + 1 + Gap(s.rem[JobAt(s, k)] - 1, p.n) <= p.bound
  {
    AwakeAt(s);
    hide Gap, Levels, IsPlan, Clock, PlacedAll, Counts, Apart, Awake;
    assert k >= |s.ready|;
    assert Wakes(s) && JobAt(s, k) == s.cooling[0].job;
  }

  lemma RunKeepsInTime(asleep: seq<Rest>, rem: seq<nat>, job: nat, left: nat, at: int, n: nat, bound: int)
    requires InTime(asleep, rem, n, bound) && job < |rem|
    requires forall j :: 0 <= j < |asleep| ==> asleep[j].job != job
    requires left > 0 ==> at + Gap(left - 1, n) <= bound
    ensures InTime(asleep + Resting(at, job, left), rem[job := left], n, bound)
  {
    hide Gap;
  }

  lemma AsleepAreInTime(p: Plan, s: Sim)
    requires Timely(p, s)
    ensures InTime(Asleep(s), s.rem, p.n, p.bound)
  {
    var woken := AsleepAt(s);
    hide Gap, Asleep;
  }

  /** What the task that runs leaves behind in the queue, if it is to run again, is in time too. */
  lemma RestIsInTime(p: Plan, s: Sim, k: nat)
    requires Inv(p, s) && Picks(s, k)
    ensures s.time + 2 + p.n + Gap(s.rem[JobAt(s, k)] as int - 2, p.n) <= p.bound
  {
    RunsInTime(p, s, k);
    hide *;
    GapStep(s.rem[JobAt(s, k)] as int - 2, p.n);
  }

  lemma PickedIsNotAsleep(s: Sim, k: nat)
    requires PlacedOnce(s) && k < |Awake(s)|
    ensures forall j :: 0 <= j < |Asleep(s)| ==> Asleep(s)[j].job != JobAt(s, k)
  {
    AwakeAreUnfinished(s);
    hide Awake, Asleep, ReadyOnce, CoolingOnce;
  }

  lemma TimelyAfter(p: Plan, s: Sim, k: nat)
    requires k < |Awake(s)| && JobAt(s, k) < |s.rem| == |p.names| && s.rem[JobAt(s, k)] > 0
    requires InTime(Asleep(s), s.rem, p.n, p.bound)
    requires forall j :: 0 <= j < |Asleep(s)| ==> Asleep(s)[j].job != JobAt(s, k)
    requires s.time + 2 + p.n + Gap(s.rem[JobAt(s, k)] as int - 2, p.n) <= p.bound
    ensures Timely(p, RunJob(p, s, k))
  {
    hide Awake, Asleep, InTime, Gap, Without, Resting;
    RunKeepsInTime(Asleep(s), s.rem, JobAt(s, k), s.rem[JobAt(s, k)] - 1, s.time + 2 + p.n, p.n, p.bound);
  }

  lemma RunKeepsTimely(p: Plan, s: Sim, k: nat)
    requires Inv(p, s) && Picks(s, k) && JobAt(s, k) < |s.rem| == |p.names| && s.rem[JobAt(s, k)] > 0
    ensures Timely(p, RunJob(p, s, k))
  {
    assert Timely(p, s) && PlacedOnce(s) && k < |Awake(s)|;
    hide *;
    RestIsInTime(p, s, k);
    AsleepAreInTime(p, s);
    PickedIsNotAsleep(s, k);
    TimelyAfter(p, s, k);
  }

  lemma RunKeepsLevels(p: Plan, s: Sim, k: nat)
    requires Inv(p, s) && Picks(s, k) && Awake(s)[k] < |s.rem| == |p.names| && s.rem[Awake(s)[k]] > 0
    ensures Levels(p, RunJob(p, s, k))
  {
    hide Timely, IsPlan, Clock, PlacedAll, ReadyOnce, CoolingOnce, Apart, Without, Resting;
    var t, job := RunJob(p, s, k), Awake(s)[k];
    forall c: nat ensures t.time + Above(t.rem, c) == Above(p.counts, c) || ReadyAtMost(t.ready, t.rem, c) {
      OneRunLess(s.rem, job, c);
      if s.time + Above(s.rem, c) != Above(p.counts, c) || s.rem[job] <= c {
        LevelClears(p, s, k, c);
      }
    }
  }

  /** If no long task was ready before, or the picked one is short, none stays ready. The first
      `ready` of the tasks awake were ready before; at most one was not. */
  lemma PickedClears(awake: seq<nat>, rem: seq<nat>, k: nat, left: nat, ready: nat, c: nat)
    requires ReadyOnce(awake, rem) && k < |awake| && ready <= |awake| <= ready + 1
    requires forall i :: 0 <= i < |awake| ==> rem[awake[i]] <= rem[awake[k]]
    requires rem[awake[k]] <= c || forall i :: 0 <= i < ready ==> rem[awake[i]] <= c
    ensures ReadyAtMost(Without(awake, k), rem[awake[k] := left], c)
  {
    WithoutAt(awake, k);
    hide Without;
    forall i | 0 <= i < |awake| - 1 ensures rem[awake[k] := left][Without(awake, k)[i]] <= c {
      var j := if i < k then i else i + 1;
      assert Without(awake, k)[i] == awake[j] != awake[k];
      assert rem[awake[j]] <= rem[awake[k]];
    }
  }

  lemma LevelClears(p: Plan, s: Sim, k: nat, c: nat)
    requires Places(s) && Counts(p, s) && Picks(s, k) && Awake(s)[k] < |s.rem| && s.rem[Awake(s)[k]] > 0
    requires ReadyAtMost(s.ready, s.rem, c) || s.rem[Awake(s)[k]] <= c
    ensures ReadyAtMost(RunJob(p, s, k).ready, RunJob(p, s, k).rem, c)
  {
    AwakeAreUnfinished(s);
    AwakeAt(s);
    hide PlacedAll, Counts, Apart, CoolingOnce, Asleep, Awake;
    var awake := Awake(s);
    forall i | 0 <= i < |awake| ensures s.rem[awake[i]] <= s.rem[awake[k]] {
      assert JobAt(s, i) == awake[i];
    }
    PickedClears(awake, s.rem, k, s.rem[awake[k]] - 1, |s.ready|, c);
  }

  lemma RunKeepsInv(p: Plan, s: Sim, k: nat)
    requires Inv(p, s) && Picks(s, k)
    ensures Awake(s)[k] < |s.rem| && s.rem[Awake(s)[k]] > 0
    ensures Inv(p, RunJob(p, s, k))
  {
    AwakeAreUnfinished(s);
    RunKeepsPlacedOnce(p, s, k);
    RunKeepsPlacedAll(p, s, k);
    RunKeepsClock(p, s, k);
    RunKeepsTimely(p, s, k);
    RunKeepsLevels(p, s, k);
    RunsInTime(p, s, k);
    RunKeepsCounts(p, s, k);
  }

  lemma RunKeepsCounts(p: Plan, s: Sim, k: nat)
    requires Counts(p, s) && k < |Awake(s)| && Awake(s)[k] < |s.rem| && s.rem[Awake(s)[k]] > 0
    requires s.time + 1 + Gap(s.rem[Awake(s)[k]] - 1, p.n) <= p.bound
    ensures Counts(p, RunJob(p, s, k))
  {
    GapStep(0, p.n);
    var t := RunJob(p, s, k);
    if t.cooling == [] {
      assert s.rem[Awake(s)[k]] == 1;
    }
  }

  lemma IdleKeepsInv(p: Plan, s: Sim)
    requires Inv(p, s) && Awake(s) == [] && s.cooling != []
    ensures Inv(p, Idle(s))
  {
    IdleKeepsPlaces(s);
  }
}

/**
 The thread pool: workers share one queue under a mutex and sleep on a condition variable. Each locked
 section, each notification and each finished task is one step; a notification wakes only a worker
 that is asleep at that moment.
 */
module ThreadPool {
  type Task = nat

  datatype Worker = Checking | Asleep | Running(task: Task) | Exited

  /** Tasks are numbered in the order in which they were accepted. `pings` are notifications still to
      be made by threads that have submitted, `alarm` the destructor's notification of all. */
  datatype Pool = Pool(tasks: seq<Task>, stop: bool, workers: seq<Worker>, pings: nat, alarm: bool,
                       accepted: nat, started: seq<Task>, ran: seq<Task>)

  datatype Step =
    | Submit | Ping(worker: nat)
    | Check(worker: nat) | Finish(worker: nat)
    | Stop | WakeAll

  function Start(n: nat): Pool { Pool([], false, seq(n, _ => Checking), 0, false, 0, [], []) }

  predicate CanTake(p: Pool, step: Step) {
    match step
    case Submit => true
    case Ping(w) => p.pings > 0 && ((w < |p.workers| && p.workers[w] == Asleep) || NoneAsleep(p.workers))
    case Check(w) => w < |p.workers| && p.workers[w] == Checking
    case Finish(w) => w < |p.workers| && p.workers[w].Running?
    case Stop => !p.stop
    case WakeAll => p.alarm
  }

  predicate NoneAsleep(workers: seq<Worker>) { forall w :: 0 <= w < |workers| ==> workers[w] != Asleep }

  function Awakened(workers: seq<Worker>): (r: seq<Worker>)
    ensures |r| == |workers| && forall w :: 0 <= w < |r| ==> r[w] == if workers[w] == Asleep then Checking else workers[w]
  {
    seq(|workers|, w requires 0 <= w < |workers| => if workers[w] == Asleep then Checking else workers[w])
  }

  function Take(p: Pool, step: Step): Pool
    requires CanTake(p, step)
  {
    match step
    case Submit =>
      if p.stop then p  // throws
      else p.(tasks := p.tasks + [p.accepted], accepted := p.accepted + 1, pings := p.pings + 1)
    case Ping(w) =>
      p.(pings := p.pings - 1,
         workers := if w < |p.workers| && p.workers[w] == Asleep then p.workers[w := Checking] else p.workers)
    case Check(w) =>
      if p.stop && p.tasks == [] then p.(workers := p.workers[w := Exited])
      else if p.tasks == [] then p.(workers := p.workers[w := Asleep])
      else p.(tasks := p.tasks[1..], started := p.started + [p.tasks[0]], workers := p.workers[w := Running(p.tasks[0])])
    case Finish(w) => p.(ran := p.ran + [p.workers[w].task], workers := p.workers[w := Checking])
    case Stop => p.(stop := true, alarm := true)
    case WakeAll => p.(alarm := false, workers := Awakened(p.workers))
  }

  // ---- the invariant -----------------------------------------------------------------------

  ghost predicate Inv(p: Pool) {
    Accounts(p) && Once(p) && Wakeful(p)
  }

  /** Accepted tasks start in order, and the queue holds exactly those that have not started. */
  predicate Accounts(p: Pool) {
    && |p.started| + |p.tasks| == p.accepted
    && (forall i :: 0 <= i < |p.started| ==> p.started[i] == i)
    && (forall i :: 0 <= i < |p.tasks| ==> p.tasks[i] == |p.started| + i)
  }

  /** Every started task is in one worker's hands or has run, and none is there twice. */
  predicate Once(p: Pool) {
    && (forall t :: 0 <= t < |p.started| ==> IsRunning(p, t) || t in p.ran)
    && (forall i :: 0 <= i < |p.ran| ==> p.ran[i] < |p.started|)
    && (forall w :: 0 <= w < |p.workers| && p.workers[w].Running? ==> p.workers[w].task < |p.started| && p.workers[w].task !in p.ran)
    && (forall i, j :: 0 <= i < j < |p.ran| ==> p.ran[i] != p.ran[j])
    && (forall v, w :: 0 <= v < w < |p.workers| && p.workers[v].Running? && p.workers[w].Running?
                       ==> p.workers[v].task != p.workers[w].task)
  }

  predicate IsRunning(p: Pool, t: Task) { exists w :: 0 <= w < |p.workers| && p.workers[w] == Running(t) }

  predicate IsAwake(worker: Worker) { worker == Checking || worker.Running? }

  predicate SomeoneAwake(p: Pool) { exists w :: 0 <= w < |p.workers| && IsAwake(p.workers[w]) }

  /** No wake-up is ever lost: while there is work, somebody is awake or about to be woken. */
  predicate Wakeful(p: Pool) {
    && |p.workers| > 0
    && (p.tasks != [] ==> p.pings > 0 || SomeoneAwake(p))
    && (p.stop ==> p.alarm || NoneAsleep(p.workers))
    && (p.alarm ==> p.stop)
    && (forall w :: 0 <= w < |p.workers| && p.workers[w] == Exited ==> p.stop && p.tasks == [])
  }

  lemma StartHolds(n: nat)
    requires n > 0
    ensures Inv(Start(n))
  {
  }

  lemma CheckKeepsInv(p: Pool, w: nat)
    requires Inv(p) && CanTake(p, Check(w))
    ensures Inv(Take(p, Check(w)))
  {
    var q := Take(p, Check(w));
    forall t | 0 <= t < |q.started| ensures IsRunning(q, t) || t in q.ran {
      if t < |p.started| {
        if IsRunning(p, t) {
          var v :| 0 <= v < |p.workers| && p.workers[v] == Running(t);
          assert q.workers[v] == Running(t);
        }
      } else {
        assert q.workers[w] == Running(t);
      }
    }
    if q.tasks != [] {
      assert IsAwake(q.workers[w]);
    }
  }

  lemma FinishKeepsInv(p: Pool, w: nat)
    requires Inv(p) && CanTake(p, Finish(w))
    ensures Inv(Take(p, Finish(w)))
  {
    var q := Take(p, Finish(w));
    forall t | 0 <= t < |q.started| ensures IsRunning(q, t) || t in q.ran {
      if IsRunning(p, t) {
        var v :| 0 <= v < |p.workers| && p.workers[v] == Running(t);
        if v != w { assert q.workers[v] == Running(t); } else { assert q.ran[|p.ran|] == t; }
      }
    }
    assert IsAwake(q.workers[w]);
  }

  lemma PingKeepsInv(p: Pool, w: nat)
    requires Inv(p) && CanTake(p, Ping(w))
    ensures Inv(Take(p, Ping(w)))
  {
    var q := Take(p, Ping(w));
    forall t | 0 <= t < |q.started| && IsRunning(p, t) ensures IsRunning(q, t) {
      var v :| 0 <= v < |p.workers| && p.workers[v] == Running(t);
      assert q.workers[v] == Running(t);
    }
    if w < |p.workers| && p.workers[w] == Asleep {
      assert IsAwake(q.workers[w]);
    } else if p.tasks != [] {
      assert p.workers[0] != Asleep && p.workers[0] != Exited;
      assert IsAwake(q.workers[0]);
    }
  }

  lemma OtherKeepsInv(p: Pool, step: Step)
    requires Inv(p) && CanTake(p, step) && (step.Submit? || step.Stop? || step.WakeAll?)
    ensures Inv(Take(p, step))
  {
    var q := Take(p, step);
    forall t | 0 <= t < |q.started| && IsRunning(p, t) ensures IsRunning(q, t) {
      var v :| 0 <= v < |p.workers| && p.workers[v] == Running(t);
      assert q.workers[v] == Running(t);
    }
    if SomeoneAwake(p) {
      var v :| 0 <= v < |p.workers| && IsAwake(p.workers[v]);
      assert IsAwake(q.workers[v]);
    }
  }

  lemma StepKeepsInv(p: Pool, step: Step)
    requires Inv(p) && CanTake(p, step)
    ensures Inv(Take(p, step))
  {
    hide Inv, CanTake, Take;
    match step
    case Check(w) => CheckKeepsInv(p, w);
    case Finish(w) => FinishKeepsInv(p, w);
    case Ping(w) => PingKeepsInv(p, w);
    case _ => OtherKeepsInv(p, step);
  }

  // ---- whole runs --------------------------------------------------------------------------

  predicate CanRun(p: Pool, steps: seq<Step>)
    decreases |steps|
  {
    steps == [] || (CanTake(p, steps[0]) && CanRun(Take(p, steps[0]), steps[1..]))
  }

  function Run(p: Pool, steps: seq<Step>): Pool
    requires CanRun(p, steps)
    decreases |steps|
  {
    if steps == [] then p else Run(Take(p, steps[0]), steps[1..])
  }

  lemma {:induction false} RunKeepsInv(p: Pool, steps: seq<Step>)
    requires Inv(p) && CanRun(p, steps)
    ensures Inv(Run(p, steps))
    decreases |steps|
  {
    hide Inv, CanTake, Take;
    if steps == [] {
    } else {
      StepKeepsInv(p, steps[0]);
      RunKeepsInv(Take(p, steps[0]), steps[1..]);
    }
  }

  /** At any time: tasks start in the order of submission, and none runs twice. */
  lemma NoTaskRunsTwice(n: nat, steps: seq<Step>)
    requires n > 0 && CanRun(Start(n), steps)
    ensures var p := Run(Start(n), steps);
            && (forall i :: 0 <= i < |p.started| ==> p.started[i] == i)
            && (forall i, j :: 0 <= i < j < |p.ran| ==> p.ran[i] != p.ran[j])
            && (forall i :: 0 <= i < |p.ran| ==> p.ran[i] < |p.started| <= p.accepted)
  {
    StartHolds(n);
    RunKeepsInv(Start(n), steps);
  }

  predicate AtRest(p: Pool) {
    p.pings == 0 && !p.alarm && forall w :: 0 <= w < |p.workers| ==> p.workers[w] == Asleep || p.workers[w] == Exited
  }

  /** When nothing is under way any more, every accepted task has run, exactly once; and once the pool
      is being destroyed, nothing being under way means that all workers can be joined. */
  lemma EveryAcceptedTaskRan(n: nat, steps: seq<Step>, t: Task)
    requires n > 0 && CanRun(Start(n), steps) && AtRest(Run(Start(n), steps))
    ensures var p := Run(Start(n), steps);
            && p.tasks == [] && (t < p.accepted <==> t in p.ran)
            && (p.stop ==> forall w :: 0 <= w < |p.workers| ==> p.workers[w] == Exited)
  {
    StartHolds(n);
    RunKeepsInv(Start(n), steps);
    var p := Run(Start(n), steps);
    if t < p.accepted {
      assert IsRunning(p, t) || t in p.ran;
    }
  }

  // ---- it comes to rest --------------------------------------------------------------------

  /** Steps of work already handed in. */
  predicate IsWork(step: Step) { step.Ping? || step.Check? || step.Finish? || step.WakeAll? }

  function Effort(worker: Worker): nat {
    match worker
    case Checking => 1
    case Running(_) => 2
    case _ => 0
  }

  function Efforts(workers: seq<Worker>): nat {
    if workers == [] then 0 else Efforts(workers[..|workers| - 1]) + Effort(workers[|workers| - 1])
  }

  lemma {:induction false} EffortsAfter(workers: seq<Worker>, w: nat, now: Worker)
    requires w < |workers|
    ensures Efforts(workers[w := now]) == Efforts(workers) - Effort(workers[w]) + Effort(now)
    decreases |workers|
  {
    var m := |workers| - 1;
    var after := workers[w := now];
    if w < m {
      EffortsAfter(workers[..m], w, now);
      assert after[..m] == workers[..m][w := now];
    } else {
      assert after[..m] == workers[..m];
    }
  }

  lemma {:induction false} AwakenedEfforts(workers: seq<Worker>)
    ensures Efforts(Awakened(workers)) <= Efforts(workers) + |workers|
    decreases |workers|
  {
    if workers == [] {
    } else {
      var m := |workers| - 1;
      AwakenedEfforts(workers[..m]);
      assert Awakened(workers)[..m] == Awakened(workers[..m]);
    }
  }

  function Work(p: Pool): nat {
    3 * |p.tasks| + 2 * p.pings + Efforts(p.workers) + if p.alarm then |p.workers| + 1 else 0
  }

  lemma WorkGetsLess(p: Pool, step: Step)
    requires CanTake(p, step) && IsWork(step)
    ensures Work(Take(p, step)) < Work(p)
  {
    match step {
      case Ping(w) =>
        if w < |p.workers| && p.workers[w] == Asleep { EffortsAfter(p.workers, w, Checking); }
      case Check(w) =>
        EffortsAfter(p.workers, w, Take(p, step).workers[w]);
      case Finish(w) => EffortsAfter(p.workers, w, Checking);
      case WakeAll => AwakenedEfforts(p.workers);
    }
  }

  /** How many submissions come before the first stop. */
  function Submissions(steps: seq<Step>): nat {
    if steps == [] || steps[0] == Stop then 0 else (if steps[0] == Submit then 1 else 0) + Submissions(steps[1..])
  }

  /** Exactly the tasks that are submitted before the pool is stopped are accepted. */
  lemma {:induction false} AcceptsUntilStopped(p: Pool, steps: seq<Step>)
    requires CanRun(p, steps)
    ensures Run(p, steps).accepted == p.accepted + (if p.stop then 0 else Submissions(steps))
    ensures Run(p, steps).stop <==> p.stop || Stop in steps
    decreases |steps|
  {
    hide Awakened;
    if steps == [] {
    } else {
      AcceptsUntilStopped(Take(p, steps[0]), steps[1..]);
    }
  }

  /** Submitted work is done within a bounded number of steps ... */
  lemma {:induction false} WorkRunsOut(p: Pool, steps: seq<Step>)
    requires CanRun(p, steps) && forall i :: 0 <= i < |steps| ==> IsWork(steps[i])
    ensures |steps| + Work(Run(p, steps)) <= Work(p)
    decreases |steps|
  {
    if steps == [] {
    } else {
      WorkGetsLess(p, steps[0]);
      hide CanTake, Take, Work;
      WorkRunsOut(Take(p, steps[0]), steps[1..]);
    }
  }

  /** ... and until the pool is at rest some step of it can be made. */
  lemma SomeStepRemains(p: Pool) returns (step: Step)
    requires !AtRest(p)
    ensures CanTake(p, step) && IsWork(step)
  {
    if p.alarm {
      step := WakeAll;
    } else if w :| 0 <= w < |p.workers| && p.workers[w] == Checking {
      step := Check(w);
    } else if w :| 0 <= w < |p.workers| && p.workers[w].Running? {
      step := Finish(w);
    } else if w :| 0 <= w < |p.workers| && p.workers[w] == Asleep {
      step := Ping(w);
    } else {
      step := Ping(0);
    }
  }
}

/** Which pieces of application code run, how often and in which order. */
module RuntimeRuns {
  import opened Registry
  import opened RuntimeSpec
  import Sd

  // ---- what ran ----------------------------------------------------------------------------

  /** Everything that ran but news. */
  function Plain(ran: seq<Ran>): seq<Piece> {
    if ran == [] then []
    else Plain(ran[..|ran| - 1]) + if ran[|ran| - 1].piece.News? then [] else [ran[|ran| - 1].piece]
  }

  /** The news that the proxy of interest `id` passed on. */
  function NewsOf(ran: seq<Ran>, id: nat): seq<bool> {
    if ran == [] then []
    else
      var last := ran[|ran| - 1].piece;
      NewsOf(ran[..|ran| - 1], id) + if last.News? && last.id == id then [last.up] else []
  }

  function JobsIn(pieces: seq<Piece>): seq<nat> {
    if pieces == [] then []
    else JobsIn(pieces[..|pieces| - 1]) + if pieces[|pieces| - 1].Job? then [pieces[|pieces| - 1].job] else []
  }

  function JobsQueued(tasks: seq<Task>): seq<nat> {
    if tasks == [] then []
    else JobsQueued(tasks[..|tasks| - 1]) + if tasks[|tasks| - 1].Work? then [tasks[|tasks| - 1].job] else []
  }

  /** The numbers from `a` to `b - 1`. */
  function Between(a: nat, b: nat): seq<nat>
    requires a <= b
  {
    seq(b - a, i requires 0 <= i => a + i)
  }

  lemma OneMoreRan(ran: seq<Ran>, r: Ran, id: nat)
    ensures Plain(ran + [r]) == Plain(ran) + if r.piece.News? then [] else [r.piece]
    ensures NewsOf(ran + [r], id) == NewsOf(ran, id) + if r.piece.News? && r.piece.id == id then [r.piece.up] else []
  {
    assert (ran + [r])[..|ran|] == ran;
  }

  lemma {:induction false} JobsInBoth(x: seq<Piece>, y: seq<Piece>)
    ensures JobsIn(x + y) == JobsIn(x) + JobsIn(y)
    decreases |y|
  {
    if y == [] {
      assert x + y == x;
    } else {
      assert (x + y)[..|x + y| - 1] == x + y[..|y| - 1];
      JobsInBoth(x, y[..|y| - 1]);
    }
  }

  lemma {:induction false} JobsQueuedInBoth(x: seq<Task>, y: seq<Task>)
    ensures JobsQueued(x + y) == JobsQueued(x) + JobsQueued(y)
    decreases |y|
  {
    if y == [] {
      assert x + y == x;
    } else {
      assert (x + y)[..|x + y| - 1] == x + y[..|y| - 1];
      JobsQueuedInBoth(x, y[..|y| - 1]);
    }
  }

  lemma BetweenBoth(a: nat, b: nat, c: nat)
    requires a <= b <= c
    ensures Between(a, b) + Between(b, c) == Between(a, c)
  {
  }

  // ---- what a piece of application code does -----------------------------------------------

  function OpensIn(actions: seq<Action>): nat {
    if actions == [] then 0 else (if actions[0].Open? then 1 else 0) + OpensIn(actions[1..])
  }

  function QueuesIn(actions: seq<Action>): nat {
    if actions == [] then 0 else (if actions[0].Queue? then 1 else 0) + QueuesIn(actions[1..])
  }

  /** The first `n` pieces together. */
  function Opens(script: Script, n: nat): nat { if n == 0 then 0 else Opens(script, n - 1) + OpensIn(script(n - 1)) }

  function Queues(script: Script, n: nat): nat { if n == 0 then 0 else Queues(script, n - 1) + QueuesIn(script(n - 1)) }

  /** Every interest and every job that there ever was is one action of one piece that ran. */
  predicate Accounted(s: State, script: Script) {
    && s.runs == |s.ran| && s.nextId == 1 + Opens(script, s.runs) && s.jobs == Queues(script, s.runs)
  }

  /** The jobs that were queued from `s` to `t` stand at the end of the queue, in order. */
  predicate OnlyQueued(s: State, t: State) {
    && s.posted <= t.posted && s.jobs <= t.jobs
    && JobsQueued(t.posted[|s.posted|..]) == Between(s.jobs, t.jobs)
  }

  /** A proxy's news alternates, beginning with `true`, and the last of it is what the proxy believes. */
  predicate RightFor(s: State, id: nat) {
    && (forall i :: 0 <= i < |NewsOf(s.ran, id)| ==> NewsOf(s.ran, id)[i] == (i % 2 == 0))
    && (id in s.views ==> s.views[id].up == (|NewsOf(s.ran, id)| % 2 == 1))
    && (id >= s.nextId ==> NewsOf(s.ran, id) == [] && id !in s.views)
  }

  ghost predicate Right(s: State) { forall id: nat :: RightFor(s, id) }

  /** A destroyed proxy never comes back and is told nothing more. */
  predicate GoneFor(s: State, t: State, id: nat) {
    id < s.nextId && id !in s.views ==> id !in t.views && NewsOf(t.ran, id) == NewsOf(s.ran, id)
  }

  ghost predicate Gone(s: State, t: State) { forall id: nat :: GoneFor(s, t, id) }

  /** The registry did not change, and this is what ran under it. */
  predicate Held(s: State, t: State) {
    t.records == s.records && s.ran <= t.ran && forall i :: |s.ran| <= i < |t.ran| ==> t.ran[i].held == s.records
  }

  /** From `s` to `t` these pieces ran, and news; jobs were only queued. */
  ghost predicate Runs(s: State, t: State, pieces: seq<Piece>, script: Script) {
    && s.ran <= t.ran && Plain(t.ran) == Plain(s.ran) + pieces && OnlyQueued(s, t) && s.nextId <= t.nextId
    && (Right(s) ==> Right(t)) && Gone(s, t) && (Accounted(s, script) ==> Accounted(t, script))
  }

  lemma QueuedBoth(s: State, mid: State, t: State)
    requires OnlyQueued(s, mid) && OnlyQueued(mid, t)
    ensures OnlyQueued(s, t)
  {
    var x, y := mid.posted[|s.posted|..], t.posted[|mid.posted|..];
    assert t.posted[|s.posted|..] == x + y;
    JobsQueuedInBoth(x, y);
    BetweenBoth(s.jobs, mid.jobs, t.jobs);
    hide JobsQueued;
  }

  lemma GoneBoth(s: State, mid: State, t: State)
    requires Gone(s, mid) && Gone(mid, t) && s.nextId <= mid.nextId
    ensures Gone(s, t)
  {
    hide NewsOf;
    forall id: nat ensures GoneFor(s, t, id) {
      assert GoneFor(s, mid, id) && GoneFor(mid, t, id);
    }
  }

  lemma RunsBoth(s: State, mid: State, t: State, x: seq<Piece>, y: seq<Piece>, script: Script)
    requires Runs(s, mid, x, script) && Runs(mid, t, y, script)
    ensures Runs(s, t, x + y, script)
  {
    QueuedBoth(s, mid, t);
    GoneBoth(s, mid, t);
    hide OnlyQueued, Gone, Right, Accounted, Plain;
  }

  lemma HeldBoth(s: State, mid: State, t: State)
    requires Held(s, mid) && Held(mid, t)
    ensures Held(s, t)
  {
    assert forall i :: 0 <= i < |mid.ran| ==> t.ran[i] == mid.ran[i];
  }

  /** Nothing ran and nothing was queued. */
  lemma RunsNothing(s: State, t: State, script: Script)
    requires t.ran == s.ran && t.posted == s.posted && t.jobs == s.jobs && t.nextId == s.nextId && t.runs == s.runs && t.views == s.views
    ensures Runs(s, t, [], script)
  {
    assert t.posted[|s.posted|..] == [];
    if Right(s) {
      forall id: nat ensures RightFor(t, id) { assert RightFor(s, id); }
    }
    hide NewsOf, Plain, Opens, Queues;
  }

  // ---- application code --------------------------------------------------------------------

  /** What the actions of a piece amount to. */
  ghost predicate Performed(s: State, t: State, actions: seq<Action>) {
    && t.ran == s.ran && t.runs == s.runs && t.records == s.records && OnlyQueued(s, t)
    && t.nextId == s.nextId + OpensIn(actions) && t.jobs == s.jobs + QueuesIn(actions)
    && (Right(s) ==> Right(t)) && Gone(s, t)
    && AllShut(s.nextId, actions, t.views)
  }

  /** The interests among the first that these actions give up are gone. */
  ghost predicate AllShut(first: nat, actions: seq<Action>, views: map<nat, View>) {
    forall id: nat :: id < first && Shut(id) in actions ==> id !in views
  }

  lemma DonePerforms(s: State, a: Action)
    ensures Performed(s, Do(s, a), [a])
  {
    var t := Do(s, a);
    QueuedByOne(s, a);
    if Right(s) {
      forall id: nat ensures RightFor(t, id) { assert RightFor(s, id); }
    }
    forall id: nat ensures GoneFor(s, t, id) {}
    CountedBoth(a, []);
    hide NewsOf, JobsQueued, OnlyQueued;
    assert AllShut(s.nextId, [a], t.views);
  }

  lemma CountedBoth(a: Action, actions: seq<Action>)
    ensures OpensIn([a]) == (if a.Open? then 1 else 0) && QueuesIn([a]) == if a.Queue? then 1 else 0
    ensures OpensIn([a] + actions) == OpensIn([a]) + OpensIn(actions) && QueuesIn([a] + actions) == QueuesIn([a]) + QueuesIn(actions)
  {
    assert [a][1..] == [] && ([a] + actions)[1..] == actions;
    assert OpensIn([a]) == (if a.Open? then 1 else 0) + OpensIn([]);
    assert QueuesIn([a]) == (if a.Queue? then 1 else 0) + QueuesIn([]);
  }

  lemma QueuedByOne(s: State, a: Action)
    ensures OnlyQueued(s, Do(s, a))
  {
    var t := Do(s, a);
    var more := t.posted[|s.posted|..];
    assert more == [] || (|more| == 1 && more[..0] == []);
  }

  lemma PerformedBoth(s: State, mid: State, t: State, a: Action, actions: seq<Action>)
    requires Performed(s, mid, [a]) && Performed(mid, t, actions)
    ensures Performed(s, t, [a] + actions)
  {
    QueuedBoth(s, mid, t);
    GoneBoth(s, mid, t);
    hide OnlyQueued, Right;
    CountedBoth(a, actions);
    forall id: nat | id < s.nextId && Shut(id) in [a] + actions ensures id !in t.views {
      assert GoneFor(mid, t, id);
      assert Shut(id) in [a] || Shut(id) in actions;
    }
    assert AllShut(s.nextId, [a] + actions, t.views);
  }

  lemma {:induction false} AllArePerformed(s: State, actions: seq<Action>)
    ensures Performed(s, Perform(s, actions), actions)
    decreases |actions|
  {
    hide Performed, Do;
    if actions == [] {
      NothingPerformed(s);
    } else {
      DonePerforms(s, actions[0]);
      AllArePerformed(Do(s, actions[0]), actions[1..]);
      PerformedBoth(s, Do(s, actions[0]), Perform(s, actions), actions[0], actions[1..]);
      assert [actions[0]] + actions[1..] == actions;
    }
  }

  lemma NothingPerformed(s: State)
    ensures Performed(s, s, [])
  {
    RunsNothing(s, s, _ => []);
  }

  /** Starting a piece that is no news. */
  lemma StartingRuns(s: State, piece: Piece)
    requires !piece.News?
    ensures var t := Starting(s, piece);
            Plain(t.ran) == Plain(s.ran) + [piece] && (Right(s) ==> Right(t)) && forall id: nat :: NewsOf(t.ran, id) == NewsOf(s.ran, id)
  {
    var t := Starting(s, piece);
    forall id: nat
      ensures NewsOf(t.ran, id) == NewsOf(s.ran, id) && Plain(t.ran) == Plain(s.ran) + [piece]
    {
      OneMoreRan(s.ran, Ran(piece, s.records), id);
    }
    OneMoreRan(s.ran, Ran(piece, s.records), 0);
    hide Plain, NewsOf;
    if Right(s) {
      forall id: nat ensures RightFor(t, id) { assert RightFor(s, id); }
    }
  }

  /** One piece that is no news runs, once, and its actions are performed. */
  lemma PieceRuns(s: State, piece: Piece, script: Script)
    requires !piece.News?
    ensures Runs(s, RunApplication(s, piece, script), [piece], script) && Held(s, RunApplication(s, piece, script))
    ensures AllShut(s.nextId, script(s.runs), RunApplication(s, piece, script).views)
  {
    var mid, t := Starting(s, piece), RunApplication(s, piece, script);
    StartingRuns(s, piece);
    AllArePerformed(mid, script(s.runs));
    hide Plain, NewsOf, Perform, OnlyQueued;
    FromMid(s, mid, t);
    forall id: nat ensures GoneFor(s, t, id) { assert GoneFor(mid, t, id); }
  }

  lemma FromMid(s: State, mid: State, t: State)
    requires OnlyQueued(mid, t) && mid.posted == s.posted && mid.jobs == s.jobs
    ensures OnlyQueued(s, t)
  {
  }

  /** A proxy is told at most once, and exactly if it is news; then its application runs. */
  lemma HearRuns(s: State, id: nat, up: bool, script: Script)
    ensures Runs(s, Hear(s, id, up, script), [], script) && Held(s, Hear(s, id, up, script))
  {
    if id in s.views && s.views[id].up != up {
      var told := Starting(s.(views := s.views[id := s.views[id].(up := up)]), News(id, up));
      var t := Hear(s, id, up, script);
      NewsIsRight(s, id, up);
      AllArePerformed(told, script(s.runs));
      hide Plain, NewsOf, Perform, OnlyQueued, Right;
      FromMid(s, told, t);
      forall other: nat ensures GoneFor(s, t, other) { assert GoneFor(told, t, other) && GoneFor(s, told, other); }
    } else {
      RunsNothing(s, s, script);
    }
  }

  lemma NewsIsRight(s: State, id: nat, up: bool)
    requires id in s.views && s.views[id].up != up
    ensures var told := Starting(s.(views := s.views[id := s.views[id].(up := up)]), News(id, up));
            Plain(told.ran) == Plain(s.ran) && (Right(s) ==> Right(told)) && Gone(s, told)
  {
    var told := Starting(s.(views := s.views[id := s.views[id].(up := up)]), News(id, up));
    OneMoreRan(s.ran, Ran(News(id, up), s.records), id);
    forall other: nat ensures NewsOf(told.ran, other) == NewsOf(s.ran, other) + if other == id then [up] else [] {
      OneMoreRan(s.ran, Ran(News(id, up), s.records), other);
    }
    hide Plain, NewsOf;
    if Right(s) {
      forall other: nat ensures RightFor(told, other) { assert RightFor(s, other); }
    }
  }

  // ---- news --------------------------------------------------------------------------------

  lemma {:induction false} HearEachRuns(s: State, ids: seq<nat>, up: bool, script: Script)
    ensures Runs(s, HearEach(s, ids, up, script), [], script) && Held(s, HearEach(s, ids, up, script))
    decreases |ids|
  {
    hide Runs, Held, Hear;
    if ids == [] {
      NothingRan(s, script);
    } else {
      var mid := Hear(s, ids[0], up, script);
      HearRuns(s, ids[0], up, script);
      HearEachRuns(mid, ids[1..], up, script);
      NoneAndNone(s, mid, HearEach(s, ids, up, script), script);
    }
  }

  lemma NothingRan(s: State, script: Script)
    ensures Runs(s, s, [], script) && Held(s, s)
  {
    RunsNothing(s, s, script);
  }

  lemma NoneAndNone(s: State, mid: State, t: State, script: Script)
    requires Runs(s, mid, [], script) && Runs(mid, t, [], script) && Held(s, mid) && Held(mid, t)
    ensures Runs(s, t, [], script) && Held(s, t)
  {
    RunsBoth(s, mid, t, [], [], script);
    HeldBoth(s, mid, t);
    hide Runs, Held;
    var none: seq<Piece> := [];
    assert none + none == none;
  }

  lemma {:induction false} NotifyEachRuns(s: State, keys: seq<Key>, script: Script)
    ensures Runs(s, NotifyEach(s, keys, script), [], script) && Held(s, NotifyEach(s, keys, script))
    decreases |keys|
  {
    hide Runs, Held, HearEach, IdsBelow;
    if keys == [] {
      NothingRan(s, script);
    } else {
      var mid := Notify(s, keys[0], false, script);
      HearEachRuns(s, IdsBelow(s.views, keys[0], s.nextId), false, script);
      NotifyEachRuns(mid, keys[1..], script);
      NoneAndNone(s, mid, NotifyEach(s, keys, script), script);
    }
  }

  /** Nothing runs while the registry is brought up to date. */
  lemma UpdateRunsNothing(s: State, t: State, u: State, script: Script)
    requires t == s.(records := t.records, stale := t.stale) && Runs(t, u, [], script)
    ensures Runs(s, u, [], script)
  {
    RunsNothing(s, t, script);
    RunsBoth(s, t, u, [], [], script);
    hide Runs;
    var none: seq<Piece> := [];
    assert none + none == none;
  }

  lemma ObserveRuns(s: State, e: Sd.Entry, now: int, script: Script)
    ensures Runs(s, Observe(s, e, now, script), [], script)
  {
    var key := KeyOf(e.serviceId, e.instanceId);
    var quiet := s.(records := Observed(s.records, e, now));
    var told := quiet.(stale := s.stale - Ids(s.views, {key}));
    hide Runs, HearEach, IdsBelow, Observed, Ids;
    match Report(s.records, e)
    case Unchanged =>
      NothingRan(quiet, script);
      UpdateRunsNothing(s, quiet, quiet, script);
    case Available =>
      HearEachRuns(told, IdsBelow(told.views, key, told.nextId), true, script);
      UpdateRunsNothing(s, told, Observe(s, e, now, script), script);
    case Unavailable =>
      HearEachRuns(told, IdsBelow(told.views, key, told.nextId), false, script);
      UpdateRunsNothing(s, told, Observe(s, e, now, script), script);
  }

  /** What runs when leases end finds the registry without any lease that is over. */
  lemma ExpireRuns(s: State, now: int, script: Script)
    ensures Runs(s, ExpireLeases(s, now, script), [], script)
    ensures Held(s.(records := StillHeld(s.records, now)), ExpireLeases(s, now, script))
  {
    var keys := LapsedKeys(s.records, now);
    var swept := s.(records := StillHeld(s.records, now), stale := s.stale - Ids(s.views, KeySet(keys)));
    NotifyEachRuns(swept, keys, script);
    hide Runs, NotifyEach, Ids, KeySet, LapsedKeys, StillHeld;
    UpdateRunsNothing(s, swept, ExpireLeases(s, now, script), script);
  }

  // ---- the queue ---------------------------------------------------------------------------

  /** The queued jobs as pieces of application code. */
  function Works(due: seq<Task>): seq<Piece> {
    if due == [] then [] else (if due[0].Work? then [Job(due[0].job)] else []) + Works(due[1..])
  }

  lemma {:induction false} WorksAreTheJobs(due: seq<Task>)
    ensures JobsIn(Works(due)) == JobsQueued(due)
    decreases |due|
  {
    if due == [] {
    } else {
      WorksAreTheJobs(due[1..]);
      var first := if due[0].Work? then [Job(due[0].job)] else [];
      JobsInBoth(first, Works(due[1..]));
      JobsQueuedInBoth([due[0]], due[1..]);
      assert [due[0]] + due[1..] == due && [due[0]][..0] == [];
      assert first != [] ==> first[..0] == [];
    }
  }

  lemma TaskRuns(s: State, task: Task, script: Script)
    ensures Runs(s, RunTask(s, task, script), if task.Work? then [Job(task.job)] else [], script)
    ensures Held(s, RunTask(s, task, script))
  {
    hide Runs, Held, Hear, RunApplication;
    match task
    case Work(job) => PieceRuns(s, Job(job), script);
    case Greet(id) =>
      if id in s.views {
        var marked := s.(stale := if s.views[id].key in s.records then s.stale else s.stale + {id});
        HearRuns(marked, id, true, script);
        UpdateRunsNothing(s, marked, RunTask(s, task, script), script);
        assert Held(s, RunTask(s, task, script)) by { SameRecords(s, marked, RunTask(s, task, script)); }
      } else {
        NothingRan(s, script);
      }
  }

  lemma SameRecords(s: State, mid: State, t: State)
    requires mid.records == s.records && mid.ran == s.ran && Held(mid, t)
    ensures Held(s, t)
  {
  }

  /** Every task that is due runs, once, in queue order. */
  lemma {:induction false} TasksRun(s: State, due: seq<Task>, script: Script)
    ensures Runs(s, RunTasks(s, due, script), Works(due), script) && Held(s, RunTasks(s, due, script))
    decreases |due|
  {
    hide Runs, Held, RunTask;
    if due == [] {
      NothingRan(s, script);
    } else {
      var mid := RunTask(s, due[0], script);
      TaskRuns(s, due[0], script);
      TasksRun(mid, due[1..], script);
      RunsBoth(s, mid, RunTasks(s, due, script), if due[0].Work? then [Job(due[0].job)] else [], Works(due[1..]), script);
      HeldBoth(s, mid, RunTasks(s, due, script));
    }
  }

  /** The queue is swapped out and run: every job that was queued, once and in order, and no other; what is
      queued meanwhile is all that is left. */
  lemma QueueIsRun(s: State, script: Script)
    ensures var t := RunPosted(s, script);
            && Plain(t.ran) == Plain(s.ran) + Works(s.posted)
            && s.jobs <= t.jobs && JobsQueued(t.posted) == Between(s.jobs, t.jobs)
  {
    var swapped, t := s.(posted := []), RunPosted(s, script);
    TasksRun(swapped, s.posted, script);
    assert t.posted[0..] == t.posted;
    hide Plain, Works, RunTasks, JobsQueued, Right, Gone, Accounted, Held;
  }

  // ---- ready descriptors and ticks ---------------------------------------------------------

  function Handlers(ready: seq<Ready>): seq<Piece> {
    if ready == [] then [] else (if ready[0].Other? then [Handler(ready[0].fd)] else []) + Handlers(ready[1..])
  }

  lemma {:induction false} DispatchRuns(s: State, ready: seq<Ready>, script: Script)
    ensures Runs(s, Dispatch(s, ready, script), Handlers(ready), script)
    decreases |ready|
  {
    hide Runs, Held, Observe, RunApplication;
    if ready == [] {
      NothingRan(s, script);
    } else {
      var mid := DispatchOne(s, ready[0], script);
      match ready[0] {
        case Arrived(entry, at) =>
          if entry.kind == Sd.FindService { NothingRan(s, script); } else { ObserveRuns(s, entry, at, script); }
        case Other(fd) => PieceRuns(s, Handler(fd), script);
      }
      DispatchRuns(mid, ready[1..], script);
      RunsBoth(s, mid, Dispatch(s, ready, script), if ready[0].Other? then [Handler(ready[0].fd)] else [], Handlers(ready[1..]), script);
    }
  }

  function Ticks(n: nat): seq<Piece> { seq(n, _ => Tick) }

  lemma {:induction false} TicksRun(s: State, ticks: nat, script: Script)
    ensures Runs(s, RunTicks(s, ticks, script), Ticks(ticks), script) && Held(s, RunTicks(s, ticks, script))
    decreases ticks
  {
    hide Runs, Held, RunApplication;
    if ticks == 0 {
      NothingRan(s, script);
    } else {
      var mid := RunApplication(s, Tick, script);
      PieceRuns(s, Tick, script);
      TicksRun(mid, ticks - 1, script);
      RunsBoth(s, mid, RunTicks(s, ticks, script), [Tick], Ticks(ticks - 1), script);
      HeldBoth(s, mid, RunTicks(s, ticks, script));
      assert [Tick] + Ticks(ticks - 1) == Ticks(ticks);
    }
  }

  // ---- one poll ----------------------------------------------------------------------------

  /** What one poll runs besides news: the handlers of the other ready descriptors, each once, in their
      order; after the sweep of the leases every tick handler once; then every job that is due, once, in
      queue order -- that is what was queued before this poll and during it up to here. What those jobs
      queue is left for the next poll. From the sweep on, all that runs finds no lease that is over. */
  lemma PollRuns(s: State, ready: seq<Ready>, now: int, ticks: nat, script: Script) returns (due: seq<Task>, swept: nat, jobs: nat)
    ensures var t := Poll(s, ready, now, ticks, script);
            && Plain(t.ran) == Plain(s.ran) + Handlers(ready) + Ticks(ticks) + Works(due)
            && s.posted <= due && s.jobs <= jobs <= t.jobs
            && JobsQueued(due[|s.posted|..]) == Between(s.jobs, jobs) && JobsQueued(t.posted) == Between(jobs, t.jobs)
            && |s.ran| <= swept <= |t.ran| && Plain(t.ran[..swept]) == Plain(s.ran) + Handlers(ready)
            && (forall i :: swept <= i < |t.ran| ==> t.ran[i].held == t.records)
            && (forall k :: k in t.records ==> t.records[k].forever || t.records[k].expiresAt > now)
    ensures Right(s) ==> Right(Poll(s, ready, now, ticks, script))
    ensures Gone(s, Poll(s, ready, now, ticks, script))
    ensures Accounted(s, script) ==> Accounted(Poll(s, ready, now, ticks, script), script)
  {
    var a := Dispatch(s, ready, script);
    var b := ExpireLeases(a, now, script);
    var c := RunTicks(b, ticks, script);
    var d := c.(posted := []);
    var t := Poll(s, ready, now, ticks, script);
    DispatchRuns(s, ready, script);
    ExpireRuns(a, now, script);
    TicksRun(b, ticks, script);
    TasksRun(d, c.posted, script);
    due, swept, jobs := c.posted, |a.ran|, c.jobs;
    hide Dispatch, ExpireLeases, RunTicks, RunTasks, Works, Handlers, Ticks, StillHeld, Held, Runs;
    RunsBoth(s, a, b, Handlers(ready), [], script);
    assert Handlers(ready) + [] == Handlers(ready);
    RunsBoth(s, b, c, Handlers(ready), Ticks(ticks), script);
    HeldFromSweep(a, b, c, t, now);
    ThenTheQueue(s, c, t, Handlers(ready) + Ticks(ticks), Works(c.posted), script);
    RanSoFar(s, a, b, c, t, Handlers(ready), Ticks(ticks), script);
    assert Plain(s.ran) + (Handlers(ready) + Ticks(ticks)) + Works(due) == Plain(s.ran) + Handlers(ready) + Ticks(ticks) + Works(due);
  }

  lemma HeldFromSweep(a: State, b: State, c: State, t: State, now: int)
    requires Held(a.(records := StillHeld(a.records, now)), b) && Held(b, c) && Held(c.(posted := []), t)
    ensures forall i :: |a.ran| <= i < |t.ran| ==> t.ran[i].held == t.records
    ensures forall k :: k in t.records ==> t.records[k].forever || t.records[k].expiresAt > now
  {
    HeldBoth(a.(records := StillHeld(a.records, now)), b, c);
    SameRecords(c, c.(posted := []), t);
    HeldBoth(a.(records := StillHeld(a.records, now)), c, t);
  }

  /** The queue is swapped out and run. */
  lemma ThenTheQueue(s: State, c: State, t: State, before: seq<Piece>, works: seq<Piece>, script: Script)
    requires Runs(s, c, before, script) && Runs(c.(posted := []), t, works, script)
    ensures Plain(t.ran) == Plain(s.ran) + before + works && s.ran <= c.ran <= t.ran
    ensures s.posted <= c.posted && s.jobs <= c.jobs <= t.jobs
    ensures JobsQueued(c.posted[|s.posted|..]) == Between(s.jobs, c.jobs) && JobsQueued(t.posted) == Between(c.jobs, t.jobs)
    ensures (Right(s) ==> Right(t)) && Gone(s, t) && (Accounted(s, script) ==> Accounted(t, script))
  {
    var d := c.(posted := []);
    assert t.posted[0..] == t.posted;
    if Right(c) {
      forall id: nat ensures RightFor(d, id) { assert RightFor(c, id); }
    }
    forall id: nat ensures GoneFor(c, t, id) { assert GoneFor(d, t, id); }
    GoneBoth(s, c, t);
    hide Plain, JobsQueued, NewsOf, Opens, Queues;
  }

  lemma RanSoFar(s: State, a: State, b: State, c: State, t: State, handlers: seq<Piece>, ticks: seq<Piece>, script: Script)
    requires Runs(s, a, handlers, script) && Runs(a, b, [], script) && Runs(b, c, ticks, script) && c.ran <= t.ran
    ensures |s.ran| <= |a.ran| <= |t.ran| && Plain(t.ran[..|a.ran|]) == Plain(s.ran) + handlers
  {
    assert t.ran[..|a.ran|] == a.ran;
  }

  // ---- whole runs --------------------------------------------------------------------------

  /** Every job that was ever queued has run or is still queued: once, and in the order of queueing. */
  predicate JobsInOrder(s: State) { JobsIn(Plain(s.ran)) + JobsQueued(s.posted) == Between(0, s.jobs) }

  lemma {:induction false} HandlersAreNoJobs(ready: seq<Ready>)
    ensures JobsIn(Handlers(ready)) == []
    decreases |ready|
  {
    if ready == [] {
    } else {
      HandlersAreNoJobs(ready[1..]);
      var first := if ready[0].Other? then [Handler(ready[0].fd)] else [];
      JobsInBoth(first, Handlers(ready[1..]));
      assert first != [] ==> first[..0] == [];
    }
  }

  lemma {:induction false} TicksAreNoJobs(n: nat)
    ensures JobsIn(Ticks(n)) == []
  {
    if n == 0 {
    } else {
      TicksAreNoJobs(n - 1);
      assert Ticks(n)[..n - 1] == Ticks(n - 1);
    }
  }

  lemma PollKeepsJobs(s: State, ready: seq<Ready>, now: int, ticks: nat, script: Script)
    requires JobsInOrder(s)
    ensures JobsInOrder(Poll(s, ready, now, ticks, script))
  {
    var t := Poll(s, ready, now, ticks, script);
    var due, swept, jobs := PollRuns(s, ready, now, ticks, script);
    hide Poll, Plain, JobsIn, JobsQueued, Handlers, Works, Ticks, Between;
    HandlersAreNoJobs(ready);
    TicksAreNoJobs(ticks);
    WorksAreTheJobs(due);
    JobsInBoth(Plain(s.ran) + Handlers(ready) + Ticks(ticks), Works(due));
    JobsInBoth(Plain(s.ran) + Handlers(ready), Ticks(ticks));
    JobsInBoth(Plain(s.ran), Handlers(ready));
    assert due == s.posted + due[|s.posted|..];
    JobsQueuedInBoth(s.posted, due[|s.posted|..]);
    BetweenBoth(0, s.jobs, jobs);
    BetweenBoth(0, jobs, t.jobs);
    Regroup(JobsIn(Plain(s.ran)), JobsQueued(s.posted), Between(s.jobs, jobs));
  }

  lemma OwnKeepsJobs(s: State, script: Script)
    requires JobsInOrder(s)
    ensures JobsInOrder(RunApplication(s, Own, script))
  {
    hide RunApplication, Plain, JobsQueued, JobsIn, Held, Right, Gone, Accounted, OnlyQueued, JobsInOrder;
    PieceRuns(s, Own, script);
    OwnIsNoJob();
    QueuingKeepsJobs(s, RunApplication(s, Own, script), [Own]);
  }

  lemma OwnIsNoJob()
    ensures JobsIn([Own]) == []
  {
    assert [Own][..0] == [];
  }

  lemma QueuingKeepsJobs(s: State, t: State, pieces: seq<Piece>)
    requires JobsInOrder(s) && OnlyQueued(s, t) && Plain(t.ran) == Plain(s.ran) + pieces && JobsIn(pieces) == []
    ensures JobsInOrder(t)
  {
    hide Plain, JobsQueued, JobsIn, Between;
    var more := t.posted[|s.posted|..];
    assert t.posted == s.posted + more;
    JobsInBoth(Plain(s.ran), pieces);
    JobsQueuedInBoth(s.posted, more);
    BetweenBoth(0, s.jobs, t.jobs);
    Regroup(JobsIn(Plain(s.ran)), JobsQueued(s.posted), JobsQueued(more));
  }

  lemma Regroup(x: seq<nat>, y: seq<nat>, z: seq<nat>)
    ensures x + [] == x && x + (y + z) == x + y + z
  {
  }

  ghost predicate Orderly(s: State, script: Script) { JobsInOrder(s) && Right(s) && Accounted(s, script) }

  lemma StepStaysOrderly(s: State, e: Event, script: Script)
    requires Orderly(s, script)
    ensures Orderly(Step(s, e, script), script) && Gone(s, Step(s, e, script)) && s.nextId <= Step(s, e, script).nextId
  {
    hide JobsInOrder, Right, Gone, Held;
    match e
    case Polls(ready, now, ticks) =>
      PollKeepsJobs(s, ready, now, ticks, script);
      var due, swept, jobs := PollRuns(s, ready, now, ticks, script);
      MoreOpened(script, s.runs, Step(s, e, script).runs);
    case Application =>
      OwnKeepsJobs(s, script);
      PieceRuns(s, Own, script);
  }

  lemma {:induction false} MoreOpened(script: Script, n: nat, m: nat)
    requires n <= m
    ensures Opens(script, n) <= Opens(script, m)
    decreases m
  {
    if n == m {
    } else {
      MoreOpened(script, n, m - 1);
    }
  }

  lemma {:induction false} RunStaysOrderly(s: State, events: seq<Event>, script: Script)
    requires Orderly(s, script)
    ensures Orderly(Run(s, events, script), script) && Gone(s, Run(s, events, script))
    decreases |events|
  {
    hide Orderly, Step, Gone;
    if events == [] {
      NothingRan(s, script);
      assert Gone(s, s) by { SelfGone(s, script); }
    } else {
      StepStaysOrderly(s, events[0], script);
      RunStaysOrderly(Step(s, events[0], script), events[1..], script);
      GoneBoth(s, Step(s, events[0], script), Run(s, events, script));
    }
  }

  lemma SelfGone(s: State, script: Script)
    requires Runs(s, s, [], script)
    ensures Gone(s, s)
  {
  }

  lemma StartedIsOrderly(script: Script)
    ensures Orderly(Started(), script)
  {
    forall id: nat ensures RightFor(Started(), id) {}
  }

  /** Over any run: the jobs that have run and those that are still queued are, in this order, all the jobs
      ever queued; and the numbers of interests and jobs are those of the `Open` and `Queue` actions in the
      pieces that ran, so every action was carried out once. */
  lemma EveryJobRunsOnce(events: seq<Event>, script: Script)
    ensures var s := Run(Started(), events, script);
            && JobsIn(Plain(s.ran)) + JobsQueued(s.posted) == Between(0, s.jobs)
            && s.runs == |s.ran| && s.nextId == 1 + Opens(script, |s.ran|) && s.jobs == Queues(script, |s.ran|)
  {
    StartedIsOrderly(script);
    RunStaysOrderly(Started(), events, script);
  }

  /** Over any run: what a proxy passes on alternates, beginning with `true`; the last of it is what the
      proxy believes; and a destroyed proxy, whatever happens later, passes nothing on. */
  lemma NewsIsPassedOn(events: seq<Event>, more: seq<Event>, script: Script, id: nat)
    ensures var s := Run(Started(), events, script);
            && (forall i :: 0 <= i < |NewsOf(s.ran, id)| ==> NewsOf(s.ran, id)[i] == (i % 2 == 0))
            && (id in s.views ==> s.views[id].up == (|NewsOf(s.ran, id)| % 2 == 1))
            && (id < s.nextId && id !in s.views ==>
                  id !in Run(s, more, script).views && NewsOf(Run(s, more, script).ran, id) == NewsOf(s.ran, id))
  {
    StartedIsOrderly(script);
    RunStaysOrderly(Started(), events, script);
    var s := Run(Started(), events, script);
    RunStaysOrderly(s, more, script);
    hide Run, NewsOf, JobsInOrder, Accounted;
    assert RightFor(s, id);
    assert GoneFor(s, Run(s, more, script), id);
  }
}

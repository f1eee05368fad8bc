/** When does a proxy believe what the registry holds? Always, except around a greeting. */
module Availability {
  import opened Registry
  import opened RuntimeSpec
  import Sd

  predicate Queued(tasks: seq<Task>, id: nat) { Greet(id) in tasks }

  predicate Good(s: State, due: seq<Task>, id: nat)
    requires id in s.views
  {
    var v := s.views[id];
    if id in s.stale then v.up && v.key !in s.records
    else if Queued(due + s.posted, id) then v.up ==> v.key in s.records
    else v.up == (v.key in s.records)
  }

  /** Everything but the views in `lag` -- those still to be told of a change -- is as it should be.
      `due` is the part of the queue being run. */
  ghost predicate Settled(s: State, due: seq<Task>, lag: set<nat>) {
    && (forall id :: id in s.views && id !in lag ==> Good(s, due, id))
    && (forall id :: id in s.views ==> id < s.nextId)
    && (forall id :: id in s.stale || Queued(due + s.posted, id) ==> id in s.greeted)
    && (forall id :: id in s.greeted ==> id < s.nextId)
    && (forall id :: id in lag ==> id < s.nextId && id !in s.stale)
  }

  /** What application code cannot change. */
  predicate Same(s: State, t: State) {
    && t.records == s.records && s.nextId <= t.nextId && t.stale == s.stale && s.posted <= t.posted
    && (forall id :: id in t.views && id < s.nextId ==> id in s.views && t.views[id].key == s.views[id].key)
  }

  lemma DoStaysSettled(s: State, a: Action, due: seq<Task>, lag: set<nat>)
    requires Settled(s, due, lag)
    ensures Settled(Do(s, a), due, lag) && Same(s, Do(s, a))
  {
    var t := Do(s, a);
    assert forall id :: Queued(due + s.posted, id) ==> Queued(due + t.posted, id);
    assert forall id :: Queued(due + t.posted, id) && id != s.nextId ==> Queued(due + s.posted, id);
    forall id | id in t.views && id !in lag ensures Good(t, due, id) {
      if id in s.views && id != s.nextId {
        assert Good(s, due, id);
      }
    }
  }

  lemma {:induction false} PerformStaysSettled(s: State, actions: seq<Action>, due: seq<Task>, lag: set<nat>)
    requires Settled(s, due, lag)
    ensures Settled(Perform(s, actions), due, lag) && Same(s, Perform(s, actions))
    decreases |actions|
  {
    hide Settled, Do;
    if actions == [] {
    } else {
      DoStaysSettled(s, actions[0], due, lag);
      PerformStaysSettled(Do(s, actions[0]), actions[1..], due, lag);
    }
  }

  /** Told what the registry holds, a proxy agrees with it. */
  lemma HearSettles(s: State, id: nat, up: bool, script: Script, due: seq<Task>, lag: set<nat>)
    requires Settled(s, due, lag) && id !in s.stale
    requires id in s.views ==> up == (s.views[id].key in s.records)
    ensures Settled(Hear(s, id, up, script), due, lag - {id}) && Same(s, Hear(s, id, up, script))
  {
    if id in s.views && s.views[id].up != up {
      var told := Starting(s.(views := s.views[id := s.views[id].(up := up)]), News(id, up));
      forall other | other in told.views && other !in lag - {id} ensures Good(told, due, other) {
        if other != id {
          assert Good(s, due, other);
        }
      }
      PerformStaysSettled(told, script(s.runs), due, lag - {id});
    }
  }

  lemma {:induction false} HearEachSettles(s: State, ids: seq<nat>, up: bool, script: Script, due: seq<Task>, lag: set<nat>)
    requires Settled(s, due, lag)
    requires forall i :: 0 <= i < |ids| ==> ids[i] < s.nextId && ids[i] !in s.stale
    requires forall i :: 0 <= i < |ids| ==> ids[i] in s.views ==> up == (s.views[ids[i]].key in s.records)
    ensures var t := HearEach(s, ids, up, script);
            Settled(t, due, lag - (set id | id in ids)) && Same(s, t)
    decreases |ids|
  {
    if ids == [] {
      assert lag - (set id | id in ids) == lag;
    } else {
      hide Settled, Hear;
      HearSettles(s, ids[0], up, script, due, lag);
      var mid := Hear(s, ids[0], up, script);
      assert forall i :: 0 <= i < |ids[1..]| ==> ids[1..][i] == ids[i + 1];
      HearEachSettles(mid, ids[1..], up, script, due, lag - {ids[0]});
      assert lag - {ids[0]} - (set id | id in ids[1..]) == lag - (set id | id in ids);
    }
  }

  lemma {:induction false} IdsBelowAre(views: map<nat, View>, key: Key, n: nat)
    ensures forall id :: id in IdsBelow(views, key, n) <==> id in views && id < n && views[id].key == key
    ensures Rising(IdsBelow(views, key, n))
  {
    if n == 0 {
    } else {
      IdsBelowAre(views, key, n - 1);
      var before := IdsBelow(views, key, n - 1);
      assert forall i :: 0 <= i < |before| ==> before[i] in before;
    }
  }

  /** In the order in which the interests were registered. */
  predicate Rising(ids: seq<nat>) { forall i, j :: 0 <= i < j < |ids| ==> ids[i] < ids[j] }

  lemma NotifySettles(s: State, key: Key, up: bool, script: Script, due: seq<Task>, lag: set<nat>)
    requires Settled(s, due, lag) && up == (key in s.records)
    requires s.stale !! Ids(s.views, {key})
    ensures var t := Notify(s, key, up, script);
            Settled(t, due, lag - Ids(s.views, {key})) && Same(s, t)
  {
    IdsBelowAre(s.views, key, s.nextId);
    var ids := IdsBelow(s.views, key, s.nextId);
    forall i | 0 <= i < |ids| ensures ids[i] in s.views && s.views[ids[i]].key == key && ids[i] !in s.stale {
      assert ids[i] in ids;
      assert ids[i] in Ids(s.views, {key});
    }
    HearEachSettles(s, ids, up, script, due, lag);
    assert (set id | id in ids) == Ids(s.views, {key});
  }

  lemma ObserveSettles(s: State, e: Sd.Entry, now: int, script: Script)
    requires Settled(s, [], {})
    ensures Settled(Observe(s, e, now, script), [], {})
  {
    var key := KeyOf(e.serviceId, e.instanceId);
    var lag := Ids(s.views, {key});
    var s1 := s.(records := Observed(s.records, e, now));
    if Report(s.records, e).Unchanged? {
      assert forall k :: k in s1.records <==> k in s.records;
      assert forall id :: id in s.views ==> Good(s, [], id) && Good(s1, [], id);
    } else {
      var s2 := s1.(stale := s.stale - lag);
      forall id | id in s2.views && id !in lag ensures Good(s2, [], id) {
        assert Good(s, [], id);
      }
      NotifySettles(s2, key, Report(s.records, e).Available?, script, [], lag);
      assert lag - lag == {};
    }
  }

  lemma {:induction false} NotifyEachSettles(s: State, keys: seq<Key>, script: Script, lag: set<nat>)
    requires Settled(s, [], lag)
    requires forall i :: 0 <= i < |keys| ==> keys[i] !in s.records
    requires s.stale !! Ids(s.views, KeySet(keys))
    requires forall id :: id in lag && id in s.views ==> s.views[id].key in KeySet(keys)
    ensures Settled(NotifyEach(s, keys, script), [], {})
    decreases |keys|
  {
    if keys == [] {
      assert forall id :: id in s.views ==> id !in lag;
    } else {
      assert keys[0] in KeySet(keys);
      assert Ids(s.views, {keys[0]}) <= Ids(s.views, KeySet(keys));
      NotifySettles(s, keys[0], false, script, [], lag);
      var t, rest := Notify(s, keys[0], false, script), keys[1..];
      var lag' := lag - Ids(s.views, {keys[0]});
      assert forall i :: 0 <= i < |rest| ==> rest[i] == keys[i + 1];
      forall id | id in Ids(t.views, KeySet(rest)) ensures id !in t.stale {
        if id < s.nextId {
          assert t.views[id].key in KeySet(keys);
          assert id in Ids(s.views, KeySet(keys));
        }
      }
      forall id | id in lag' && id in t.views ensures t.views[id].key in KeySet(rest) {
        assert s.views[id].key in KeySet(keys) && s.views[id].key != keys[0];
      }
      NotifyEachSettles(t, rest, script, lag');
    }
  }

  lemma ExpireSettles(s: State, now: int, script: Script)
    requires Settled(s, [], {})
    ensures Settled(ExpireLeases(s, now, script), [], {})
  {
    var keys := LapsedKeys(s.records, now);
    LapsedBelowAre(s.records, now, 0x1_0000_0000);
    var lag := Ids(s.views, KeySet(keys));
    var s1 := s.(records := StillHeld(s.records, now), stale := s.stale - lag);
    assert forall k :: k in KeySet(keys) <==> k in keys;
    forall id | id in s1.views && id !in lag ensures Good(s1, [], id) {
      assert Good(s, [], id);
    }
    assert Settled(s1, [], lag);
    forall i | 0 <= i < |keys| ensures keys[i] !in s1.records {
      assert keys[i] in keys;
    }
    NotifyEachSettles(s1, keys, script, lag);
  }

  /** Which piece of application code runs next matters to nothing here. */
  lemma StartingStaysSettled(s: State, piece: Piece, due: seq<Task>)
    requires Settled(s, due, {})
    ensures Settled(Starting(s, piece), due, {})
  {
    var t := Starting(s, piece);
    forall id | id in t.views ensures Good(t, due, id) { assert Good(s, due, id); }
    hide Good, Queued;
  }

  lemma QueuedFirst(t: Task, rest: seq<Task>, posted: seq<Task>, id: nat)
    ensures Queued([t] + rest + posted, id) <==> t == Greet(id) || Queued(rest + posted, id)
    ensures Queued([t] + rest, id) <==> t == Greet(id) || Queued(rest, id)
  {
    assert [t] + rest + posted == [t] + (rest + posted);
  }

  lemma WorkIsNoGreeting(s: State, job: nat, rest: seq<Task>)
    requires Settled(s, [Work(job)] + rest, {})
    ensures Settled(s, rest, {})
  {
    forall id ensures Queued([Work(job)] + rest + s.posted, id) <==> Queued(rest + s.posted, id) {
      QueuedFirst(Work(job), rest, s.posted, id);
    }
    hide Queued;
    forall id | id in s.views ensures Good(s, rest, id) { assert Good(s, [Work(job)] + rest, id); }
  }

  /** The proxy has been told `true`, and is marked if the registry disagrees. */
  function Told(s: State, id: nat): State
    requires id in s.views
  {
    s.(stale := if s.views[id].key in s.records then s.stale else s.stale + {id},
       views := s.views[id := s.views[id].(up := true)])
  }

  lemma GreetingTells(s: State, id: nat, script: Script)
    requires id in s.views
    ensures RunTask(s, Greet(id), script)
         == if s.views[id].up then Told(s, id) else RunApplication(Told(s, id), News(id, true), script)
  {
    if s.views[id].up {
      assert s.views[id := s.views[id].(up := true)] == s.views;
    }
  }

  lemma ToldSettles(s: State, id: nat, rest: seq<Task>)
    requires id in s.views && Settled(s, [Greet(id)] + rest, {})
    ensures Settled(Told(s, id), rest, {})
  {
    var told := Told(s, id);
    forall other ensures Queued([Greet(id)] + rest + s.posted, other) <==> other == id || Queued(rest + s.posted, other) {
      QueuedFirst(Greet(id), rest, s.posted, other);
    }
    hide Queued;
    forall other | other in told.views ensures Good(told, rest, other) {
      assert Good(s, [Greet(id)] + rest, other);
    }
    hide Good;
  }

  lemma GoneIsNotGreeted(s: State, id: nat, rest: seq<Task>)
    requires id !in s.views && Settled(s, [Greet(id)] + rest, {})
    ensures Settled(s, rest, {})
  {
    forall other ensures Queued([Greet(id)] + rest + s.posted, other) <==> other == id || Queued(rest + s.posted, other) {
      QueuedFirst(Greet(id), rest, s.posted, other);
    }
    hide Queued;
    forall other | other in s.views ensures Good(s, rest, other) { assert Good(s, [Greet(id)] + rest, other); }
    hide Good;
  }

  lemma RunsStaySettled(s: State, piece: Piece, script: Script, due: seq<Task>)
    requires Settled(s, due, {})
    ensures Settled(RunApplication(s, piece, script), due, {})
  {
    StartingStaysSettled(s, piece, due);
    hide Settled, Perform;
    PerformStaysSettled(Starting(s, piece), script(s.runs), due, {});
  }

  lemma RunTaskSettles(s: State, due: seq<Task>, script: Script)
    requires due != [] && Settled(s, due, {})
    ensures Settled(RunTask(s, due[0], script), due[1..], {})
  {
    assert due == [due[0]] + due[1..];
    hide Settled, RunApplication, Hear, Told;
    match due[0]
    case Work(job) =>
      WorkIsNoGreeting(s, job, due[1..]);
      RunsStaySettled(s, Job(job), script, due[1..]);
    case Greet(id) =>
      if id in s.views {
        GreetingTells(s, id, script);
        ToldSettles(s, id, due[1..]);
        RunsStaySettled(Told(s, id), News(id, true), script, due[1..]);
      } else {
        GoneIsNotGreeted(s, id, due[1..]);
      }
  }

  lemma {:induction false} RunTasksSettles(s: State, due: seq<Task>, script: Script)
    requires Settled(s, due, {})
    ensures Settled(RunTasks(s, due, script), [], {})
    decreases |due|
  {
    if due == [] {
    } else {
      hide Settled, RunTask;
      RunTaskSettles(s, due, script);
      RunTasksSettles(RunTask(s, due[0], script), due[1..], script);
    }
  }

  lemma {:induction false} DispatchSettles(s: State, ready: seq<Ready>, script: Script)
    requires Settled(s, [], {})
    ensures Settled(Dispatch(s, ready, script), [], {})
    decreases |ready|
  {
    hide Settled, Observe, RunApplication;
    if ready == [] {
    } else {
      match ready[0]
      case Arrived(entry, at) =>
        if entry.kind != Sd.FindService { ObserveSettles(s, entry, at, script); }
        DispatchSettles(DispatchOne(s, ready[0], script), ready[1..], script);
      case Other(fd) =>
        RunsStaySettled(s, Handler(fd), script, []);
        DispatchSettles(RunApplication(s, Handler(fd), script), ready[1..], script);
    }
  }

  lemma {:induction false} TicksSettle(s: State, ticks: nat, script: Script)
    requires Settled(s, [], {})
    ensures Settled(RunTicks(s, ticks, script), [], {})
    decreases ticks
  {
    hide Settled, RunApplication;
    if ticks == 0 {
    } else {
      RunsStaySettled(s, Tick, script, []);
      TicksSettle(RunApplication(s, Tick, script), ticks - 1, script);
    }
  }

  lemma RunPostedSettles(s: State, script: Script)
    requires Settled(s, [], {})
    ensures Settled(RunPosted(s, script), [], {}) && Waiting(RunPosted(s, script), [])
  {
    var swapped := s.(posted := []);
    assert s.posted + [] == s.posted == [] + s.posted;
    forall id | id in swapped.views ensures Good(swapped, s.posted, id) { assert Good(s, [], id); }
    hide RunTasks, Good;
    RunTasksSettles(swapped, s.posted, script);
    RunTasksKeepWaiting(swapped, s.posted, script);
  }

  // ---- the greetings queued since the queue was last swapped out ---------------------------

  /** A greeting that was queued since the swap belongs to a newcomer: it is not among those being
      run, and its proxy has been told nothing yet, although the registry holds its service. */
  ghost predicate Waiting(s: State, due: seq<Task>) {
    forall id :: Queued(s.posted, id) ==>
      && !Queued(due, id) && id !in s.stale
      && (id in s.views ==> !s.views[id].up && s.views[id].key in s.records)
  }

  lemma GreetedAreKnown(s: State, due: seq<Task>)
    requires Settled(s, due, {})
    ensures forall id: nat :: Queued(due, id) || Queued(s.posted, id) || id in s.stale ==> id < s.nextId
  {
    forall id: nat | Queued(due, id) || Queued(s.posted, id) ensures id < s.nextId {
      assert Queued(due + s.posted, id);
    }
  }

  lemma DoKeepsWaiting(s: State, a: Action, due: seq<Task>)
    requires Settled(s, due, {}) && Waiting(s, due)
    ensures Waiting(Do(s, a), due)
  {
    GreetedAreKnown(s, due);
    hide Settled;
    assert forall id: nat :: Queued(Do(s, a).posted, id) ==> Queued(s.posted, id) || id == s.nextId;
  }

  lemma {:induction false} PerformKeepsWaiting(s: State, actions: seq<Action>, due: seq<Task>)
    requires Settled(s, due, {}) && Waiting(s, due)
    ensures Waiting(Perform(s, actions), due)
    decreases |actions|
  {
    hide Settled, Waiting, Do, Same;
    if actions == [] {
    } else {
      DoKeepsWaiting(s, actions[0], due);
      DoStaysSettled(s, actions[0], due, {});
      PerformKeepsWaiting(Do(s, actions[0]), actions[1..], due);
    }
  }

  lemma RunsKeepWaiting(s: State, piece: Piece, script: Script, due: seq<Task>)
    requires Settled(s, due, {}) && Waiting(s, due)
    ensures Waiting(RunApplication(s, piece, script), due)
  {
    StartingStaysSettled(s, piece, due);
    assert Waiting(Starting(s, piece), due);
    hide Settled, Waiting, Perform;
    PerformKeepsWaiting(Starting(s, piece), script(s.runs), due);
  }

  lemma LessDueKeepsWaiting(s: State, due: seq<Task>)
    requires due != [] && Waiting(s, due)
    ensures Waiting(s, due[1..])
  {
  }

  lemma ToldKeepsWaiting(s: State, id: nat, rest: seq<Task>)
    requires id in s.views && Waiting(s, [Greet(id)] + rest)
    ensures Waiting(Told(s, id), rest)
  {
    forall other ensures Queued([Greet(id)] + rest, other) <==> other == id || Queued(rest, other) {
      QueuedFirst(Greet(id), rest, [], other);
    }
    hide Queued;
  }

  lemma RunTaskKeepsWaiting(s: State, due: seq<Task>, script: Script)
    requires due != [] && Settled(s, due, {}) && Waiting(s, due)
    ensures Waiting(RunTask(s, due[0], script), due[1..])
  {
    assert due == [due[0]] + due[1..];
    LessDueKeepsWaiting(s, due);
    hide Settled, Waiting, RunApplication, Hear, Told;
    match due[0]
    case Work(job) =>
      WorkIsNoGreeting(s, job, due[1..]);
      RunsKeepWaiting(s, Job(job), script, due[1..]);
    case Greet(id) =>
      if id in s.views {
        GreetingTells(s, id, script);
        ToldSettles(s, id, due[1..]);
        ToldKeepsWaiting(s, id, due[1..]);
        RunsKeepWaiting(Told(s, id), News(id, true), script, due[1..]);
      }
  }

  lemma {:induction false} RunTasksKeepWaiting(s: State, due: seq<Task>, script: Script)
    requires Settled(s, due, {}) && Waiting(s, due)
    ensures Waiting(RunTasks(s, due, script), [])
    decreases |due|
  {
    hide Settled, Waiting, RunTask;
    if due == [] {
    } else {
      RunTaskKeepsWaiting(s, due, script);
      RunTaskSettles(s, due, script);
      RunTasksKeepWaiting(RunTask(s, due[0], script), due[1..], script);
    }
  }

  // ---- whole runs --------------------------------------------------------------------------

  ghost predicate AtRest(s: State) { Settled(s, [], {}) && Waiting(s, []) }

  lemma StepSettles(s: State, e: Event, script: Script)
    requires AtRest(s)
    ensures AtRest(Step(s, e, script))
  {
    hide Settled, Waiting, Dispatch, ExpireLeases, RunTicks, RunPosted, RunApplication;
    match e
    case Polls(ready, now, ticks) =>
      DispatchSettles(s, ready, script);
      var a := Dispatch(s, ready, script);
      ExpireSettles(a, now, script);
      TicksSettle(ExpireLeases(a, now, script), ticks, script);
      RunPostedSettles(RunTicks(ExpireLeases(a, now, script), ticks, script), script);
    case Application =>
      RunsStaySettled(s, Own, script, []);
      RunsKeepWaiting(s, Own, script, []);
  }

  lemma {:induction false} RunSettles(s: State, events: seq<Event>, script: Script)
    requires AtRest(s)
    ensures AtRest(Run(s, events, script))
    decreases |events|
  {
    hide AtRest, Step;
    if events == [] {
    } else {
      StepSettles(s, events[0], script);
      RunSettles(Step(s, events[0], script), events[1..], script);
    }
  }

  /** Whatever the application did, whenever the runtime is at rest: a proxy that registered while its
      service was absent believes exactly what the registry holds; and a proxy disagrees with the
      registry if and only if its greeting is still queued, or came when the service had already
      gone. */
  lemma ProxiesAgree(events: seq<Event>, script: Script, id: nat)
    ensures var s := Run(Started(), events, script);
            id in s.views ==>
              var agrees := s.views[id].up == (s.views[id].key in s.records);
              && (id !in s.greeted ==> agrees)
              && (!agrees <==> id in s.stale || Queued(s.posted, id))
  {
    assert AtRest(Started());
    RunSettles(Started(), events, script);
    var s := Run(Started(), events, script);
    hide Run;
    assert [] + s.posted == s.posted;
    if id in s.views {
      assert Good(s, [], id);
    }
  }

  /** The disagreement does happen: a proxy is opened while the service is offered, and the lease ends
      before the next poll greets it. It stays available while the registry holds nothing. */
  lemma AStaleGreeting(offer: Sd.Entry, start: int, later: int, script: Script)
    requires offer.kind == Sd.OfferService && 0 < offer.ttl < TTL_FOREVER && later >= start + offer.ttl
    requires script(0) == [Open(KeyOf(offer.serviceId, offer.instanceId))] && script(1) == []
    ensures var s := Run(Started(), [Polls([Arrived(offer, start)], start, 0), Application, Polls([], later, 0)], script);
            s.views == map[1 := View(KeyOf(offer.serviceId, offer.instanceId), true)] && s.records == map[]
  {
    var key := KeyOf(offer.serviceId, offer.instanceId);
    var rec := RecordOf(offer, start);
    var s1 := Poll(Started(), [Arrived(offer, start)], start, 0, script);
    FirstPoll(offer, start, script);
    var s2 := RunApplication(s1, Own, script);
    assert script(0)[1..] == [];
    var withProxy := Do(Starting(s1, Own), Open(key));
    assert s2 == Perform(withProxy, []) && [] + [Greet(1)] == [Greet(1)];
    assert s2 == s1.(runs := 1, ran := s2.ran, views := map[1 := View(key, false)], nextId := 2, posted := [Greet(1)], greeted := {1});
    LastPoll(s2, key, rec, later, script);
    var events := [Polls([Arrived(offer, start)], start, 0), Application, Polls([], later, 0)];
    var tail, last := [Application, Polls([], later, 0)], [Polls([], later, 0)];
    assert events[1..] == tail && tail[1..] == last && last[1..] == [];
    hide Step;
    assert Run(Started(), events, script) == Run(s1, tail, script) == Run(s2, last, script)
        == Run(Poll(s2, [], later, 0, script), [], script);
  }

  lemma FirstPoll(offer: Sd.Entry, start: int, script: Script)
    requires offer.kind == Sd.OfferService && 0 < offer.ttl < TTL_FOREVER
    ensures Poll(Started(), [Arrived(offer, start)], start, 0, script)
         == Started().(records := map[KeyOf(offer.serviceId, offer.instanceId) := RecordOf(offer, start)])
  {
    var key := KeyOf(offer.serviceId, offer.instanceId);
    var s := Started().(records := map[key := RecordOf(offer, start)]);
    assert Observed(map[], offer, start) == s.records;
    assert Started().stale - Ids(Started().views, {key}) == {};
    assert [Arrived(offer, start)][1..] == [];
    assert IdsBelow(s.views, key, 1) == [];
    assert Observe(Started(), offer, start, script) == s;
    assert Dispatch(Started(), [Arrived(offer, start)], script) == Dispatch(s, [], script);
    LapsedBelowAre(s.records, start, 0x1_0000_0000);
    assert LapsedKeys(s.records, start) == [];
    assert RunPosted(s, script) == RunTasks(s, [], script) == s;
    assert StillHeld(s.records, start) == s.records;
    assert {} - Ids(s.views, KeySet([])) == {};
  }

  lemma LastPoll(s: State, key: Key, rec: Record, now: int, script: Script)
    requires Lapsed(rec, now) && s.records == map[key := rec] && s.views == map[1 := View(key, false)]
    requires s.posted == [Greet(1)] && s.runs == 1 && script(1) == []
    ensures var t := Poll(s, [], now, 0, script);
            t.views == map[1 := View(key, true)] && t.records == map[]
  {
    var keys := LapsedKeys(s.records, now);
    var dropped := s.(records := StillHeld(s.records, now), stale := s.stale - Ids(s.views, KeySet(keys)));
    assert dropped.records == map[];
    QuietNotify(dropped, keys, script);
    assert s.posted[1..] == [];
    var greeted := RunTask(dropped.(posted := []), Greet(1), script);
    assert RunPosted(dropped, script) == RunTasks(greeted, [], script) == greeted;
  }

  /** Nobody believes in anything, so losing services is no news to anybody. */
  lemma {:induction false} QuietNotify(s: State, keys: seq<Key>, script: Script)
    requires forall id :: id in s.views ==> !s.views[id].up
    ensures NotifyEach(s, keys, script) == s
    decreases |keys|
  {
    if keys == [] {
    } else {
      QuietHear(s, IdsBelow(s.views, keys[0], s.nextId), script);
      QuietNotify(s, keys[1..], script);
    }
  }

  lemma {:induction false} QuietHear(s: State, ids: seq<nat>, script: Script)
    requires forall id :: id in s.views ==> !s.views[id].up
    ensures HearEach(s, ids, false, script) == s
    decreases |ids|
  {
    if ids == [] {
    } else {
      QuietHear(s, ids[1..], script);
    }
  }
}

/** The runtime as the source writes it, each loop proved to do what `RuntimeSpec` says. */
module RuntimeObject {
  import Registry
  import Runs = RuntimeRuns
  import S = RuntimeSpec
  import Sd

  class Runtime {
    const registry: Registry.ServiceRegistry
    var views: map<nat, S.View>
    var posted: seq<S.Task>
    var nextId: nat
    var jobs: nat
    var runs: nat
    ghost var ran: seq<S.Ran>
    ghost var greeted: set<nat>
    ghost var stale: set<nat>

    ghost function Now(): S.State
      reads this, registry
    {
      S.State(registry.records, views, posted, nextId, jobs, runs, ran, greeted, stale)
    }

    constructor ()
      ensures fresh(registry) && Now() == S.Started()
    {
      registry := new Registry.ServiceRegistry();
      views, posted, nextId, jobs, runs := map[], [], 1, 0, 0;
      ran, greeted, stale := [], {}, {};
    }

    method Find(key: Registry.Key)
      modifies this
      ensures Now() == S.Find(old(Now()), key)
    {
      var id := nextId;
      nextId := nextId + 1;
      views := views[id := S.View(key, false)];
      if key in registry.records {
        posted := posted + [S.Greet(id)];
        greeted := greeted + {id};
      }
    }

    method CancelFind(id: nat)
      modifies this
      ensures Now() == S.Do(old(Now()), S.Shut(id))
    {
      views := views - {id};
    }

    /** The application's next piece of code. */
    method RunApplication(piece: S.Piece, script: S.Script)
      modifies this
      ensures Now() == S.RunApplication(old(Now()), piece, script)
    {
      var actions := script(runs);
      runs := runs + 1;
      ran := ran + [S.Ran(piece, registry.records)];
      assert actions[0..] == actions;
      for i := 0 to |actions|
        invariant S.Perform(Now(), actions[i..]) == S.RunApplication(old(Now()), piece, script)
        invariant registry.records == old(registry.records)
      {
        assert actions[i..][1..] == actions[i + 1..];
        match actions[i] {
          case Open(key) => Find(key);
          case Shut(id) => CancelFind(id);
          case Queue =>
            posted := posted + [S.Work(jobs)];
            jobs := jobs + 1;
        }
      }
    }

    method Hear(id: nat, up: bool, script: S.Script)
      modifies this
      ensures Now() == S.Hear(old(Now()), id, up, script)
    {
      if id !in views || views[id].up == up {
        return;
      }
      views := views[id := views[id].(up := up)];
      RunApplication(S.News(id, up), script);
    }

    method Notify(key: Registry.Key, up: bool, script: S.Script)
      modifies this
      ensures Now() == S.Notify(old(Now()), key, up, script)
    {
      var ids: seq<nat> := [];
      for id := 0 to nextId
        invariant ids == S.IdsBelow(views, key, id)
      {
        if id in views && views[id].key == key {
          ids := ids + [id];
        }
      }
      assert ids[0..] == ids;
      for i := 0 to |ids|
        invariant S.HearEach(Now(), ids[i..], up, script) == S.Notify(old(Now()), key, up, script)
        invariant registry.records == old(registry.records)
      {
        assert ids[i..][1..] == ids[i + 1..];
        Hear(ids[i], up, script);
      }
    }

    method Observe(e: Sd.Entry, now: int, script: S.Script)
      modifies this, registry
      ensures Now() == S.Observe(old(Now()), e, now, script)
    {
      var key := Registry.KeyOf(e.serviceId, e.instanceId);
      var change := registry.Observe(e, now);
      if change == Registry.Available {
        stale := stale - S.Ids(views, {key});
        Notify(key, true, script);
      } else if change == Registry.Unavailable {
        stale := stale - S.Ids(views, {key});
        Notify(key, false, script);
      }
    }

    method ExpireLeases(now: int, script: S.Script)
      modifies this, registry
      ensures Now() == S.ExpireLeases(old(Now()), now, script)
    {
      var changes := registry.Expire(now);
      stale := stale - S.Ids(views, S.KeySet(changes));
      assert changes[0..] == changes;
      for i := 0 to |changes|
        invariant S.NotifyEach(Now(), changes[i..], script) == S.ExpireLeases(old(Now()), now, script)
      {
        assert changes[i..][1..] == changes[i + 1..];
        Notify(changes[i], false, script);
      }
    }

    method RunPosted(script: S.Script)
      modifies this
      ensures Now() == S.RunPosted(old(Now()), script)
      ensures Runs.Plain(ran) == Runs.Plain(old(ran)) + Runs.Works(old(posted))
      ensures old(jobs) <= jobs && Runs.JobsQueued(posted) == Runs.Between(old(jobs), jobs)
    {
      Runs.QueueIsRun(Now(), script);
      var due := posted;
      posted := [];
      assert due[0..] == due;
      for i := 0 to |due|
        invariant S.RunTasks(Now(), due[i..], script) == S.RunPosted(old(Now()), script)
        invariant registry.records == old(registry.records)
      {
        assert due[i..][1..] == due[i + 1..];
        match due[i] {
          case Work(job) => RunApplication(S.Job(job), script);
          case Greet(id) =>
            if id in views {
              if views[id].key !in registry.records {
                stale := stale + {id};
              }
              Hear(id, true, script);
            }
        }
      }
    }

    method Dispatch(ready: seq<S.Ready>, script: S.Script)
      modifies this, registry
      ensures Now() == S.Dispatch(old(Now()), ready, script)
    {
      assert ready[0..] == ready;
      for i := 0 to |ready|
        invariant S.Dispatch(Now(), ready[i..], script) == S.Dispatch(old(Now()), ready, script)
      {
        assert ready[i..][1..] == ready[i + 1..];
        match ready[i] {
          case Arrived(entry, at) =>
            if entry.kind != Sd.FindService {
              Observe(entry, at, script);
            }
          case Other(fd) => RunApplication(S.Handler(fd), script);
        }
      }
    }

    method Poll(ready: seq<S.Ready>, now: int, ticks: nat, script: S.Script)
      modifies this, registry
      ensures Now() == S.Poll(old(Now()), ready, now, ticks, script)
    {
      Dispatch(ready, script);
      ExpireLeases(now, script);
      ghost var expired := Now();
      for i := 0 to ticks
        invariant S.RunTicks(Now(), ticks - i, script) == S.RunTicks(expired, ticks, script)
        invariant registry.records == expired.records
      {
        RunApplication(S.Tick, script);
      }
      RunPosted(script);
    }
  }
}

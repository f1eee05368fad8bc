/** What the runtime's registry holds after any run, by what arrived and when the leases were swept. */
module RuntimeLeases {
  import opened Registry
  import opened RuntimeSpec
  import opened RuntimeRuns
  import Sd

  /** The entries that arrived. */
  function Heards(ready: seq<Ready>): seq<Happening> {
    if ready == [] then []
    else (if ready[0].Arrived? then [Heard(ready[0].entry, ready[0].at)] else []) + Heards(ready[1..])
  }

  /** What the registry is told in one event: in a poll every entry that arrived, then the sweep. */
  function InEvent(e: Event): seq<Happening> {
    match e case Polls(ready, now, _) => Heards(ready) + [Swept(now)] case Application => []
  }

  function Happenings(events: seq<Event>): seq<Happening>
    decreases |events|
  {
    if events == [] then [] else InEvent(events[0]) + Happenings(events[1..])
  }

  lemma OneMoreHappening(history: seq<Happening>, h: Happening)
    ensures h.Heard? ==> After(history + [h]) == Observed(After(history), h.entry, h.now)
    ensures h.Swept? ==> After(history + [h]) == StillHeld(After(history), h.now)
  {
    assert (history + [h])[..|history|] == history;
  }

  lemma ObserveUpdates(s: State, e: Sd.Entry, at: int, script: Script)
    ensures Observe(s, e, at, script).records == Observed(s.records, e, at)
  {
    var key := KeyOf(e.serviceId, e.instanceId);
    var told := s.(records := Observed(s.records, e, at), stale := s.stale - Ids(s.views, {key}));
    hide Observed, Ids, HearEach, IdsBelow, Runs;
    match Report(s.records, e)
    case Unchanged =>
    case Available => HearEachRuns(told, IdsBelow(told.views, key, told.nextId), true, script);
    case Unavailable => HearEachRuns(told, IdsBelow(told.views, key, told.nextId), false, script);
  }

  lemma DispatchOneFollows(s: State, r: Ready, script: Script, history: seq<Happening>)
    requires s.records == After(history)
    ensures DispatchOne(s, r, script).records == After(history + Heards([r]))
  {
    hide After, RunApplication, Observe, Runs;
    assert [r][1..] == [];
    match r
    case Arrived(entry, at) =>
      OneMoreHappening(history, Heard(entry, at));
      ObserveUpdates(s, entry, at, script);
      assert Heards([r]) == [Heard(entry, at)] + Heards([]) == [Heard(entry, at)];
    case Other(fd) =>
      PieceRuns(s, Handler(fd), script);
      assert Heards([r]) == [] + Heards([]) == [];
      assert history + [] == history;
  }

  lemma {:induction false} DispatchFollows(s: State, ready: seq<Ready>, script: Script, history: seq<Happening>)
    requires s.records == After(history)
    ensures Dispatch(s, ready, script).records == After(history + Heards(ready))
    decreases |ready|
  {
    hide After, DispatchOne, Heards;
    if ready == [] {
      NothingHeard(history);
    } else {
      DispatchOneFollows(s, ready[0], script, history);
      DispatchFollows(DispatchOne(s, ready[0], script), ready[1..], script, history + Heards([ready[0]]));
      HeardInTurn(history, ready);
    }
  }

  lemma NothingHeard(history: seq<Happening>)
    ensures history + Heards([]) == history
  {
  }

  lemma HeardInTurn(history: seq<Happening>, ready: seq<Ready>)
    requires ready != []
    ensures history + Heards([ready[0]]) + Heards(ready[1..]) == history + Heards(ready)
  {
    FirstHeard(ready);
    hide Heards;
    Joined(history, Heards([ready[0]]), Heards(ready[1..]));
  }

  lemma FirstHeard(ready: seq<Ready>)
    requires ready != []
    ensures Heards(ready) == Heards([ready[0]]) + Heards(ready[1..])
  {
    var one := [ready[0]];
    assert one[1..] == [];
    var first := if ready[0].Arrived? then [Heard(ready[0].entry, ready[0].at)] else [];
    assert Heards(one) == first + Heards(one[1..]);
    assert first + [] == first;
    assert Heards(ready) == first + Heards(ready[1..]);
  }

  lemma Joined(a: seq<Happening>, b: seq<Happening>, c: seq<Happening>)
    ensures a + b + c == a + (b + c)
  {
  }

  lemma PollFollows(s: State, ready: seq<Ready>, now: int, ticks: nat, script: Script, history: seq<Happening>)
    requires s.records == After(history)
    ensures Poll(s, ready, now, ticks, script).records == After(history + Heards(ready) + [Swept(now)])
  {
    var a := Dispatch(s, ready, script);
    var b := ExpireLeases(a, now, script);
    var c := RunTicks(b, ticks, script);
    hide After, Dispatch, ExpireLeases, RunTicks, RunTasks, StillHeld, Runs, Heards;
    DispatchFollows(s, ready, script, history);
    ExpireRuns(a, now, script);
    TicksRun(b, ticks, script);
    TasksRun(c.(posted := []), c.posted, script);
    OneMoreHappening(history + Heards(ready), Swept(now));
  }

  lemma StepFollows(s: State, e: Event, script: Script, history: seq<Happening>)
    requires s.records == After(history)
    ensures Step(s, e, script).records == After(history + InEvent(e))
  {
    hide After, Poll, RunApplication, Heards, Runs;
    match e
    case Polls(ready, now, ticks) =>
      PollFollows(s, ready, now, ticks, script, history);
      assert history + Heards(ready) + [Swept(now)] == history + InEvent(e);
    case Application =>
      PieceRuns(s, Own, script);
      assert history + [] == history;
  }

  lemma {:induction false} RunFollows(s: State, events: seq<Event>, script: Script, history: seq<Happening>)
    requires s.records == After(history)
    ensures Run(s, events, script).records == After(history + Happenings(events))
    decreases |events|
  {
    hide After, Step, InEvent;
    if events == [] {
      assert history + [] == history;
    } else {
      StepFollows(s, events[0], script, history);
      RunFollows(Step(s, events[0], script), events[1..], script, history + InEvent(events[0]));
      Joined(history, InEvent(events[0]), Happenings(events[1..]));
    }
  }

  /** After any run the registry holds a service if and only if the latest offer for it that arrived was no
      StopOffer and no sweep of a poll since has found its lease over -- whatever the application did. */
  lemma RegistryFollowsTheNetwork(events: seq<Event>, script: Script, k: Key) returns (i: int)
    ensures var s, history := Run(Started(), events, script), Happenings(events);
            && (k in s.records ==> LeaseHolds(history, k, i) && s.records[k].expiresAt == history[i].now + history[i].entry.ttl)
            && (k !in s.records ==> forall j :: !LeaseHolds(history, k, j))
  {
    RunFollows(Started(), events, script, []);
    assert [] + Happenings(events) == Happenings(events);
    hide Run, After, Happenings, LeaseHolds;
    i := HeldExactlyWhileLeased(Happenings(events), k);
  }
}

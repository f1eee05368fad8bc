/** The numbered promises at the top of the proxy's header, proved for every run and every handler. */
module ProxyContract {
  import opened Bytes
  import opened ProxySpec
  import opened ProxyLedger
  import SomeIp

  // ---- the walks over the table ------------------------------------------------------------

  predicate Ascending(sessions: seq<u16>) {
    forall i, j :: 0 <= i < j < |sessions| ==> sessions[i] < sessions[j]
  }

  lemma AscendingGoesOn(sessions: seq<u16>, next: u16)
    requires Ascending(sessions) && forall x :: x in sessions ==> x < next
    ensures Ascending(sessions + [next])
  {
    assert forall i :: 0 <= i < |sessions| ==> sessions[i] in sessions;
  }

  lemma {:induction false} SessionsBelowAre(p: map<u16, Pending>, k: nat)
    requires k <= 0x1_0000
    ensures forall x :: x in SessionsBelow(p, k) <==> x in p && x < k
    ensures Ascending(SessionsBelow(p, k)) && Distinct(SessionsBelow(p, k))
  {
    if k == 0 {
    } else {
      SessionsBelowAre(p, k - 1);
      AscendingGoesOn(SessionsBelow(p, k - 1), k - 1);
    }
  }

  lemma {:induction false} ExpiredBelowAre(p: map<u16, Pending>, now: int, timeout: int, k: nat)
    requires k <= 0x1_0000
    ensures forall x :: x in ExpiredBelow(p, now, timeout, k) <==> x in p && x < k && Expired(p[x], now, timeout)
    ensures Ascending(ExpiredBelow(p, now, timeout, k)) && Distinct(ExpiredBelow(p, now, timeout, k))
  {
    if k == 0 {
    } else {
      ExpiredBelowAre(p, now, timeout, k - 1);
      AscendingGoesOn(ExpiredBelow(p, now, timeout, k - 1), k - 1);
    }
  }

  // ---- every event keeps the books ---------------------------------------------------------

  /** From `s` to `t` nothing is forgotten: what completed stays so, what was cancelled stays so, and
      after destruction nothing completes. */
  predicate Later(s: State, t: State) {
    && s.completed <= t.completed && s.cancelled <= t.cancelled && s.silenced <= t.silenced
    && t.stats.calls >= s.stats.calls && t.config == s.config
    && (s.closed ==> t.closed && t.completed == s.completed)
  }

  lemma LaterStill(s: State, mid: State, t: State)
    requires Later(s, mid) && Later(mid, t)
    ensures Later(s, t)
  {
  }

  lemma LaterItself(s: State)
    ensures Later(s, s)
  {
  }

  lemma BegunThenActed(s: State, started: State, t: State)
    requires !s.closed && Acted(started, t) && s.completed <= started.completed
    requires started.cancelled == s.cancelled && started.silenced == s.silenced
    requires started.stats.calls == s.stats.calls && started.config == s.config
    ensures Later(s, t)
  {
  }

  lemma OnReplyKeepsLedger(s: State, m: SomeIp.Message, b: Behaviour, due: seq<Task>)
    requires Ledger(s, due) && !s.closed
    ensures Ledger(OnReply(s, m, b), due) && Later(s, OnReply(s, m, b))
  {
    hide Ledger, Act, Acted;
    if IsReply(m) {
      hide IsReply;
      if m.header.sessionId in s.pending {
        DeliveredKeepsLedger(s, m, due);
        ActKeepsLedger(Delivered(s, m), b(s.pending[m.header.sessionId].id), due);
        BegunThenActed(s, Delivered(s, m), OnReply(s, m, b));
      } else {
        LateKeepsLedger(s, due);
      }
    }
  }

  lemma LateKeepsLedger(s: State, due: seq<Task>)
    requires Ledger(s, due)
    ensures Ledger(s.(stats := s.stats.(lateReplies := s.stats.lateReplies + 1)), due)
  {
    hide OnePlaceEach, NoTaskTwice, NoCallTwice, OneSessionEach;
  }

  lemma {:induction false} ReadRepliesKeepsLedger(s: State, datagrams: seq<seq<u8>>, b: Behaviour)
    requires Ledger(s, [])
    ensures Ledger(ReadReplies(s, datagrams, b), []) && Later(s, ReadReplies(s, datagrams, b))
    decreases |datagrams|
  {
    hide Ledger, OnReply, Later, SomeIp.Deserialize;
    if datagrams == [] || s.closed {
      LaterItself(s);
    } else {
      match SomeIp.Deserialize(datagrams[0])
      case None => ReadRepliesKeepsLedger(s, datagrams[1..], b);
      case Some(m) =>
        OnReplyKeepsLedger(s, m, b, []);
        ReadRepliesKeepsLedger(OnReply(s, m, b), datagrams[1..], b);
        LaterStill(s, OnReply(s, m, b), ReadReplies(s, datagrams, b));
    }
  }

  /** Rule 1, the safe half, for one event: the books stay balanced and what completed stays so. */
  lemma StepKeepsLedger(s: State, e: Event, b: Behaviour)
    requires Ledger(s, [])
    ensures Ledger(Step(s, e, b), []) && Later(s, Step(s, e, b))
  {
    hide Ledger, Call, ReadReplies, CheckTimeouts, OnAvailabilityChanged, RunPosted, Close, FailedListed, TasksRan, Called, Later;
    match e
    case Calls(r) =>
      if s.closed {
        LaterItself(s);
      } else {
        CallKeepsLedger(s, r, []);
        CalledIsLater(s, Call(s, r));
      }
    case Replies(ds) => ReadRepliesKeepsLedger(s, ds, b);
    case Tick(now) => TickKeepsLedger(s, now, b);
    case Availability(up, listener) => ChangeKeepsLedger(s, up, b, listener);
    case Posted => var n := PostedRunInOrder(s, b);
    case Destroyed =>
      CloseKeepsLedger(s, []);
      CloseIsLater(s);
  }

  lemma CalledIsLater(s: State, t: State)
    requires !s.closed && Called(s, t)
    ensures Later(s, t)
  {
  }

  lemma CloseIsLater(s: State)
    ensures Later(s, Close(s))
  {
    hide PendingIds;
  }

  lemma TickKeepsLedger(s: State, now: int, b: Behaviour)
    requires Ledger(s, [])
    ensures Ledger(CheckTimeouts(s, now, b), []) && Later(s, CheckTimeouts(s, now, b))
  {
    var n := TimeoutsFailExactlyTheExpired(s, now, b);
    hide Ledger, CheckTimeouts, Failures, ExpiredSessions, OthersStay;
  }

  lemma ChangeKeepsLedger(s: State, up: bool, b: Behaviour, listener: seq<Action>)
    requires Ledger(s, [])
    ensures var t := OnAvailabilityChanged(s, up, b, listener);
            Ledger(t, []) && Later(s, t)
  {
    hide Ledger, Listen, Acted, FailAll, Later;
    if s.closed || up == s.available {
      LaterItself(s);
    } else if up {
      MarkedKeepsLedger(s, up, []);
      ListenKeepsLedger(Marked(s, up), up, listener, []);
      BegunThenActed(s, Marked(s, up), Listen(Marked(s, up), up, listener));
    } else {
      var n := LosingTheServiceFailsAll(s, b, listener);
    }
  }

  /** Rule 1, the safe half: over any run no call completes twice, and every call issued is in
      exactly one place. */
  lemma {:induction false} RunKeepsLedger(s: State, events: seq<Event>, b: Behaviour)
    requires Ledger(s, [])
    ensures Ledger(Run(s, events, b), []) && Later(s, Run(s, events, b))
    decreases |events|
  {
    hide Ledger, Step, Later;
    if events == [] {
      LaterItself(s);
    } else {
      StepKeepsLedger(s, events[0], b);
      RunKeepsLedger(Step(s, events[0], b), events[1..], b);
      LaterStill(s, Step(s, events[0], b), Run(s, events, b));
    }
  }

  lemma StartedIsBalanced(config: Config)
    ensures Ledger(Started(config), [])
  {
    var s := Started(config);
    assert PendingIds(s.pending) == {} && TaskIds([] + s.posted) == {} && DoneIds(s.completed) == {};
    hide PendingIds, TaskIds, DoneIds;
    forall id: CallId ensures Count(PlacesOf(s, []), id) == One(id < 0) {}
  }

  /** At rest: each call issued is in exactly one place -- also after destruction -- none completes
      twice, the counters add up, and the table is within its bound. */
  lemma ExactlyOnce(config: Config, events: seq<Event>, b: Behaviour, id: CallId)
    ensures var s := Run(Started(config), events, b);
            && Count(PlacesOf(s, []), id) == One(id < s.stats.calls)
            && NoCallTwice(s.completed) && Balanced(s) && |s.pending| <= config.maxPending
            && (s.closed ==> s.pending == map[])
  {
    StartedIsBalanced(config);
    RunKeepsLedger(Started(config), events, b);
  }

  /** What was cancelled never completes, whatever happens later. */
  lemma CancelledForGood(s: State, events: seq<Event>, b: Behaviour, id: CallId)
    requires Ledger(s, []) && (id in s.cancelled || id in TaskIds(s.silenced))
    ensures id !in DoneIds(Run(s, events, b).completed)
  {
    RunKeepsLedger(s, events, b);
    var t := Run(s, events, b);
    hide Run, TaskIds, DoneIds, PendingIds, OnePlaceEach;
    assert Count(PlacesOf(t, []), id) <= 1;
  }

  // ---- rules 1 (the live half), 2 and 5 ----------------------------------------------------

  /** What a walk completes, it completes with one and the same failure. */
  predicate AllFailWith(s: State, t: State, failure: Failure) {
    forall i :: |s.completed| <= i < |t.completed| ==> t.completed[i].outcome == Failed(failure, 0x00)
  }

  lemma ListedFailWith(s: State, t: State, sessions: seq<u16>, n: nat, why: Reason)
    requires AllWait(s.pending, sessions) && FailedListed(s, t, sessions, n, why)
    ensures AllFailWith(s, t, if why == TimedOut then Timeout else NotAvailable)
  {
  }

  /** A tick fails exactly the calls that have waited longer than the timeout, in session order, as
      timeouts. */
  lemma TimeoutsFailExactlyTheExpired(s: State, now: int, b: Behaviour) returns (n: nat)
    requires Ledger(s, [])
    ensures var expired := ExpiredSessions(s.pending, now, s.config.timeout);
            && Ascending(expired)
            && forall k :: k in expired <==> k in s.pending && now - s.pending[k].sentAt > s.config.timeout
    ensures Ledger(CheckTimeouts(s, now, b), [])
    ensures FailedListed(s, CheckTimeouts(s, now, b), ExpiredSessions(s.pending, now, s.config.timeout), n, TimedOut)
    ensures AllFailWith(s, CheckTimeouts(s, now, b), Timeout)
  {
    ExpiredBelowAre(s.pending, now, s.config.timeout, 0x1_0000);
    var expired := ExpiredSessions(s.pending, now, s.config.timeout);
    n := FailEachFailsTheListed(s, expired, TimedOut, b, []);
    hide Ledger, FailedListed, ExpiredSessions, AllFailWith, Distinct, Ascending;
    ListedFailWith(s, CheckTimeouts(s, now, b), expired, n, TimedOut);
  }

  lemma FailAllEmptiesTheTable(s: State, b: Behaviour) returns (n: nat)
    requires Ledger(s, []) && !s.available
    ensures Ascending(AllSessions(s.pending)) && forall k :: k in AllSessions(s.pending) <==> k in s.pending
    ensures Ledger(FailAll(s, b), []) && (!FailAll(s, b).closed ==> FailAll(s, b).pending == map[])
    ensures FailedListed(s, FailAll(s, b), AllSessions(s.pending), n, Gone)
  {
    SessionsBelowAre(s.pending, 0x1_0000);
    n := FailEachFailsTheListed(s, AllSessions(s.pending), Gone, b, []);
    hide Ledger, AllSessions, FailEach, Failures;
    var t := FailAll(s, b);
    assert !t.closed ==> forall k :: k !in t.pending;
  }

  /** Nothing in the books depends on availability or its counters. */
  lemma MarkedKeepsLedger(s: State, up: bool, due: seq<Task>)
    requires Ledger(s, due)
    ensures Ledger(Marked(s, up), due)
  {
    hide OnePlaceEach, NoTaskTwice, NoCallTwice, OneSessionEach;
  }

  /** The whole walk failed, then the listener acted. */
  predicate AllFailed(s: State, t: State, n: nat)
    requires AllWait(s.pending, AllSessions(s.pending))
  {
    && n <= |AllSessions(s.pending)| && (!t.closed ==> n == |AllSessions(s.pending)| && t.pending == map[])
    && t.completed == s.completed + Failures(s.pending, AllSessions(s.pending)[..n], Gone)
    && AllFailWith(s, t, NotAvailable)
  }

  /** Rule 5: when the service goes away every waiting call fails at once with NotAvailable, and no
      call -- not even one made by those handlers -- is left waiting. */
  lemma LosingTheServiceFailsAll(s: State, b: Behaviour, listener: seq<Action>) returns (n: nat)
    requires Ledger(s, []) && !s.closed && s.available
    ensures Ascending(AllSessions(s.pending)) && forall k :: k in AllSessions(s.pending) <==> k in s.pending
    ensures var t := OnAvailabilityChanged(s, false, b, listener);
            Ledger(t, []) && Later(s, t) && AllFailed(s, t, n)
  {
    var down := Marked(s, false);
    MarkedKeepsLedger(s, false, []);
    n := FailAllEmptiesTheTable(down, b);
    hide Ledger, FailAll, Listen, Acted, AllFailed, FailedListed, Later;
    var mid := FailAll(down, b);
    ListenKeepsLedger(mid, false, listener, []);
    FailedThenListened(s, mid, OnAvailabilityChanged(s, false, b, listener), n);
  }

  lemma FailedThenListened(s: State, mid: State, t: State, n: nat)
    requires !s.closed && AllWait(s.pending, AllSessions(s.pending))
    requires FailedListed(Marked(s, false), mid, AllSessions(s.pending), n, Gone) && (!mid.closed ==> mid.pending == map[])
    requires Acted(mid, t)
    ensures AllFailed(s, t, n) && Later(s, t)
  {
    ListedFailWith(Marked(s, false), mid, AllSessions(s.pending), n, Gone);
    hide Failures, AllSessions, OthersStay, OnlyNew;
    assert !t.closed ==> !mid.closed;
  }

  /** Rule 2, the delivery: the next poll completes what was queued before it, in order, and leaves
      what those handlers queue for the poll after. */
  lemma PostedRunInOrder(s: State, b: Behaviour) returns (n: nat)
    requires Ledger(s, [])
    ensures Ledger(RunPosted(s, b), []) && Later(s, RunPosted(s, b))
    ensures TasksRan(s.(posted := []), RunPosted(s, b), s.posted, n)
    ensures |RunPosted(s, b).completed| == |s.completed| + n
    ensures forall i :: 0 <= i < n ==>
              RunPosted(s, b).completed[|s.completed| + i] == Completion(s.posted[i].id, Failed(s.posted[i].failure, 0x00))
  {
    SwappedKeepsLedger(s);
    hide Ledger, RunTasks;
    n := RunTasksRunsThemInOrder(s.(posted := []), s.posted, b);
    assert s.closed ==> TaskFailures(s.posted[..n]) == [];
  }

  /** Swapping the queue out moves nothing. */
  lemma SwappedKeepsLedger(s: State)
    requires Ledger(s, [])
    ensures Ledger(s.(posted := []), s.posted)
  {
    assert [] + s.posted == s.posted == s.posted + [];
    hide OnePlaceEach, NoTaskTwice, NoCallTwice, OneSessionEach;
  }

  /** Rule 1, the live half: once the clock has passed every waiting call's timeout, one round of
      timeouts and queued completions settles every call issued before it: it has completed, or the
      application destroyed the proxy and so cancelled it. */
  lemma EveryCallCompletes(s: State, now: int, b: Behaviour, id: CallId)
    requires Ledger(s, []) && id < s.stats.calls
    requires forall k :: k in s.pending ==> now - s.pending[k].sentAt > s.config.timeout
    ensures var t := RunPosted(CheckTimeouts(s, now, b), b);
            && NoCallTwice(t.completed)
            && (!t.closed ==> id in DoneIds(t.completed))
            && (t.closed ==> Count(PlacesOf(t, []), id) == 1 && id !in PendingIds(t.pending) && id !in TaskIds(t.posted))
  {
    var n := TimeoutsFailExactlyTheExpired(s, now, b);
    var mid := CheckTimeouts(s, now, b);
    assert !mid.closed ==> forall k :: k in mid.pending ==> mid.pending[k].id >= s.stats.calls;
    hide CheckTimeouts, Ledger;
    var m := PostedRunInOrder(mid, b);
    OldCallsAreSettled(s.stats.calls, mid, RunPosted(mid, b), m, id);
  }

  lemma OldCallsAreSettled(calls: nat, mid: State, t: State, m: nat, id: CallId)
    requires Ledger(t, []) && Later(mid, t) && TasksRan(mid.(posted := []), t, mid.posted, m)
    requires id < calls <= mid.stats.calls && (!mid.closed ==> forall k :: k in mid.pending ==> mid.pending[k].id >= calls)
    ensures NoCallTwice(t.completed) && Count(PlacesOf(t, []), id) == 1
    ensures id !in PendingIds(t.pending) && id !in TaskIds(t.posted) && (!t.closed ==> id in DoneIds(t.completed))
  {
    assert [] + t.posted == t.posted;
    hide NoTaskTwice, NoCallTwice, OneSessionEach, DoneIds, TaskFailures;
    assert Count(PlacesOf(t, []), id) == One(id < t.stats.calls);
  }
}

/** What each call comes to over a whole run, by what it asked and what it met; what the counters count;
    and that every handler acts at once. */
module ProxyOutcomes {
  import opened Bytes
  import opened ProxySpec
  import opened ProxyDecisions
  import opened ProxyLedger
  import opened ProxyContract
  import SomeIp

  // ---- what a handler can be told ----------------------------------------------------------

  /** A refused call fails with the reason for which it was refused. A call that went out is answered, or
      fails because of the server's error code, its version, the timeout, or the loss of the service. */
  predicate Explains(c: Config, a: Asked, o: Outcome) {
    match o
    case Value(_) => Goes(c, a)
    case Failed(f, code) =>
      || (Refused(c, a, f) && code == 0x00)
      || (Goes(c, a) && (f == Remote || ((f == WrongInterfaceVersion || f == Timeout || f == NotAvailable) && code == 0x00)))
  }

  predicate TasksExplained(c: Config, asked: seq<Asked>, tasks: seq<Task>) {
    forall i :: 0 <= i < |tasks| ==> tasks[i].id < |asked| && Refused(c, asked[tasks[i].id], tasks[i].failure)
  }

  predicate WaitingExplained(c: Config, asked: seq<Asked>, p: map<u16, Pending>) {
    forall k :: k in p ==> p[k].id < |asked| && Goes(c, asked[p[k].id]) && p[k].sentAt == asked[p[k].id].request.now
  }

  predicate DoneExplained(c: Config, asked: seq<Asked>, done: seq<Completion>) {
    forall i :: 0 <= i < |done| ==> done[i].id < |asked| && Explains(c, asked[done[i].id], done[i].outcome)
  }

  /** Every request that left is that of its call, and no call left twice. */
  predicate SentExplained(c: Config, asked: seq<Asked>, sent: seq<Sent>) {
    && (forall i :: 0 <= i < |sent| ==> sent[i].id < |asked| && Goes(c, asked[sent[i].id]) && Carried(c, asked[sent[i].id], sent[i]))
    && (forall i, j :: 0 <= i < j < |sent| ==> sent[i].id < sent[j].id)
  }

  lemma MoreAsked(s: State, a: Asked, tasks: seq<Task>)
    requires TasksExplained(s.config, s.asked, tasks) && WaitingExplained(s.config, s.asked, s.pending)
    requires DoneExplained(s.config, s.asked, s.completed) && SentExplained(s.config, s.asked, s.sent)
    ensures var more := s.asked + [a];
            && TasksExplained(s.config, more, tasks) && WaitingExplained(s.config, more, s.pending)
            && DoneExplained(s.config, more, s.completed) && SentExplained(s.config, more, s.sent)
  {
    hide Explains, Refused, Goes, Carried;
    assert forall i :: 0 <= i < |s.asked| ==> (s.asked + [a])[i] == s.asked[i];
  }

  // ---- what the counters count -------------------------------------------------------------

  function Answers(done: seq<Completion>): nat {
    if done == [] then 0 else Answers(done[..|done| - 1]) + if done[|done| - 1].outcome.Value? then 1 else 0
  }

  function FailedWith(done: seq<Completion>, f: Failure): nat {
    if done == [] then 0
    else
      var last := done[|done| - 1].outcome;
      FailedWith(done[..|done| - 1], f) + if last.Failed? && last.failure == f then 1 else 0
  }

  function QueuedWith(tasks: seq<Task>, f: Failure): nat {
    if tasks == [] then 0
    else QueuedWith(tasks[..|tasks| - 1], f) + if tasks[|tasks| - 1].failure == f then 1 else 0
  }

  /** `tasks` are the failures that were queued and not handed over: still due, or silenced. */
  predicate Counted(s: State, tasks: seq<Task>) {
    && s.stats.answered == Answers(s.completed)
    && s.stats.remoteErrors == FailedWith(s.completed, Remote) + FailedWith(s.completed, WrongInterfaceVersion)
    && s.stats.timeouts == FailedWith(s.completed, Timeout) + QueuedWith(tasks, Timeout)
    && s.stats.notAvailable == FailedWith(s.completed, NotAvailable) + QueuedWith(tasks, NotAvailable)
    && s.stats.busy == FailedWith(s.completed, Busy) + QueuedWith(tasks, Busy)
    && s.unserialisable == FailedWith(s.completed, Malformed) + QueuedWith(tasks, Malformed)
  }

  lemma OneMoreDone(done: seq<Completion>, c: Completion, f: Failure)
    ensures Answers(done + [c]) == Answers(done) + if c.outcome.Value? then 1 else 0
    ensures FailedWith(done + [c], f) == FailedWith(done, f) + if c.outcome.Failed? && c.outcome.failure == f then 1 else 0
  {
    assert (done + [c])[..|done|] == done;
  }

  lemma {:induction false} QueuedInBoth(a: seq<Task>, b: seq<Task>, f: Failure)
    ensures QueuedWith(a + b, f) == QueuedWith(a, f) + QueuedWith(b, f)
    decreases |b|
  {
    if b == [] {
      assert a + b == a;
    } else {
      assert (a + b)[..|a + b| - 1] == a + b[..|b| - 1];
      QueuedInBoth(a, b[..|b| - 1], f);
    }
  }

  lemma QueuedOnce(t: Task, f: Failure)
    ensures QueuedWith([t], f) == if t.failure == f then 1 else 0
  {
    assert [t][..0] == [];
  }

  // ---- the invariant -----------------------------------------------------------------------

  /** Every failure that was queued and not handed over. */
  function Undelivered(s: State, due: seq<Task>): seq<Task> { s.silenced + (due + s.posted) }

  predicate Explained(s: State, due: seq<Task>) {
    && |s.asked| == s.stats.calls
    && TasksExplained(s.config, s.asked, Undelivered(s, due)) && WaitingExplained(s.config, s.asked, s.pending)
    && DoneExplained(s.config, s.asked, s.completed) && SentExplained(s.config, s.asked, s.sent)
    && Counted(s, Undelivered(s, due))
  }

  lemma TaskJoins(c: Config, asked: seq<Asked>, tasks: seq<Task>, t: Task)
    requires TasksExplained(c, asked, tasks) && t.id < |asked| && Refused(c, asked[t.id], t.failure)
    ensures TasksExplained(c, asked, tasks + [t])
  {
    hide Refused;
  }

  lemma RefusedCallCounted(s: State, t: State, tasks: seq<Task>, id: CallId, f: Failure)
    requires Counted(s, tasks) && Counts(s, t, f) && t.completed == s.completed
    requires f == NotAvailable || f == Busy || f == Malformed
    ensures Counted(t, tasks + [Fail(id, f)])
  {
    hide Answers, FailedWith, QueuedWith;
    forall g ensures QueuedWith(tasks + [Fail(id, f)], g) == QueuedWith(tasks, g) + if f == g then 1 else 0 {
      QueuedInBoth(tasks, [Fail(id, f)], g);
      QueuedOnce(Fail(id, f), g);
    }
  }

  lemma RefusedStaysExplained(s: State, t: State, r: Request, f: Failure, due: seq<Task>)
    requires Explained(s, due) && Recorded(s, t, r) && Refused(s.config, Meets(s, r), f)
    requires t.posted == s.posted + [Fail(s.stats.calls, f)] && Stayed(s, t) && Counts(s, t, f)
    ensures Explained(t, due)
  {
    hide TasksExplained, WaitingExplained, DoneExplained, SentExplained, Counted, Meets;
    var before, task := Undelivered(s, due), Fail(s.stats.calls, f);
    assert Undelivered(t, due) == before + [task];
    MoreAsked(s, Meets(s, r), before);
    TaskJoins(s.config, t.asked, before, task);
    RefusedCallCounted(s, t, before, s.stats.calls, f);
  }

  lemma LeftStaysWaiting(s: State, t: State, r: Request)
    requires |s.asked| == s.stats.calls && Recorded(s, t, r) && Goes(s.config, Meets(s, r)) && Left(s, t, r)
    requires WaitingExplained(s.config, t.asked, s.pending) && SentExplained(s.config, s.asked, s.sent)
    requires SentExplained(s.config, t.asked, s.sent)
    ensures WaitingExplained(s.config, t.asked, t.pending) && SentExplained(s.config, t.asked, t.sent)
  {
    hide Goes, Carried;
    assert t.asked[s.stats.calls] == Meets(s, r);
    assert forall i :: 0 <= i < |s.sent| ==> t.sent[i] == s.sent[i];
  }

  lemma LeftStaysExplained(s: State, t: State, r: Request, due: seq<Task>)
    requires Explained(s, due) && Recorded(s, t, r) && Goes(s.config, Meets(s, r)) && Left(s, t, r)
    requires t.stats == s.stats.(calls := s.stats.calls + 1) && t.unserialisable == s.unserialisable
    ensures Explained(t, due)
  {
    hide TasksExplained, WaitingExplained, DoneExplained, SentExplained, Goes, Left, Meets;
    assert t.posted == s.posted by { LeftPostsNothing(s, t, r); }
    MoreAsked(s, Meets(s, r), Undelivered(s, due));
    LeftStaysWaiting(s, t, r);
  }

  lemma LeftPostsNothing(s: State, t: State, r: Request)
    requires Left(s, t, r)
    ensures t.posted == s.posted
  {
  }

  lemma CallStaysExplained(s: State, r: Request, due: seq<Task>)
    requires Explained(s, due)
    ensures Explained(Call(s, r), due)
  {
    hide *;
    CallIsRecorded(s, r);
    OneVerdict(s.config, Meets(s, r));
    if Goes(s.config, Meets(s, r)) {
      GoingCallLeaves(s, r);
      LeftStaysExplained(s, Call(s, r), r, due);
    } else {
      var f :| Refused(s.config, Meets(s, r), f);
      RefusedCallIsQueued(s, r, f);
      RefusedStaysExplained(s, Call(s, r), r, f, due);
    }
  }

  lemma CloseStaysExplained(s: State, due: seq<Task>)
    requires Explained(s, due)
    ensures Explained(Close(s), due)
  {
    hide TasksExplained, DoneExplained, SentExplained, PendingIds, Answers, FailedWith, QueuedWith;
  }

  lemma {:induction false} ActStaysExplained(s: State, actions: seq<Action>, due: seq<Task>)
    requires Explained(s, due)
    ensures Explained(Act(s, actions), due)
    decreases |actions|
  {
    hide Explained, Call, Close;
    if actions == [] || s.closed {
    } else {
      match actions[0]
      case DoCall(r) =>
        CallStaysExplained(s, r, due);
        ActStaysExplained(Call(s, r), actions[1..], due);
      case DoDestroy =>
        CloseStaysExplained(s, due);
        ActStaysExplained(Close(s), actions[1..], due);
    }
  }

  // ---- completing --------------------------------------------------------------------------

  /** One waiting call leaves the table and is handed `outcome`, which `stats` counts. */
  predicate Finishes(s: State, t: State, session: u16, outcome: Outcome)
    requires session in s.pending
  {
    && t == s.(pending := s.pending - {session}, stats := t.stats, completed := s.completed + [Completion(s.pending[session].id, outcome)],
               deeds := s.deeds + [Began(s.pending[session].id)])
    && match outcome
       case Value(_) => t.stats == s.stats.(answered := s.stats.answered + 1)
       case Failed(Timeout, code) => code == 0x00 && t.stats == s.stats.(timeouts := s.stats.timeouts + 1)
       case Failed(NotAvailable, code) => code == 0x00 && t.stats == s.stats.(notAvailable := s.stats.notAvailable + 1)
       case Failed(WrongInterfaceVersion, code) => code == 0x00 && t.stats == s.stats.(remoteErrors := s.stats.remoteErrors + 1)
       case Failed(Remote, _) => t.stats == s.stats.(remoteErrors := s.stats.remoteErrors + 1)
       case _ => false
  }

  lemma FinishedIsCounted(s: State, t: State, session: u16, outcome: Outcome, tasks: seq<Task>)
    requires session in s.pending && Finishes(s, t, session, outcome) && Counted(s, tasks)
    ensures Counted(t, tasks)
  {
    var c := Completion(s.pending[session].id, outcome);
    OneMoreDone(s.completed, c, Remote);
    OneMoreDone(s.completed, c, WrongInterfaceVersion);
    OneMoreDone(s.completed, c, Timeout);
    OneMoreDone(s.completed, c, NotAvailable);
    OneMoreDone(s.completed, c, Busy);
    OneMoreDone(s.completed, c, Malformed);
    hide Answers, FailedWith, QueuedWith;
  }

  lemma FinishedStaysExplained(s: State, t: State, session: u16, outcome: Outcome, due: seq<Task>)
    requires session in s.pending && Finishes(s, t, session, outcome) && Explained(s, due)
    ensures Explained(t, due)
  {
    FinishedIsCounted(s, t, session, outcome, Undelivered(s, due));
    FinishedIsDone(s.config, s.asked, s.pending, session, s.completed, outcome);
    hide TasksExplained, WaitingExplained, DoneExplained, SentExplained, Counted;
  }

  lemma FinishedIsDone(c: Config, asked: seq<Asked>, p: map<u16, Pending>, session: u16, done: seq<Completion>, outcome: Outcome)
    requires session in p && WaitingExplained(c, asked, p) && DoneExplained(c, asked, done)
    requires outcome.Failed? ==>
               (outcome.failure == Remote
                || ((outcome.failure == WrongInterfaceVersion || outcome.failure == Timeout || outcome.failure == NotAvailable)
                    && outcome.code == 0x00))
    ensures WaitingExplained(c, asked, p - {session}) && DoneExplained(c, asked, done + [Completion(p[session].id, outcome)])
  {
    hide Goes, Refused;
  }

  /** What a reply means to the call it finds, by its type byte, version byte and code. */
  predicate Means(c: Config, m: SomeIp.Message, outcome: Outcome) {
    && (m.header.kind == SomeIp.Error ==> outcome == Failed(Remote, m.header.code))
    && (m.header.kind != SomeIp.Error && m.header.interfaceVersion != c.interfaceVersion ==>
          outcome == Failed(WrongInterfaceVersion, 0x00))
    && (m.header.kind != SomeIp.Error && m.header.interfaceVersion == c.interfaceVersion ==> outcome == Value(m.payload))
  }

  lemma DeliveredFinishes(s: State, m: SomeIp.Message) returns (outcome: Outcome)
    requires m.header.sessionId in s.pending
    ensures Finishes(s, Delivered(s, m), m.header.sessionId, outcome) && Means(s.config, m, outcome)
  {
    outcome := Delivered(s, m).completed[|s.completed|].outcome;
  }

  lemma GivenUpFinishes(s: State, session: u16, why: Reason)
    requires session in s.pending
    ensures Finishes(s, GivenUp(s, session, why), session, Failed(if why == TimedOut then Timeout else NotAvailable, 0x00))
  {
  }

  lemma OnReplyStaysExplained(s: State, m: SomeIp.Message, b: Behaviour)
    requires Explained(s, [])
    ensures Explained(OnReply(s, m, b), [])
  {
    hide Explained, Act, Delivered, Finishes, Means, IsReply;
    if IsReply(m) {
      if m.header.sessionId in s.pending {
        var outcome := DeliveredFinishes(s, m);
        FinishedStaysExplained(s, Delivered(s, m), m.header.sessionId, outcome, []);
        ActStaysExplained(Delivered(s, m), b(s.pending[m.header.sessionId].id), []);
      } else {
        LateStaysExplained(s);
      }
    }
  }

  lemma LateStaysExplained(s: State)
    requires Explained(s, [])
    ensures Explained(s.(stats := s.stats.(lateReplies := s.stats.lateReplies + 1)), [])
  {
    hide TasksExplained, WaitingExplained, DoneExplained, SentExplained, Answers, FailedWith, QueuedWith;
  }

  lemma {:induction false} ReadRepliesStaysExplained(s: State, datagrams: seq<seq<u8>>, b: Behaviour)
    requires Explained(s, [])
    ensures Explained(ReadReplies(s, datagrams, b), [])
    decreases |datagrams|
  {
    hide Explained, OnReply, SomeIp.Deserialize;
    if datagrams == [] || s.closed {
    } else {
      match SomeIp.Deserialize(datagrams[0])
      case None => ReadRepliesStaysExplained(s, datagrams[1..], b);
      case Some(m) =>
        OnReplyStaysExplained(s, m, b);
        ReadRepliesStaysExplained(OnReply(s, m, b), datagrams[1..], b);
    }
  }

  lemma FailOneStaysExplained(s: State, session: u16, why: Reason, b: Behaviour)
    requires session in s.pending && Explained(s, [])
    ensures Explained(FailOne(s, session, why, b), [])
  {
    hide Explained, Act, GivenUp, Finishes;
    GivenUpFinishes(s, session, why);
    FinishedStaysExplained(s, GivenUp(s, session, why), session, Failed(if why == TimedOut then Timeout else NotAvailable, 0x00), []);
    ActStaysExplained(GivenUp(s, session, why), b(s.pending[session].id), []);
  }

  lemma {:induction false} FailEachStaysExplained(s: State, sessions: seq<u16>, why: Reason, b: Behaviour)
    requires Explained(s, [])
    ensures Explained(FailEach(s, sessions, why, b), [])
    decreases |sessions|
  {
    hide Explained, FailOne;
    if sessions == [] || s.closed {
    } else if sessions[0] !in s.pending {
      FailEachStaysExplained(s, sessions[1..], why, b);
    } else {
      FailOneStaysExplained(s, sessions[0], why, b);
      FailEachStaysExplained(FailOne(s, sessions[0], why, b), sessions[1..], why, b);
    }
  }

  lemma ChangeStaysExplained(s: State, up: bool, b: Behaviour, listener: seq<Action>)
    requires Explained(s, [])
    ensures Explained(OnAvailabilityChanged(s, up, b, listener), [])
  {
    hide Explained, Act, FailEach, AllSessions, Marked, Telling;
    if s.closed || up == s.available {
    } else {
      var marked := Marked(s, up);
      MarkedStaysExplained(s, up);
      var told := if up then marked else FailAll(marked, b);
      if !up { FailEachStaysExplained(marked, AllSessions(marked.pending), Gone, b); }
      if !told.closed {
        TellingStaysExplained(told, up);
        ActStaysExplained(Telling(told, up), listener, []);
      }
    }
  }

  lemma MarkedStaysExplained(s: State, up: bool)
    requires Explained(s, [])
    ensures Explained(Marked(s, up), [])
  {
    hide TasksExplained, WaitingExplained, DoneExplained, SentExplained, Answers, FailedWith, QueuedWith;
  }

  lemma TellingStaysExplained(s: State, up: bool)
    requires Explained(s, [])
    ensures Explained(Telling(s, up), [])
  {
    hide TasksExplained, WaitingExplained, DoneExplained, SentExplained, Answers, FailedWith, QueuedWith;
  }

  // ---- the queue ---------------------------------------------------------------------------

  /** A queued failure is handed over: it leaves the queue as a completion, and counts as before. */
  lemma ReportedIsCounted(s: State, before: seq<Task>, task: Task, after: seq<Task>)
    requires Counted(s, before + ([task] + after)) && task.failure != Remote && task.failure != WrongInterfaceVersion
    ensures Counted(Reported(s, task), before + after)
  {
    var c := Completion(task.id, Failed(task.failure, SomeIp.OK));
    forall f ensures QueuedWith(before + ([task] + after), f) == QueuedWith(before + after, f) + if task.failure == f then 1 else 0
             ensures FailedWith(s.completed + [c], f) == FailedWith(s.completed, f) + if task.failure == f then 1 else 0
    {
      QueuedInBoth(before, [task] + after, f);
      QueuedInBoth([task], after, f);
      QueuedInBoth(before, after, f);
      QueuedOnce(task, f);
      OneMoreDone(s.completed, c, f);
    }
    OneMoreDone(s.completed, c, Busy);
    hide Answers, FailedWith, QueuedWith;
  }

  lemma ReportedIsExplained(c: Config, asked: seq<Asked>, before: seq<Task>, task: Task, after: seq<Task>, done: seq<Completion>)
    requires TasksExplained(c, asked, before + ([task] + after)) && DoneExplained(c, asked, done)
    ensures task.id < |asked| && Refused(c, asked[task.id], task.failure)
    ensures TasksExplained(c, asked, before + after)
    ensures DoneExplained(c, asked, done + [Completion(task.id, Failed(task.failure, 0x00))])
  {
    hide Refused, Goes;
    var all, rest := before + ([task] + after), before + after;
    assert all[|before|] == task;
    forall i | 0 <= i < |rest| ensures rest[i].id < |asked| && Refused(c, asked[rest[i].id], rest[i].failure) {
      assert rest[i] == all[if i < |before| then i else i + 1];
    }
  }

  lemma ReportedStaysExplained(s: State, due: seq<Task>)
    requires due != [] && Explained(s, due)
    ensures Explained(Reported(s, due[0]), due[1..])
  {
    var t, after := Reported(s, due[0]), due[1..] + s.posted;
    assert due + s.posted == [due[0]] + after;
    hide TasksExplained, WaitingExplained, DoneExplained, SentExplained, Counted;
    ReportedIsExplained(s.config, s.asked, s.silenced, due[0], after, s.completed);
    ReportedIsCounted(s, s.silenced, due[0], after);
  }

  lemma SilencedStaysExplained(s: State, due: seq<Task>)
    requires due != [] && Explained(s, due)
    ensures Explained(Silenced(s, due[0]), due[1..])
  {
    assert Undelivered(Silenced(s, due[0]), due[1..]) == Undelivered(s, due);
    hide TasksExplained, WaitingExplained, DoneExplained, SentExplained, Answers, FailedWith, QueuedWith;
  }

  lemma {:induction false} RunTasksStaysExplained(s: State, due: seq<Task>, b: Behaviour)
    requires Explained(s, due)
    ensures Explained(RunTasks(s, due, b), [])
    decreases |due|
  {
    hide Explained, Act, Reported, Silenced;
    if due == [] {
    } else {
      var mid := RunTask(s, due[0], b);
      if s.closed {
        SilencedStaysExplained(s, due);
      } else {
        ReportedStaysExplained(s, due);
        ActStaysExplained(Reported(s, due[0]), b(due[0].id), due[1..]);
      }
      RunTasksStaysExplained(mid, due[1..], b);
    }
  }

  // ---- whole runs --------------------------------------------------------------------------

  lemma StepStaysExplained(s: State, e: Event, b: Behaviour)
    requires Explained(s, [])
    ensures Explained(Step(s, e, b), [])
  {
    hide Explained, Call, ReadReplies, FailEach, OnAvailabilityChanged, RunTasks, Close;
    match e
    case Calls(r) => if !s.closed { CallStaysExplained(s, r, []); }
    case Replies(ds) => ReadRepliesStaysExplained(s, ds, b);
    case Tick(now) => FailEachStaysExplained(s, ExpiredSessions(s.pending, now, s.config.timeout), TimedOut, b);
    case Availability(up, listener) => ChangeStaysExplained(s, up, b, listener);
    case Posted =>
      SwappedStaysExplained(s);
      RunTasksStaysExplained(s.(posted := []), s.posted, b);
    case Destroyed => CloseStaysExplained(s, []);
  }

  lemma SwappedStaysExplained(s: State)
    requires Explained(s, [])
    ensures Explained(s.(posted := []), s.posted)
  {
    assert Undelivered(s.(posted := []), s.posted) == Undelivered(s, []);
    hide TasksExplained, WaitingExplained, DoneExplained, SentExplained, Answers, FailedWith, QueuedWith;
  }

  lemma {:induction false} RunStaysExplained(s: State, events: seq<Event>, b: Behaviour)
    requires Explained(s, [])
    ensures Explained(Run(s, events, b), [])
    decreases |events|
  {
    hide Explained, Step;
    if events == [] {
    } else {
      StepStaysExplained(s, events[0], b);
      RunStaysExplained(Step(s, events[0], b), events[1..], b);
    }
  }

  /** What the handler of a completed call was told, in any run: a refused call its own refusal and nothing
      else; a call whose request left never a refusal of its own. */
  lemma WhatHandlersAreTold(config: Config, events: seq<Event>, b: Behaviour, i: nat)
    requires i < |Run(Started(config), events, b).completed|
    ensures var s := Run(Started(config), events, b);
            var c := s.completed[i];
            && c.id < |s.asked|
            && (forall f :: Refused(config, s.asked[c.id], f) ==> c.outcome == Failed(f, 0x00))
            && (Goes(config, s.asked[c.id]) ==> c.outcome.Value? || c.outcome.failure in {Remote, WrongInterfaceVersion, Timeout, NotAvailable})
            && (c.outcome.Failed? && c.outcome.code != 0x00 ==> c.outcome.failure == Remote)
  {
    StartedIsExplained(config);
    RunStaysExplained(Started(config), events, b);
    StartedIsBalanced(config);
    RunKeepsLedger(Started(config), events, b);
    var s := Run(Started(config), events, b);
    OneVerdict(config, s.asked[s.completed[i].id]);
    hide Run, Ledger, Goes, Refused;
    assert Explains(config, s.asked[s.completed[i].id], s.completed[i].outcome);
  }

  /** What the nine counters count, after any run: the calls by what their handlers were told or would be
      told on the next poll, or would have been, had the application not destroyed the proxy. */
  lemma CountersCount(config: Config, events: seq<Event>, b: Behaviour)
    ensures var s := Run(Started(config), events, b);
            && |s.asked| == s.stats.calls && Counted(s, s.silenced + s.posted)
            && SentExplained(config, s.asked, s.sent)
  {
    StartedIsExplained(config);
    RunStaysExplained(Started(config), events, b);
    StartedIsBalanced(config);
    RunKeepsLedger(Started(config), events, b);
    var s := Run(Started(config), events, b);
    assert [] + s.posted == s.posted;
    hide Run, Ledger, Counted, TasksExplained, WaitingExplained, DoneExplained, SentExplained;
  }

  lemma StartedIsExplained(config: Config)
    ensures Explained(Started(config), [])
  {
    hide Explains, Refused, Goes, Carried;
  }
}

/** The moments inside a run at which application code starts, and what it finds there: the books are
    balanced not only between events but whenever a handler begins, so a handler may call again or
    destroy the proxy. */
module ProxyMoments {
  import opened Bytes
  import opened ProxySpec
  import opened ProxyLedger
  import opened ProxyContract
  import SomeIp

  /** `state` is what the handler finds, `due` what is left of the queue that is being run. */
  datatype Moment = Moment(state: State, due: seq<Task>)

  function ReplyMoments(s: State, m: SomeIp.Message): seq<Moment> {
    if IsReply(m) && m.header.sessionId in s.pending then [Moment(Delivered(s, m), [])] else []
  }

  function ReadMoments(s: State, datagrams: seq<seq<u8>>, b: Behaviour): seq<Moment>
    decreases |datagrams|
  {
    if datagrams == [] || s.closed then []
    else match SomeIp.Deserialize(datagrams[0])
         case None => ReadMoments(s, datagrams[1..], b)
         case Some(m) => ReplyMoments(s, m) + ReadMoments(OnReply(s, m, b), datagrams[1..], b)
  }

  function WalkMoments(s: State, sessions: seq<u16>, why: Reason, b: Behaviour): seq<Moment>
    decreases |sessions|
  {
    if sessions == [] || s.closed then []
    else if sessions[0] !in s.pending then WalkMoments(s, sessions[1..], why, b)
    else [Moment(GivenUp(s, sessions[0], why), [])] + WalkMoments(FailOne(s, sessions[0], why, b), sessions[1..], why, b)
  }

  /** The application's availability handler starts, unless the proxy is gone by then. */
  function ListenerMoments(s: State, up: bool): seq<Moment> { if s.closed then [] else [Moment(Telling(s, up), [])] }

  function ChangeMoments(s: State, up: bool, b: Behaviour): seq<Moment> {
    if s.closed || up == s.available then []
    else if up then ListenerMoments(Marked(s, true), true)
    else
      var down := Marked(s, false);
      WalkMoments(down, AllSessions(down.pending), Gone, b) + ListenerMoments(FailAll(down, b), false)
  }

  function TaskMoments(s: State, due: seq<Task>, b: Behaviour): seq<Moment>
    decreases |due|
  {
    if due == [] then []
    else (if s.closed then [] else [Moment(Reported(s, due[0]), due[1..])])
         + TaskMoments(RunTask(s, due[0], b), due[1..], b)
  }

  function StepMoments(s: State, e: Event, b: Behaviour): seq<Moment> {
    match e
    case Calls(_) => []
    case Replies(ds) => ReadMoments(s, ds, b)
    case Tick(now) => WalkMoments(s, ExpiredSessions(s.pending, now, s.config.timeout), TimedOut, b)
    case Availability(up, _) => ChangeMoments(s, up, b)
    case Posted => TaskMoments(s.(posted := []), s.posted, b)
    case Destroyed => []
  }

  function RunMoments(s: State, events: seq<Event>, b: Behaviour): seq<Moment>
    decreases |events|
  {
    if events == [] then []
    else StepMoments(s, events[0], b) + RunMoments(Step(s, events[0], b), events[1..], b)
  }

  // ---- what holds at these moments ---------------------------------------------------------

  /** At each of these moments the books are balanced and the proxy is open, and every handler that
      started between `s` and `t` started at one of them. */
  ghost predicate Fits(ms: seq<Moment>, s: State, t: State) {
    && (forall m :: m in ms ==> Ledger(m.state, m.due) && !m.state.closed && m.state.config == s.config)
    && t.config == s.config && s.completed <= t.completed
    && forall n :: |s.completed| < n <= |t.completed| ==> StartsAt(ms, t.completed[..n])
  }

  predicate StartsAt(ms: seq<Moment>, completed: seq<Completion>) {
    exists m :: m in ms && m.state.completed == completed
  }

  lemma FitsBoth(a: seq<Moment>, b: seq<Moment>, s: State, mid: State, t: State)
    requires Fits(a, s, mid) && Fits(b, mid, t)
    ensures Fits(a + b, s, t)
  {
    hide Ledger;
    forall n | |s.completed| < n <= |t.completed| ensures StartsAt(a + b, t.completed[..n]) {
      if n <= |mid.completed| {
        assert mid.completed[..n] == t.completed[..n];
        assert StartsAt(a, mid.completed[..n]);
      } else {
        assert StartsAt(b, t.completed[..n]);
      }
    }
  }

  lemma FitsNone(s: State, t: State)
    requires t.completed == s.completed && t.config == s.config
    ensures Fits([], s, t)
  {
    hide Ledger;
  }

  /** One handler starts and acts. */
  lemma FitsOne(s: State, started: State, due: seq<Task>, t: State)
    requires Ledger(started, due) && !started.closed && started.config == s.config
    requires s.completed <= started.completed && |started.completed| <= |s.completed| + 1
    requires Acted(started, t)
    ensures Fits([Moment(started, due)], s, t)
  {
    hide Ledger, OnlyNew;
    assert t.completed[..|t.completed|] == started.completed;
    assert Moment(started, due) in [Moment(started, due)];
  }

  lemma ReplyFits(s: State, m: SomeIp.Message, b: Behaviour)
    requires Ledger(s, []) && !s.closed
    ensures Fits(ReplyMoments(s, m), s, OnReply(s, m, b)) && Ledger(OnReply(s, m, b), [])
  {
    OnReplyKeepsLedger(s, m, b, []);
    hide Ledger, Fits, Act, Acted, IsReply;
    if IsReply(m) && m.header.sessionId in s.pending {
      DeliveredKeepsLedger(s, m, []);
      ActKeepsLedger(Delivered(s, m), b(s.pending[m.header.sessionId].id), []);
      FitsOne(s, Delivered(s, m), [], OnReply(s, m, b));
    } else {
      FitsNone(s, OnReply(s, m, b));
    }
  }

  lemma {:induction false} ReadFits(s: State, datagrams: seq<seq<u8>>, b: Behaviour)
    requires Ledger(s, [])
    ensures Fits(ReadMoments(s, datagrams, b), s, ReadReplies(s, datagrams, b))
    decreases |datagrams|
  {
    hide Ledger, Fits, OnReply, SomeIp.Deserialize, ReplyMoments;
    if datagrams == [] || s.closed {
      FitsNone(s, s);
    } else {
      match SomeIp.Deserialize(datagrams[0])
      case None => ReadFits(s, datagrams[1..], b);
      case Some(m) =>
        var mid := OnReply(s, m, b);
        ReplyFits(s, m, b);
        ReadFits(mid, datagrams[1..], b);
        FitsBoth(ReplyMoments(s, m), ReadMoments(mid, datagrams[1..], b), s, mid, ReadReplies(s, datagrams, b));
    }
  }

  lemma OneGivenUpFits(s: State, session: u16, why: Reason, b: Behaviour)
    requires Ledger(s, []) && !s.closed && session in s.pending
    ensures Ledger(FailOne(s, session, why, b), [])
    ensures Fits([Moment(GivenUp(s, session, why), [])], s, FailOne(s, session, why, b))
  {
    hide Ledger, Fits, Act, Acted;
    GivenUpKeepsLedger(s, session, why, []);
    ActKeepsLedger(GivenUp(s, session, why), b(s.pending[session].id), []);
    FitsOne(s, GivenUp(s, session, why), [], FailOne(s, session, why, b));
  }

  lemma {:induction false} WalkFits(s: State, sessions: seq<u16>, why: Reason, b: Behaviour)
    requires Ledger(s, [])
    ensures Fits(WalkMoments(s, sessions, why, b), s, FailEach(s, sessions, why, b))
    decreases |sessions|
  {
    hide Ledger, Fits, FailOne, GivenUp;
    if sessions == [] || s.closed {
      FitsNone(s, s);
    } else if sessions[0] !in s.pending {
      WalkFits(s, sessions[1..], why, b);
    } else {
      var mid := FailOne(s, sessions[0], why, b);
      OneGivenUpFits(s, sessions[0], why, b);
      WalkFits(mid, sessions[1..], why, b);
      FitsBoth([Moment(GivenUp(s, sessions[0], why), [])], WalkMoments(mid, sessions[1..], why, b),
               s, mid, FailEach(s, sessions, why, b));
    }
  }

  lemma ListenerFits(s: State, up: bool, listener: seq<Action>)
    requires Ledger(s, [])
    ensures Fits(ListenerMoments(s, up), s, Listen(s, up, listener))
  {
    hide Ledger, Fits, Act, Acted;
    if s.closed {
      FitsNone(s, s);
    } else {
      TellingKeepsLedger(s, up, []);
      ActKeepsLedger(Telling(s, up), listener, []);
      FitsOne(s, Telling(s, up), [], Listen(s, up, listener));
    }
  }

  /** Marking a change starts nothing. */
  lemma MarkedFits(ms: seq<Moment>, s: State, up: bool, t: State)
    requires Fits(ms, Marked(s, up), t)
    ensures Fits(ms, s, t)
  {
    hide Ledger;
  }

  lemma ChangeFits(s: State, up: bool, b: Behaviour, listener: seq<Action>)
    requires Ledger(s, [])
    ensures Fits(ChangeMoments(s, up, b), s, OnAvailabilityChanged(s, up, b, listener))
  {
    hide Ledger, Fits, FailEach, WalkMoments, FailedListed, ListenerMoments, AllSessions, Listen, Marked;
    var marked, t := Marked(s, up), OnAvailabilityChanged(s, up, b, listener);
    if s.closed || up == s.available {
      FitsNone(s, s);
    } else {
      MarkedKeepsLedger(s, up, []);
      if up {
        ListenerFits(marked, up, listener);
      } else {
        var mid := FailAll(marked, b);
        WalkFits(marked, AllSessions(marked.pending), Gone, b);
        LosingMarked(s);
        var n := FailAllEmptiesTheTable(marked, b);
        ListenerFits(mid, up, listener);
        FitsBoth(WalkMoments(marked, AllSessions(marked.pending), Gone, b), ListenerMoments(mid, up), marked, mid, t);
      }
      MarkedFits(ChangeMoments(s, up, b), s, up, t);
    }
  }

  lemma LosingMarked(s: State)
    ensures !Marked(s, false).available
  {
  }

  lemma OneTaskFits(s: State, due: seq<Task>, b: Behaviour)
    requires due != [] && Ledger(s, due)
    ensures Ledger(RunTask(s, due[0], b), due[1..])
    ensures Fits(if s.closed then [] else [Moment(Reported(s, due[0]), due[1..])], s, RunTask(s, due[0], b))
  {
    hide Ledger, Fits, Act, Acted;
    if s.closed {
      SilencedKeepsLedger(s, due);
      FitsNone(s, Silenced(s, due[0]));
    } else {
      ReportedKeepsLedger(s, due);
      ActKeepsLedger(Reported(s, due[0]), b(due[0].id), due[1..]);
      FitsOne(s, Reported(s, due[0]), due[1..], RunTask(s, due[0], b));
    }
  }

  lemma {:induction false} TasksFit(s: State, due: seq<Task>, b: Behaviour)
    requires Ledger(s, due)
    ensures Fits(TaskMoments(s, due, b), s, RunTasks(s, due, b))
    decreases |due|
  {
    hide Ledger, Fits, RunTask, Reported;
    if due == [] {
      FitsNone(s, s);
    } else {
      var first := if s.closed then [] else [Moment(Reported(s, due[0]), due[1..])];
      var mid := RunTask(s, due[0], b);
      OneTaskFits(s, due, b);
      TasksFit(mid, due[1..], b);
      FitsBoth(first, TaskMoments(mid, due[1..], b), s, mid, RunTasks(s, due, b));
    }
  }

  lemma PostedFits(s: State, b: Behaviour)
    requires Ledger(s, [])
    ensures Fits(StepMoments(s, Posted, b), s, Step(s, Posted, b))
  {
    SwappedKeepsLedger(s);
    TasksFit(s.(posted := []), s.posted, b);
    hide Ledger, TaskMoments, RunTasks;
  }

  lemma StepFits(s: State, e: Event, b: Behaviour)
    requires Ledger(s, [])
    ensures Fits(StepMoments(s, e, b), s, Step(s, e, b))
  {
    hide Ledger, Fits, ReadMoments, WalkMoments, TaskMoments, ChangeMoments, Call, ReadReplies, FailEach,
         OnAvailabilityChanged, RunTasks, Called, PendingIds;
    match e
    case Calls(r) =>
      if s.closed {
        FitsNone(s, s);
      } else {
        CallKeepsLedger(s, r, []);
        CalledStartsNothing(s, Call(s, r));
        FitsNone(s, Call(s, r));
      }
    case Replies(ds) => ReadFits(s, ds, b);
    case Tick(now) => WalkFits(s, ExpiredSessions(s.pending, now, s.config.timeout), TimedOut, b);
    case Availability(up, listener) => ChangeFits(s, up, b, listener);
    case Posted => PostedFits(s, b);
    case Destroyed => FitsNone(s, Close(s));
  }

  lemma CalledStartsNothing(s: State, t: State)
    requires Called(s, t)
    ensures t.completed == s.completed && t.config == s.config
  {
  }

  lemma {:induction false} RunFits(s: State, events: seq<Event>, b: Behaviour)
    requires Ledger(s, [])
    ensures Fits(RunMoments(s, events, b), s, Run(s, events, b))
    decreases |events|
  {
    hide Ledger, Fits, StepMoments, Step;
    if events == [] {
      FitsNone(s, s);
    } else {
      var mid := Step(s, events[0], b);
      StepFits(s, events[0], b);
      StepKeepsLedger(s, events[0], b);
      RunFits(mid, events[1..], b);
      FitsBoth(StepMoments(s, events[0], b), RunMoments(mid, events[1..], b), s, mid, Run(s, events, b));
    }
  }

  // ---- the promise -------------------------------------------------------------------------

  /** Rule 1 at every moment at which application code starts, for handlers that call again or destroy
      the proxy: each call issued so far is in exactly one place -- the call whose handler starts is
      among the completed ones, no longer in the table or the queue -- no handler has started
      twice, the counters add up, and the table is within its bound. */
  lemma ExactlyOnceAtEveryMoment(config: Config, events: seq<Event>, b: Behaviour, m: Moment, id: CallId)
    requires m in RunMoments(Started(config), events, b)
    ensures !m.state.closed && m.state.cancelled == {} && m.state.silenced == []
    ensures Count(PlacesOf(m.state, m.due), id) == One(id < m.state.stats.calls)
    ensures NoCallTwice(m.state.completed) && Balanced(m.state) && |m.state.pending| <= config.maxPending
  {
    StartedIsBalanced(config);
    RunFits(Started(config), events, b);
    hide RunMoments, Run;
  }

  /** And those are all: whichever handler started in the run did so at one of these moments, when the
      handlers before it had started and none after it. */
  lemma HandlersStartAtTheseMoments(config: Config, events: seq<Event>, b: Behaviour, n: nat) returns (m: Moment)
    requires n < |Run(Started(config), events, b).completed|
    ensures m in RunMoments(Started(config), events, b)
    ensures m.state.completed == Run(Started(config), events, b).completed[..n + 1]
  {
    StartedIsBalanced(config);
    RunFits(Started(config), events, b);
    hide RunMoments, Run, Ledger;
    var t := Run(Started(config), events, b);
    assert StartsAt(RunMoments(Started(config), events, b), t.completed[..n + 1]);
    m :| m in RunMoments(Started(config), events, b) && m.state.completed == t.completed[..n + 1];
  }
}

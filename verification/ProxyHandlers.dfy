/** What the application does to a proxy, in order: every handler that starts carries out its actions then
    and there, once, and the next one starts only after it. */
module ProxyHandlers {
  import opened Wrappers
  import opened Bytes
  import opened ProxySpec
  import opened ProxyDecisions
  import opened ProxyOutcomes
  import SomeIp

  /** The actions that are carried out: all of them, or those up to the one that destroys the proxy. */
  function CarriedOut(actions: seq<Action>): seq<Deed>
    decreases |actions|
  {
    if actions == [] then []
    else [Did(actions[0])] + if actions[0].DoDestroy? then [] else CarriedOut(actions[1..])
  }

  /** The handlers of `done`, one after the other. */
  function Handled(done: seq<Completion>, b: Behaviour): seq<Deed> {
    if done == [] then []
    else Handled(done[..|done| - 1], b) + ([Began(done[|done| - 1].id)] + CarriedOut(b(done[|done| - 1].id)))
  }

  /** The calls that were made, by what was done. */
  function Requests(deeds: seq<Deed>): seq<Request> {
    if deeds == [] then []
    else
      var last := deeds[|deeds| - 1];
      Requests(deeds[..|deeds| - 1]) + if last.Did? && last.action.DoCall? then [last.action.request] else []
  }

  predicate Linked(s: State) {
    && |Requests(s.deeds)| == |s.asked|
    && forall i :: 0 <= i < |s.asked| ==> Requests(s.deeds)[i] == s.asked[i].request
  }

  lemma OneMoreDeed(deeds: seq<Deed>, d: Deed)
    ensures Requests(deeds + [d]) == Requests(deeds) + if d.Did? && d.action.DoCall? then [d.action.request] else []
  {
    assert (deeds + [d])[..|deeds|] == deeds;
  }

  lemma CallIsADeed(s: State, r: Request)
    ensures var t := Call(s, r);
            && t.deeds == s.deeds + [Did(DoCall(r))] && t.completed == s.completed && t.closed == s.closed
            && (Linked(s) ==> Linked(t)) && Steady(s, t)
  {
    OneMoreDeed(s.deeds, Did(DoCall(r)));
    CallIsRecorded(s, r);
    hide Call, Requests;
  }

  /** Anything else than a call. */
  lemma OtherDeedStaysLinked(s: State, t: State, d: Deed)
    requires t.deeds == s.deeds + [d] && t.asked == s.asked && !(d.Did? && d.action.DoCall?) && Linked(s)
    ensures Linked(t)
  {
    OneMoreDeed(s.deeds, d);
    hide Requests;
  }

  /** No change of availability comes in between. */
  predicate Steady(s: State, t: State) {
    && t.available == s.available && t.stats.becameAvailable == s.stats.becameAvailable
    && t.stats.becameUnavailable == s.stats.becameUnavailable
  }

  /** From `s` to `t` this was done, and exactly the calls among it were made. */
  predicate Does(s: State, t: State, deeds: seq<Deed>) {
    t.deeds == s.deeds + deeds && (Linked(s) ==> Linked(t)) && Steady(s, t)
  }

  lemma DoesNothing(s: State, t: State)
    requires t.deeds == s.deeds && t.asked == s.asked && Steady(s, t)
    ensures Does(s, t, [])
  {
    hide Requests;
  }

  lemma DoesBoth(s: State, mid: State, t: State, x: seq<Deed>, y: seq<Deed>)
    requires Does(s, mid, x) && Does(mid, t, y)
    ensures Does(s, t, x + y)
  {
    hide Linked;
  }

  lemma CallDoes(s: State, r: Request)
    ensures Does(s, Call(s, r), [Did(DoCall(r))]) && Call(s, r).completed == s.completed && Call(s, r).closed == s.closed
  {
    CallIsADeed(s, r);
    hide Call, Linked;
  }

  lemma CloseDoes(s: State)
    requires !s.closed
    ensures Does(s, Close(s), [Did(DoDestroy)]) && Close(s).completed == s.completed && Close(s).closed
  {
    if Linked(s) { OtherDeedStaysLinked(s, Close(s), Did(DoDestroy)); }
    hide Linked, PendingIds;
  }

  /** A handler's actions are carried out in order, each once, until one destroys the proxy. */
  lemma {:induction false} ActCarriesOut(s: State, actions: seq<Action>)
    requires !s.closed
    ensures Does(s, Act(s, actions), CarriedOut(actions))
    ensures Act(s, actions).completed == s.completed && (Act(s, actions).closed <==> DoDestroy in actions)
    decreases |actions|
  {
    hide Does, Call, Close;
    if actions == [] {
      DoesNothing(s, s);
    } else {
      match actions[0]
      case DoCall(r) =>
        CallDoes(s, r);
        ActCarriesOut(Call(s, r), actions[1..]);
        DoesBoth(s, Call(s, r), Act(s, actions), [Did(DoCall(r))], CarriedOut(actions[1..]));
      case DoDestroy =>
        CloseDoes(s);
        ClosedActsNot(Close(s), actions[1..]);
        assert [Did(DoDestroy)] + [] == [Did(DoDestroy)];
    }
  }

  lemma ClosedActsNot(s: State, actions: seq<Action>)
    requires s.closed
    ensures Act(s, actions) == s
  {
  }

  // ---- handlers ----------------------------------------------------------------------------

  /** The handlers of the calls that completed from `s` to `t` are all that was done. */
  predicate HandledAll(s: State, t: State, b: Behaviour) {
    && s.completed <= t.completed
    && Does(s, t, Handled(t.completed[|s.completed|..], b))
  }

  lemma HandledNone(s: State, t: State, b: Behaviour)
    requires t.deeds == s.deeds && t.asked == s.asked && t.completed == s.completed && Steady(s, t)
    ensures HandledAll(s, t, b)
  {
    DoesNothing(s, t);
    hide Linked;
  }

  lemma {:induction false} HandledInTurn(x: seq<Completion>, y: seq<Completion>, b: Behaviour)
    ensures Handled(x + y, b) == Handled(x, b) + Handled(y, b)
    decreases |y|
  {
    hide CarriedOut;
    if y == [] {
      assert x + y == x;
    } else {
      assert (x + y)[..|x + y| - 1] == x + y[..|y| - 1];
      HandledInTurn(x, y[..|y| - 1], b);
    }
  }

  lemma HandledBoth(s: State, mid: State, t: State, b: Behaviour)
    requires HandledAll(s, mid, b) && HandledAll(mid, t, b)
    ensures HandledAll(s, t, b)
  {
    hide Does, Handled;
    var x, y := mid.completed[|s.completed|..], t.completed[|mid.completed|..];
    assert t.completed[|s.completed|..] == x + y;
    HandledInTurn(x, y, b);
    DoesBoth(s, mid, t, Handled(x, b), Handled(y, b));
  }

  /** One handler starts and acts. */
  lemma OneHandler(s: State, started: State, id: CallId, outcome: Outcome, b: Behaviour)
    requires !started.closed && started.completed == s.completed + [Completion(id, outcome)]
    requires started.deeds == s.deeds + [Began(id)] && started.asked == s.asked && Steady(s, started)
    ensures HandledAll(s, Act(started, b(id)), b) && Act(started, b(id)).completed == started.completed
  {
    var t, last := Act(started, b(id)), Completion(id, outcome);
    ActCarriesOut(started, b(id));
    if Linked(s) { OtherDeedStaysLinked(s, started, Began(id)); }
    assert Does(s, started, [Began(id)]);
    DoesBoth(s, started, t, [Began(id)], CarriedOut(b(id)));
    assert t.completed[|s.completed|..] == [last] && [last][..0] == [];
    assert [] + ([Began(id)] + CarriedOut(b(id))) == [Began(id)] + CarriedOut(b(id));
    hide Does, CarriedOut, Act;
    assert Handled([last], b) == Handled([], b) + ([Began(id)] + CarriedOut(b(id)));
  }

  lemma ReplyIsHandled(s: State, m: SomeIp.Message, b: Behaviour)
    requires !s.closed
    ensures HandledAll(s, OnReply(s, m, b), b)
  {
    hide HandledAll, Act;
    if IsReply(m) && m.header.sessionId in s.pending {
      var c := Delivered(s, m).completed[|s.completed|];
      OneHandler(s, Delivered(s, m), c.id, c.outcome, b);
    } else {
      HandledNone(s, OnReply(s, m, b), b);
    }
  }

  lemma {:induction false} RepliesAreHandled(s: State, datagrams: seq<seq<u8>>, b: Behaviour)
    ensures HandledAll(s, ReadReplies(s, datagrams, b), b)
    decreases |datagrams|
  {
    hide HandledAll, OnReply, SomeIp.Deserialize;
    if datagrams == [] || s.closed {
      HandledNone(s, s, b);
    } else {
      match SomeIp.Deserialize(datagrams[0])
      case None => RepliesAreHandled(s, datagrams[1..], b);
      case Some(m) =>
        ReplyIsHandled(s, m, b);
        RepliesAreHandled(OnReply(s, m, b), datagrams[1..], b);
        HandledBoth(s, OnReply(s, m, b), ReadReplies(s, datagrams, b), b);
    }
  }

  lemma {:induction false} WalkIsHandled(s: State, sessions: seq<u16>, why: Reason, b: Behaviour)
    ensures HandledAll(s, FailEach(s, sessions, why, b), b)
    decreases |sessions|
  {
    hide HandledAll, Act;
    if sessions == [] || s.closed {
      HandledNone(s, s, b);
    } else if sessions[0] !in s.pending {
      WalkIsHandled(s, sessions[1..], why, b);
    } else {
      var mid := FailOne(s, sessions[0], why, b);
      OneHandler(s, GivenUp(s, sessions[0], why), s.pending[sessions[0]].id, Failed(FailureOf(why), SomeIp.OK), b);
      WalkIsHandled(mid, sessions[1..], why, b);
      HandledBoth(s, mid, FailEach(s, sessions, why, b), b);
    }
  }

  lemma {:induction false} TasksAreHandled(s: State, due: seq<Task>, b: Behaviour)
    ensures HandledAll(s, RunTasks(s, due, b), b)
    decreases |due|
  {
    hide HandledAll, Act;
    if due == [] {
      HandledNone(s, s, b);
    } else {
      var mid := RunTask(s, due[0], b);
      if s.closed {
        HandledNone(s, mid, b);
      } else {
        OneHandler(s, Reported(s, due[0]), due[0].id, Failed(due[0].failure, SomeIp.OK), b);
      }
      TasksAreHandled(mid, due[1..], b);
      HandledBoth(s, mid, RunTasks(s, due, b), b);
    }
  }

  // ---- events ------------------------------------------------------------------------------

  /** The change is made and counted. */
  function Changed(s: State, up: bool): State {
    s.(available := up,
       stats := s.stats.(becameAvailable := s.stats.becameAvailable + if up then 1 else 0,
                         becameUnavailable := s.stats.becameUnavailable + if up then 0 else 1))
  }

  /** A change of availability: the handlers of the calls that it fails, then the listener, unless one of
      those handlers destroyed the proxy; no change, nothing. */
  predicate ChangeDoes(s: State, t: State, up: bool, b: Behaviour, listener: seq<Action>) {
    if s.closed || up == s.available then t == s
    else
      && s.completed <= t.completed && (up ==> t.completed == s.completed)
      && var failed := Handled(t.completed[|s.completed|..], b);
         || (Does(Changed(s, up), t, failed) && t.closed)
         || Does(Changed(s, up), t, failed + ([Heard(up)] + CarriedOut(listener)))
  }

  lemma ListenerActs(s: State, up: bool, listener: seq<Action>)
    requires !s.closed
    ensures Does(s, Listen(s, up, listener), [Heard(up)] + CarriedOut(listener))
    ensures Listen(s, up, listener).completed == s.completed
  {
    if Linked(s) { OtherDeedStaysLinked(s, Telling(s, up), Heard(up)); }
    assert Does(s, Telling(s, up), [Heard(up)]);
    ActCarriesOut(Telling(s, up), listener);
    hide Does, Act;
    DoesBoth(s, Telling(s, up), Listen(s, up, listener), [Heard(up)], CarriedOut(listener));
  }

  lemma ChangeIsHandled(s: State, up: bool, b: Behaviour, listener: seq<Action>)
    ensures ChangeDoes(s, OnAvailabilityChanged(s, up, b, listener), up, b, listener)
  {
    if s.closed || up == s.available {
    } else {
      var marked, t := Marked(s, up), OnAvailabilityChanged(s, up, b, listener);
      var mid := if up then marked else FailAll(marked, b);
      assert marked == Changed(s, up);
      hide FailEach, AllSessions, Listen, Handled, CarriedOut, Does;
      if up {
        ListenerActs(marked, up, listener);
        assert t.completed[|s.completed|..] == [];
        NoneHandled(b);
        assert [] + ([Heard(up)] + CarriedOut(listener)) == [Heard(up)] + CarriedOut(listener);
      } else {
        WalkIsHandled(marked, AllSessions(marked.pending), Gone, b);
        if mid.closed {
          ClosedListensNot(mid, up, listener);
        } else {
          ListenerActs(mid, up, listener);
          DoesBoth(marked, mid, t, Handled(t.completed[|s.completed|..], b), [Heard(up)] + CarriedOut(listener));
        }
      }
    }
  }

  lemma NoneHandled(b: Behaviour)
    ensures Handled([], b) == []
  {
  }

  lemma ClosedListensNot(s: State, up: bool, listener: seq<Action>)
    requires s.closed
    ensures Listen(s, up, listener) == s
  {
  }

  /** What is done in one event, and nothing else: a call or a destruction by the application itself; else
      the handlers of the calls that complete in it, in the order in which they complete, each with all its
      actions; and the listener on a change of availability, which is made and counted first. */
  lemma StepIsHandled(s: State, e: Event, b: Behaviour)
    ensures var t := Step(s, e, b);
            match e
            case Calls(r) => Does(s, t, if s.closed then [] else [Did(DoCall(r))]) && t.completed == s.completed
            case Destroyed => Does(s, t, if s.closed then [] else [Did(DoDestroy)]) && t.completed == s.completed
            case Availability(up, listener) => ChangeDoes(s, t, up, b, listener)
            case _ => HandledAll(s, t, b)
  {
    hide Does, HandledAll, ChangeDoes, Call, ReadReplies, FailEach, OnAvailabilityChanged, RunTasks, PendingIds;
    match e
    case Calls(r) => if s.closed { DoesNothing(s, s); } else { CallDoes(s, r); }
    case Replies(ds) => RepliesAreHandled(s, ds, b);
    case Tick(now) => WalkIsHandled(s, ExpiredSessions(s.pending, now, s.config.timeout), TimedOut, b);
    case Availability(up, listener) => ChangeIsHandled(s, up, b, listener);
    case Posted =>
      var swapped := s.(posted := []);
      HandledNone(s, swapped, b);
      TasksAreHandled(swapped, s.posted, b);
      HandledBoth(s, swapped, RunTasks(swapped, s.posted, b), b);
    case Destroyed => if s.closed { DoesNothing(s, s); } else { CloseDoes(s); }
  }

  /** Over any run exactly the calls that were done were made, in that order. */
  lemma {:induction false} RunStaysLinked(s: State, events: seq<Event>, b: Behaviour)
    requires Linked(s)
    ensures Linked(Run(s, events, b))
    decreases |events|
  {
    hide Step, Linked, ChangeDoes, HandledAll;
    if events == [] {
    } else {
      StepIsHandled(s, events[0], b);
      StepLinks(s, Step(s, events[0], b), events[0], b);
      RunStaysLinked(Step(s, events[0], b), events[1..], b);
    }
  }

  lemma StepLinks(s: State, t: State, e: Event, b: Behaviour)
    requires Linked(s)
    requires match e
             case Calls(r) => Does(s, t, if s.closed then [] else [Did(DoCall(r))])
             case Destroyed => Does(s, t, if s.closed then [] else [Did(DoDestroy)])
             case Availability(up, listener) => ChangeDoes(s, t, up, b, listener)
             case _ => HandledAll(s, t, b)
    ensures Linked(t)
  {
    if e.Availability? { ChangedStaysLinked(s, e.up); }
    hide Linked, Handled, CarriedOut;
  }

  lemma ChangedStaysLinked(s: State, up: bool)
    requires Linked(s)
    ensures Linked(Changed(s, up))
  {
    hide Requests;
  }

  // ---- replies, byte by byte ---------------------------------------------------------------

  /** A reply completes the call that waits under its session id, if there is one: with the server's code
      if it is an error, refused if it is of another version, else with its payload. A reply that finds
      no call is counted as late; anything else changes nothing. */
  predicate Reacts(s: State, t: State, m: SomeIp.Message, b: Behaviour) {
    var reply := m.header.kind == SomeIp.Response || m.header.kind == SomeIp.Error;
    if reply && m.header.sessionId in s.pending then
      && HandledAll(s, t, b)
      && |t.completed| == |s.completed| + 1
      && t.completed[|s.completed|].id == s.pending[m.header.sessionId].id
      && t.completed[|s.completed|].outcome ==
           (if m.header.kind == SomeIp.Error then Failed(Remote, m.header.code)
            else if m.header.interfaceVersion != s.config.interfaceVersion then Failed(WrongInterfaceVersion, 0x00)
            else Value(m.payload))
    else t == s.(stats := s.stats.(lateReplies := s.stats.lateReplies + if reply then 1 else 0))
  }

  lemma OnReplyReacts(s: State, m: SomeIp.Message, b: Behaviour)
    requires !s.closed
    ensures Reacts(s, OnReply(s, m, b), m, b)
  {
    ReplyIsHandled(s, m, b);
    hide Act, HandledAll;
    if IsReply(m) && m.header.sessionId in s.pending {
      var outcome := DeliveredFinishes(s, m);
      OneHandler(s, Delivered(s, m), s.pending[m.header.sessionId].id, outcome, b);
      hide Delivered;
    }
  }

  /** What a datagram completes, by its bytes: type 0x81 is the server's error with its code, a type 0x80 of
      another interface version is refused, any other type 0x80 is the value behind the header. */
  function OutcomeOf(d: seq<u8>, version: u8): Outcome
    requires |d| >= 16
  {
    if d[14] == 0x81 then Failed(Remote, d[15])
    else if d[13] != version then Failed(WrongInterfaceVersion, 0x00)
    else Value(d[16..])
  }

  predicate IsReplyOnWire(d: seq<u8>)
    requires |d| >= 16
  {
    d[14] == 0x80 || d[14] == 0x81
  }

  function SessionOnWire(d: seq<u8>): int
    requires |d| >= 16
  {
    d[10] as int * 0x100 + d[11]
  }

  lemma FieldsOnWire(d: seq<u8>, m: SomeIp.Message, version: u8)
    requires SomeIp.OnWire(d, m.header, m.payload)
    ensures |d| >= 16 && SessionOnWire(d) == m.header.sessionId
    ensures IsReplyOnWire(d) <==> m.header.kind == SomeIp.Response || m.header.kind == SomeIp.Error
    ensures IsReplyOnWire(d) ==>
              OutcomeOf(d, version) == if m.header.kind == SomeIp.Error then Failed(Remote, m.header.code)
                                       else if m.header.interfaceVersion != version then Failed(WrongInterfaceVersion, 0x00)
                                       else Value(m.payload)
  {
  }

  /** A datagram that can be read completes the call that waits under the session id in its bytes 10 and
      11, if there is one and the datagram is a reply, with what its bytes say; that call's handler acts; and
      otherwise nothing completes, and the reply is counted as late. */
  lemma ReplyCompletes(s: State, d: seq<u8>, b: Behaviour)
    requires !s.closed && SomeIp.Deserialize(d).Some?
    ensures |d| >= 16
    ensures var t := ReadReplies(s, [d], b);
            if IsReplyOnWire(d) && SessionOnWire(d) in s.pending then
              && HandledAll(s, t, b) && |t.completed| == |s.completed| + 1
              && t.completed[|s.completed|] == Completion(s.pending[SessionOnWire(d)].id, OutcomeOf(d, s.config.interfaceVersion))
            else t == s.(stats := s.stats.(lateReplies := s.stats.lateReplies + if IsReplyOnWire(d) then 1 else 0))
  {
    var m := SomeIp.Deserialize(d).value;
    SomeIp.ReadExactlyFromTheWire(d, m);
    FieldsOnWire(d, m, s.config.interfaceVersion);
    OnReplyReacts(s, m, b);
    ReadsOne(s, d, b);
    hide SomeIp.Deserialize, SomeIp.OnWire, OnReply, ReadReplies, HandledAll, OutcomeOf, IsReplyOnWire, SessionOnWire;
  }

  lemma ReadsOne(s: State, d: seq<u8>, b: Behaviour)
    requires !s.closed && SomeIp.Deserialize(d).Some?
    ensures ReadReplies(s, [d], b) == OnReply(s, SomeIp.Deserialize(d).value, b)
  {
    hide SomeIp.Deserialize, OnReply;
    assert [d][1..] == [];
  }

  /** Datagrams are read one after the other. */
  lemma {:induction false} RepliesInTurn(s: State, x: seq<seq<u8>>, y: seq<seq<u8>>, b: Behaviour)
    ensures ReadReplies(s, x + y, b) == ReadReplies(ReadReplies(s, x, b), y, b)
    decreases |x|
  {
    hide OnReply, SomeIp.Deserialize;
    if x == [] {
      assert x + y == y;
    } else {
      assert (x + y)[0] == x[0] && (x + y)[1..] == x[1..] + y;
      if s.closed {
      } else {
        match SomeIp.Deserialize(x[0])
        case None => RepliesInTurn(s, x[1..], y, b);
        case Some(m) => RepliesInTurn(OnReply(s, m, b), x[1..], y, b);
      }
    }
  }
}

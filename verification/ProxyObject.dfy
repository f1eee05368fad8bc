/** The proxy as the source writes it: one object whose table, queue, flags and counters change in
    place. Each method is proved to do what its function in `ProxySpec` says. */
module ProxyObject {
  import opened Wrappers
  import opened Bytes
  import S = ProxySpec
  import Decisions = ProxyDecisions
  import Handlers = ProxyHandlers
  import SomeIp

  class Proxy {
    const config: S.Config
    const sessions: SomeIp.SessionCounter
    var pending: map<u16, S.Pending>
    /** This proxy's tasks in the runtime's queue. */
    var posted: seq<S.Task>
    var isAvailable: bool
    var closed: bool
    var stats: S.Stats
    ghost var asked: seq<S.Asked>
    ghost var completed: seq<S.Completion>
    ghost var sent: seq<S.Sent>
    ghost var unserialisable: nat
    ghost var cancelled: set<S.CallId>
    ghost var silenced: seq<S.Task>
    ghost var deeds: seq<S.Deed>

    ghost predicate Valid()
      reads this, sessions
    {
      sessions.Valid()
    }

    ghost function Now(): S.State
      reads this, sessions
    {
      S.State(config, sessions.issued, pending, posted, isAvailable, closed, stats,
              asked, completed, sent, unserialisable, cancelled, silenced, deeds)
    }

    constructor (config: S.Config)
      ensures Valid() && fresh(sessions)
      ensures Now() == S.Started(config)
    {
      this.config := config;
      sessions := new SomeIp.SessionCounter();
      pending, posted := map[], [];
      isAvailable, closed := config.fixedMethod.Some?, false;
      stats := S.NoStats();
      asked, completed, sent, unserialisable, cancelled, silenced, deeds := [], [], [], 0, {}, [], [];
    }

    method PostFailure(id: S.CallId, failure: S.Failure)
      requires Valid()
      modifies this`posted
      ensures Now() == S.Post(old(Now()), id, failure)
    {
      posted := posted + [S.Fail(id, failure)];
    }

    method Call(r: S.Request)
      requires Valid() && !closed
      modifies this, sessions
      ensures Valid() && Now() == S.Call(old(Now()), r)
      ensures completed == old(completed)
      ensures forall f :: posted == old(posted) + [S.Fail(old(stats).calls, f)]
                          <==> Decisions.Refused(config, Decisions.Meets(old(Now()), r), f)
      ensures Decisions.Left(old(Now()), Now(), r) <==> Decisions.Goes(config, Decisions.Meets(old(Now()), r))
    {
      Decisions.CallDecides(Now(), r);
      hide Decisions.Refused, Decisions.Goes, Decisions.Left, Decisions.Meets;
      hide S.Transmit, SomeIp.SessionAt;
      var id := stats.calls;
      asked := asked + [S.Asked(r, isAvailable, |pending|, SomeIp.SessionAt(sessions.issued + 1) in pending)];
      deeds := deeds + [S.Did(S.DoCall(r))];
      stats := stats.(calls := stats.calls + 1);
      ghost var noted := S.Noted(old(Now()), r);
      assert Now() == noted;
      assert noted.stats.notAvailable == old(stats).notAvailable && noted.stats.busy == old(stats).busy;
      hide S.Noted;
      var endpoint: Option<S.Endpoint> := None;
      if isAvailable {
        endpoint := if config.fixedMethod.Some? then config.fixedMethod else r.registered;
      }
      if endpoint.None? {
        stats := stats.(notAvailable := stats.notAvailable + 1);
        PostFailure(id, S.NotAvailable);
        return;
      }
      if |pending| >= config.maxPending {
        stats := stats.(busy := stats.busy + 1);
        PostFailure(id, S.Busy);
        return;
      }
      Transmit(r, id, endpoint.value);
    }

    method Transmit(r: S.Request, id: S.CallId, to: S.Endpoint)
      requires Valid()
      modifies this, sessions
      ensures Valid() && Now() == S.Transmit(old(Now()).(issued := old(Now()).issued + 1), r, id, to)
      ensures completed == old(completed)
    {
      hide SomeIp.SessionAt, SomeIp.Serialize;
      var session := sessions.Next();
      ghost var taken := old(Now()).(issued := old(Now()).issued + 1);
      assert Now() == taken;
      var header := SomeIp.Header(config.serviceId, r.methodId, config.clientId, session,
                                  config.interfaceVersion, SomeIp.Request, SomeIp.OK);
      assert header == S.RequestHeader(Now(), r, session);
      if session in pending {
        stats := stats.(busy := stats.busy + 1);
        PostFailure(id, S.Busy);
        return;
      }
      var ok, wire := SomeIp.SerializeInto(header, r.payload);
      if !ok {
        unserialisable := unserialisable + 1;
        PostFailure(id, S.Malformed);
        return;
      }
      if !r.sendOk {
        stats := stats.(notAvailable := stats.notAvailable + 1);
        PostFailure(id, S.NotAvailable);
        return;
      }
      pending := pending[session := S.Pending(id, r.now)];
      sent := sent + [S.Sent(id, sessions.issued, wire, to)];
    }

    method Close()
      requires Valid()
      modifies this
      ensures Valid() && Now() == S.Close(old(Now()))
    {
      if closed {
        return;
      }
      closed := true;
      deeds := deeds + [S.Did(S.DoDestroy)];
      cancelled := cancelled + S.PendingIds(pending);
      pending := map[];
    }

    /** The call is out of the table before its handler runs. */
    method Take(session: u16) returns (call: Option<S.Pending>)
      requires Valid()
      modifies this`pending
      ensures call == if session in old(pending) then Some(old(pending)[session]) else None
      ensures pending == old(pending) - {session}
    {
      if session !in pending {
        assert pending - {session} == pending;
        return None;
      }
      call := Some(pending[session]);
      pending := pending - {session};
    }

    /** What the application does, one action after the other. */
    method Perform(actions: seq<S.Action>)
      requires Valid()
      modifies this, sessions
      ensures Valid() && Now() == S.Act(old(Now()), actions)
    {
      assert actions[0..] == actions;
      var i := 0;
      while i < |actions| && !closed
        invariant 0 <= i <= |actions| && Valid()
        invariant S.Act(Now(), actions[i..]) == S.Act(old(Now()), actions)
      {
        assert actions[i..][1..] == actions[i + 1..];
        match actions[i] {
          case DoCall(r) => Call(r);
          case DoDestroy => Close();
        }
        i := i + 1;
      }
    }

    method RunHandler(id: S.CallId, outcome: S.Outcome, behaviour: S.Behaviour)
      requires Valid()
      modifies this, sessions
      ensures Valid() && Now() == S.Act(S.Begin(old(Now()), id, outcome), behaviour(id))
    {
      completed := completed + [S.Completion(id, outcome)];
      deeds := deeds + [S.Began(id)];
      Perform(behaviour(id));
    }

    /** What a waiting call is told. */
    method Complete(call: S.Pending, m: SomeIp.Message, behaviour: S.Behaviour)
      requires Valid()
      modifies this, sessions
      ensures Valid() && Now() == S.Act(S.Replied(old(Now()), call.id, m), behaviour(call.id))
    {
      hide S.Act;
      if m.header.kind == SomeIp.Error {
        stats := stats.(remoteErrors := stats.remoteErrors + 1);
        RunHandler(call.id, S.Failed(S.Remote, m.header.code), behaviour);
        return;
      }
      if m.header.interfaceVersion != config.interfaceVersion {
        stats := stats.(remoteErrors := stats.remoteErrors + 1);
        RunHandler(call.id, S.Failed(S.WrongInterfaceVersion, SomeIp.OK), behaviour);
        return;
      }
      stats := stats.(answered := stats.answered + 1);
      RunHandler(call.id, S.Value(m.payload), behaviour);
    }

    method OnReply(m: SomeIp.Message, behaviour: S.Behaviour)
      requires Valid()
      modifies this, sessions
      ensures Valid() && Now() == S.OnReply(old(Now()), m, behaviour)
      ensures !old(closed) ==> Handlers.Reacts(old(Now()), Now(), m, behaviour)
    {
      if !closed { Handlers.OnReplyReacts(Now(), m, behaviour); }
      hide S.Act, S.Replied, Handlers.Reacts;
      if m.header.kind != SomeIp.Response && m.header.kind != SomeIp.Error {
        return;
      }
      var call := Take(m.header.sessionId);
      if call.None? {
        assert pending == old(pending);
        stats := stats.(lateReplies := stats.lateReplies + 1);
        return;
      }
      Complete(call.value, m, behaviour);
    }

    method ReadReplies(datagrams: seq<seq<u8>>, behaviour: S.Behaviour)
      requires Valid()
      modifies this, sessions
      ensures Valid() && Now() == S.ReadReplies(old(Now()), datagrams, behaviour)
    {
      assert datagrams[0..] == datagrams;
      var i := 0;
      while i < |datagrams| && !closed
        invariant 0 <= i <= |datagrams| && Valid()
        invariant S.ReadReplies(Now(), datagrams[i..], behaviour) == S.ReadReplies(old(Now()), datagrams, behaviour)
      {
        assert datagrams[i..][1..] == datagrams[i + 1..];
        var message := SomeIp.Deserialize(datagrams[i]);
        if message.Some? {
          OnReply(message.value, behaviour);
        }
        i := i + 1;
      }
    }

    /** The loop both walks share: a listed call may be gone by the time its turn comes. */
    method FailListed(listed: seq<u16>, why: S.Reason, behaviour: S.Behaviour)
      requires Valid()
      modifies this, sessions
      ensures Valid() && Now() == S.FailEach(old(Now()), listed, why, behaviour)
    {
      assert listed[0..] == listed;
      var i := 0;
      while i < |listed|
        invariant 0 <= i <= |listed| && Valid()
        invariant S.FailEach(Now(), listed[i..], why, behaviour) == S.FailEach(old(Now()), listed, why, behaviour)
      {
        if closed {
          return;
        }
        assert listed[i..][1..] == listed[i + 1..];
        ghost var was := pending;
        var call := Take(listed[i]);
        if call.Some? {
          stats := S.Charge(stats, why);
          RunHandler(call.value.id, S.Failed(S.FailureOf(why), SomeIp.OK), behaviour);
        } else {
          assert pending == was;
        }
        i := i + 1;
      }
    }

    method CheckTimeouts(now: int, behaviour: S.Behaviour)
      requires Valid()
      modifies this, sessions
      ensures Valid() && Now() == S.CheckTimeouts(old(Now()), now, behaviour)
    {
      var expired: seq<u16> := [];
      for k := 0 to 0x1_0000
        invariant expired == S.ExpiredBelow(pending, now, config.timeout, k)
        invariant Valid() && Now() == old(Now())
      {
        if k in pending && now - pending[k].sentAt > config.timeout {
          expired := expired + [k];
        }
      }
      FailListed(expired, S.TimedOut, behaviour);
    }

    method FailAll(behaviour: S.Behaviour)
      requires Valid()
      modifies this, sessions
      ensures Valid() && Now() == S.FailAll(old(Now()), behaviour)
    {
      var doomed: seq<u16> := [];
      for k := 0 to 0x1_0000
        invariant doomed == S.SessionsBelow(pending, k)
        invariant Valid() && Now() == old(Now())
      {
        if k in pending {
          doomed := doomed + [k];
        }
      }
      FailListed(doomed, S.Gone, behaviour);
    }

    method OnAvailabilityChanged(available: bool, behaviour: S.Behaviour, listener: seq<S.Action>)
      requires Valid()
      modifies this, sessions
      ensures Valid() && Now() == S.OnAvailabilityChanged(old(Now()), available, behaviour, listener)
    {
      hide S.FailAll, S.Act;
      if closed || available == isAvailable {
        return;
      }
      isAvailable := available;
      if available {
        stats := stats.(becameAvailable := stats.becameAvailable + 1);
      } else {
        stats := stats.(becameUnavailable := stats.becameUnavailable + 1);
        FailAll(behaviour);
      }
      if !closed {
        deeds := deeds + [S.Heard(available)];
        Perform(listener);
      }
    }

    method RunPosted(behaviour: S.Behaviour)
      requires Valid()
      modifies this, sessions
      ensures Valid() && Now() == S.RunPosted(old(Now()), behaviour)
    {
      var due := posted;
      posted := [];
      assert due[0..] == due;
      var i := 0;
      while i < |due|
        invariant 0 <= i <= |due| && Valid()
        invariant S.RunTasks(Now(), due[i..], behaviour) == S.RunPosted(old(Now()), behaviour)
      {
        assert due[i..][1..] == due[i + 1..];
        if !closed {
          RunHandler(due[i].id, S.Failed(due[i].failure, SomeIp.OK), behaviour);
        } else {
          silenced := silenced + [due[i]];
        }
        i := i + 1;
      }
    }
  }
}

/** Which calls are refused, and with what; and what goes on the wire for the others. */
module ProxyDecisions {
  import opened Wrappers
  import opened Bytes
  import opened ProxySpec
  import SomeIp

  /** The service is not there, or nobody knows where. */
  predicate Away(c: Config, a: Asked) { !a.available || (c.fixedMethod.None? && a.request.registered.None?) }

  /** As many calls wait as may wait, or one of them under the next session id. */
  predicate Crowded(c: Config, a: Asked) { a.waiting >= c.maxPending || a.taken }

  /** The length field cannot count the request. */
  predicate TooLong(a: Asked) { 8 + |a.request.payload| > 0xFFFF_FFFF }

  predicate Refused(c: Config, a: Asked, f: Failure) {
    match f
    case NotAvailable => Away(c, a) || (!Crowded(c, a) && !TooLong(a) && !a.request.sendOk)
    case Busy => !Away(c, a) && Crowded(c, a)
    case Malformed => !Away(c, a) && !Crowded(c, a) && TooLong(a)
    case _ => false
  }

  predicate Goes(c: Config, a: Asked) { !Away(c, a) && !Crowded(c, a) && !TooLong(a) && a.request.sendOk }

  /** Every call either goes out or is refused for one reason. */
  lemma OneVerdict(c: Config, a: Asked)
    ensures Goes(c, a) <==> forall f :: !Refused(c, a, f)
    ensures forall f, g :: Refused(c, a, f) && Refused(c, a, g) ==> f == g
  {
    assert !Goes(c, a) ==> Refused(c, a, NotAvailable) || Refused(c, a, Busy) || Refused(c, a, Malformed);
  }

  /** The datagram of a call, byte by byte, and where it goes: to the fixed endpoint if there is one, else
      to the one that discovery knew. */
  predicate Carried(c: Config, a: Asked, x: Sent) {
    && x.index >= 1
    && Some(x.to) == (if c.fixedMethod.Some? then c.fixedMethod else a.request.registered)
    && SomeIp.OnWire(x.wire, SomeIp.Header(c.serviceId, a.request.methodId, c.clientId, (x.index - 1) % 65535 + 1,
                                           c.interfaceVersion, SomeIp.Request, 0x00), a.request.payload)
  }

  /** What the call meets when it is made. */
  function Meets(s: State, r: Request): Asked {
    Asked(r, s.available, |s.pending|, s.issued % 65535 + 1 in s.pending)
  }

  /** One more datagram, for one more waiting call. */
  predicate Left(s: State, t: State, r: Request) {
    && t.posted == s.posted && t.pending == s.pending[s.issued % 65535 + 1 := Pending(s.stats.calls, r.now)]
    && |t.sent| == |s.sent| + 1 && s.sent <= t.sent
    && t.sent[|s.sent|].id == s.stats.calls && t.sent[|s.sent|].index == s.issued + 1
    && Carried(s.config, Meets(s, r), t.sent[|s.sent|])
  }

  predicate Stayed(s: State, t: State) { t.pending == s.pending && t.sent == s.sent }

  predicate Counts(s: State, t: State, f: Failure) {
    && t.stats == s.stats.(calls := s.stats.calls + 1,
                           notAvailable := s.stats.notAvailable + if f == NotAvailable then 1 else 0,
                           busy := s.stats.busy + if f == Busy then 1 else 0)
    && t.unserialisable == s.unserialisable + if f == Malformed then 1 else 0
  }

  /** What every call does; a session id is used up unless the service is away or the table full. */
  predicate Recorded(s: State, t: State, r: Request) {
    && t.asked == s.asked + [Meets(s, r)] && t.deeds == s.deeds + [Did(DoCall(r))]
    && t.issued == s.issued + (if Away(s.config, Meets(s, r)) || |s.pending| >= s.config.maxPending then 0 else 1)
    && t.completed == s.completed && t.config == s.config && t.available == s.available && t.closed == s.closed
    && t.cancelled == s.cancelled && t.silenced == s.silenced && t.stats.calls == s.stats.calls + 1
    && t.stats.becameAvailable == s.stats.becameAvailable && t.stats.becameUnavailable == s.stats.becameUnavailable
  }

  lemma CallIsRecorded(s: State, r: Request)
    ensures Recorded(s, Call(s, r), r)
  {
    NextSession(s);
    hide SomeIp.SessionAt, Transmit;
    var endpoint := if s.available then MethodEndpoint(s, r.registered) else None;
    if endpoint.Some? { TransmitKeeps(Noted(s, r).(issued := s.issued + 1), r, s.stats.calls, endpoint.value); }
  }

  lemma TransmitKeeps(s: State, r: Request, id: CallId, to: Endpoint)
    requires s.issued >= 1
    ensures var t := Transmit(s, r, id, to);
            && t.asked == s.asked && t.deeds == s.deeds && t.issued == s.issued && t.completed == s.completed
            && t.config == s.config && t.available == s.available && t.closed == s.closed
            && t.cancelled == s.cancelled && t.silenced == s.silenced && t.stats.calls == s.stats.calls
            && t.stats.becameAvailable == s.stats.becameAvailable && t.stats.becameUnavailable == s.stats.becameUnavailable
  {
    hide SomeIp.Serialize, SomeIp.SessionAt;
  }

  lemma NextSession(s: State)
    ensures SomeIp.SessionAt(s.issued + 1) == s.issued % 65535 + 1
  {
  }

  lemma GoingCallIs(s: State, r: Request, session: u16)
    requires Goes(s.config, Meets(s, r)) && session == SomeIp.SessionAt(s.issued + 1) == s.issued % 65535 + 1
    ensures var wire := SomeIp.Serialize(RequestHeader(s, r, session), r.payload);
            && wire.Some?
            && Call(s, r) == Noted(s, r).(issued := s.issued + 1, pending := s.pending[session := Pending(s.stats.calls, r.now)],
                 sent := s.sent + [Sent(s.stats.calls, s.issued + 1, wire.value, MethodEndpoint(s, r.registered).value)])
  {
    SomeIp.SerializedOnWire(RequestHeader(s, r, session), r.payload);
    hide SomeIp.Serialize, SomeIp.OnWire, SomeIp.SessionAt;
  }

  lemma GoingCallLeaves(s: State, r: Request)
    requires Goes(s.config, Meets(s, r))
    ensures Left(s, Call(s, r), r)
    ensures Call(s, r).stats == s.stats.(calls := s.stats.calls + 1) && Call(s, r).unserialisable == s.unserialisable
  {
    var session := SomeIp.SessionAt(s.issued + 1);
    NextSession(s);
    GoingCallIs(s, r, session);
    SomeIp.SerializedOnWire(RequestHeader(s, r, session), r.payload);
    hide SomeIp.Serialize, SomeIp.OnWire, SomeIp.SessionAt, Call;
  }

  lemma RefusedCallIsQueued(s: State, r: Request, f: Failure)
    requires Refused(s.config, Meets(s, r), f)
    ensures Call(s, r).posted == s.posted + [Fail(s.stats.calls, f)]
    ensures Stayed(s, Call(s, r)) && Counts(s, Call(s, r), f)
  {
    NextSession(s);
    hide SomeIp.SessionAt, Transmit;
    if !Away(s.config, Meets(s, r)) && |s.pending| < s.config.maxPending {
      TransmitQueues(s, r, f, MethodEndpoint(s, r.registered).value);
    }
  }

  lemma TransmitQueues(s: State, r: Request, f: Failure, to: Endpoint)
    requires Refused(s.config, Meets(s, r), f) && !Away(s.config, Meets(s, r)) && |s.pending| < s.config.maxPending
    ensures var t := Transmit(Noted(s, r).(issued := s.issued + 1), r, s.stats.calls, to);
            t.posted == s.posted + [Fail(s.stats.calls, f)] && Stayed(s, t) && Counts(s, t, f)
  {
    SomeIp.SerializedOnWire(RequestHeader(s, r, SomeIp.SessionAt(s.issued + 1)), r.payload);
    NextSession(s);
    hide SomeIp.Serialize, SomeIp.OnWire, SomeIp.SessionAt;
  }

  /** A call is queued with a failure exactly if it is refused for it; it leaves and waits exactly if it
      is not refused. Either way no handler starts. */
  lemma CallDecides(s: State, r: Request)
    ensures Recorded(s, Call(s, r), r)
    ensures forall f :: Call(s, r).posted == s.posted + [Fail(s.stats.calls, f)] <==> Refused(s.config, Meets(s, r), f)
    ensures forall f :: Refused(s.config, Meets(s, r), f) ==> Stayed(s, Call(s, r)) && Counts(s, Call(s, r), f)
    ensures Left(s, Call(s, r), r) <==> Goes(s.config, Meets(s, r))
  {
    hide Call, Refused, Goes, Recorded, Stayed, Counts, Carried, Meets;
    CallIsRecorded(s, r);
    OneVerdict(s.config, Meets(s, r));
    if Goes(s.config, Meets(s, r)) {
      GoingCallLeaves(s, r);
    } else {
      var f :| Refused(s.config, Meets(s, r), f);
      RefusedCallIsQueued(s, r, f);
      assert Call(s, r).posted[|s.posted|] == Fail(s.stats.calls, f);
    }
  }
}

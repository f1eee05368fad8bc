/** When does a call find its session id taken? Not only when 65535 calls wait. */
module TakenSession {
  import opened Wrappers
  import opened Bytes
  import opened ProxySpec
  import opened ProxyDecisions
  import opened RpcSystem
  import SomeIp

  /** The call that this datagram belongs to still waits. */
  predicate StillWaits(s: State, x: Sent)
    requires x.index >= 1
  {
    SomeIp.SessionAt(x.index) in s.pending && s.pending[SomeIp.SessionAt(x.index)].id == x.id
  }

  /** A call that waits has taken its id a multiple of 65535 ids ago. */
  predicate InTheWay(s: State, i: nat) {
    && i < |s.sent| && s.sent[i].index >= 1 && StillWaits(s, s.sent[i])
    && (s.issued + 1 - s.sent[i].index) % 65535 == 0
  }

  lemma TakenIfInTheWay(s: State, i: nat)
    requires Wired(s) && InTheWay(s, i)
    ensures SomeIp.SessionAt(s.issued + 1) in s.pending
  {
    var x := s.sent[i];
    assert Carries(s.config, x, s.asked) && x.index <= s.issued;
    hide Carries, SomeIp.SessionAt;
    SomeIp.SessionsRepeatEvery65535(x.index, s.issued + 1);
  }

  lemma InTheWayIfTaken(s: State) returns (i: nat)
    requires Wired(s) && SomeIp.SessionAt(s.issued + 1) in s.pending
    ensures InTheWay(s, i)
  {
    hide SomeIp.SessionAt, Carries;
    var k := SomeIp.SessionAt(s.issued + 1);
    forall j | 0 <= j < |s.sent| ensures s.sent[j].index >= 1 {
      CarriesHasIndex(s.config, s.sent[j], s.asked);
    }
    i := LastIsSent(s.sent, k);
    assert Carries(s.config, s.sent[i], s.asked) && s.sent[i].index <= s.issued;
    SomeIp.SessionsRepeatEvery65535(s.sent[i].index, s.issued + 1);
  }

  lemma CarriesHasIndex(c: Config, x: Sent, asked: seq<Asked>)
    requires Carries(c, x, asked)
    ensures x.index >= 1
  {
  }

  lemma {:induction false} LastIsSent(sent: seq<Sent>, k: u16) returns (i: nat)
    requires (forall j :: 0 <= j < |sent| ==> sent[j].index >= 1) && LastFor(sent, k).Some?
    ensures i < |sent| && LastFor(sent, k) == Some(sent[i]) && SomeIp.SessionAt(sent[i].index) == k
    decreases |sent|
  {
    hide SomeIp.SessionAt;
    if SomeIp.SessionAt(sent[|sent| - 1].index) == k {
      i := |sent| - 1;
    } else {
      i := LastIsSent(sent[..|sent| - 1], k);
    }
  }

  lemma {:induction false} RunStaysWired(s: State, events: seq<Event>, b: Behaviour)
    requires Wired(s)
    ensures Wired(Run(s, events, b))
    decreases |events|
  {
    hide Wired, Step, ReadReplies, Grew;
    if events == [] {
    } else {
      if events[0].Replies? {
        ReadingKeepsConfig(s, events[0].datagrams, b);
        StepReads(s, events[0], b);
      } else {
        StepStaysWired(s, events[0], b);
      }
      RunStaysWired(Step(s, events[0], b), events[1..], b);
    }
  }

  lemma StepReads(s: State, e: Event, b: Behaviour)
    requires e.Replies?
    ensures Step(s, e, b) == ReadReplies(s, e.datagrams, b)
  {
  }

  lemma StartedIsWired(config: Config)
    ensures Wired(Started(config))
  {
    hide Carries;
  }

  /** After any run: the next call meets a taken session id if and only if some waiting call took its own a
      multiple of 65535 ids before -- however few calls wait. */
  lemma TakenExactly(config: Config, events: seq<Event>, b: Behaviour, r: Request)
    ensures var s := Run(Started(config), events, b);
            Meets(s, r).taken <==> exists i: nat :: InTheWay(s, i)
  {
    hide Run, Wired, InTheWay, SomeIp.SessionAt;
    StartedIsWired(config);
    RunStaysWired(Started(config), events, b);
    var s := Run(Started(config), events, b);
    NextSession(s);
    if Meets(s, r).taken {
      var i := InTheWayIfTaken(s);
    }
    if i: nat :| InTheWay(s, i) {
      TakenIfInTheWay(s, i);
    }
  }

  // ---- one waiting call is enough ----------------------------------------------------------

  predicate Fits(r: Request) { 8 + |r.payload| <= 0xFFFF_FFFF }

  /** Call 0 waits under session id 1, and nothing else does. */
  predicate OneWaits(s: State, config: Config, n: nat) {
    && s.config == config && config.fixedMethod.Some? && config.maxPending >= 2 && s.available && !s.closed
    && s.pending.Keys == {1} && s.issued == n && 1 <= n < 65536
  }

  /** A call whose datagram the socket refuses uses up a session id. */
  lemma RefusedSend(s: State, config: Config, n: nat, r: Request)
    requires OneWaits(s, config, n) && n + 1 < 65536 && Fits(r) && !r.sendOk
    ensures OneWaits(Call(s, r), config, n + 1)
  {
    OneIsFew(s.pending);
    CallIsRecorded(s, r);
    RefusedCallIsQueued(s, r, NotAvailable);
    hide Call;
  }

  lemma OneIsFew(p: map<u16, Pending>)
    requires p.Keys == {1}
    ensures |p| == 1
  {
    assert |p| == |p.Keys|;
  }

  lemma {:induction false} RefusedSends(s: State, config: Config, n: nat, r: Request, b: Behaviour, k: nat) returns (events: seq<Event>)
    requires OneWaits(s, config, n) && n + k < 65536 && Fits(r) && !r.sendOk
    ensures OneWaits(Run(s, events, b), config, n + k)
    decreases k
  {
    if k == 0 {
      events := [];
    } else {
      RefusedSend(s, config, n, r);
      NowOpen(s, config, n);
      var rest := RefusedSends(Call(s, r), config, n + 1, r, b, k - 1);
      hide OneWaits, Call;
      events := [Calls(r)] + rest;
      RunsOneMore(s, r, rest, b);
    }
  }

  lemma NowOpen(s: State, config: Config, n: nat)
    requires OneWaits(s, config, n)
    ensures !s.closed
  {
  }

  lemma RunsOneMore(s: State, r: Request, rest: seq<Event>, b: Behaviour)
    requires !s.closed
    ensures Run(s, [Calls(r)] + rest, b) == Run(Call(s, r), rest, b)
  {
    hide Call;
    assert ([Calls(r)] + rest)[1..] == rest;
  }

  lemma FirstWaits(config: Config, r: Request)
    requires config.fixedMethod.Some? && config.maxPending >= 2 && Fits(r) && r.sendOk
    ensures OneWaits(Call(Started(config), r), config, 1)
  {
    CallIsRecorded(Started(config), r);
    GoingCallLeaves(Started(config), r);
    hide Call;
  }

  /** A run in which one call waits, 65534 further ones are refused by the socket, and the next one is
      refused as busy although the table has room. */
  lemma OneWaitingCallIsEnough(config: Config, first: Request, refused: Request, next: Request, b: Behaviour)
    returns (events: seq<Event>)
    requires config.fixedMethod.Some? && config.maxPending >= 2
    requires Fits(first) && first.sendOk && Fits(refused) && !refused.sendOk
    ensures var s := Run(Started(config), events, b);
            && |s.pending| == 1 < config.maxPending
            && Call(s, next).posted == s.posted + [Fail(s.stats.calls, Busy)]
  {
    FirstWaits(config, first);
    var rest := RefusedSends(Call(Started(config), first), config, 1, refused, b, 65534);
    events := [Calls(first)] + rest;
    hide Call, Run;
    RunsOneMore(Started(config), first, rest, b);
    var s := Run(Started(config), events, b);
    assert OneWaits(s, config, 65535);
    OneIsFew(s.pending);
    RefusedCallIsQueued(s, next, Busy);
  }
}

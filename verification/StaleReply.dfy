/** The bound on the age of a reply is sharp: one session id later, a reply can reach the wrong call. */
module StaleReply {
  import opened Wrappers
  import opened Bytes
  import opened ProxySpec
  import opened RpcSystem
  import SomeIp
  import Skeleton

  lemma {:induction false} ReachesBoth(u: World, xs: seq<Move>, b: Behaviour, v: World, ys: seq<Move>, w: World)
    requires Reaches(u, xs, b, v) && Reaches(v, ys, b, w)
    ensures Reaches(u, xs + ys, b, w)
    decreases |xs|
  {
    hide Next, Possible;
    if xs == [] {
      assert xs + ys == ys;
    } else {
      ReachesBoth(Next(u, xs[0], b), xs[1..], b, v, ys, w);
      assert (xs + ys)[0] == xs[0] && (xs + ys)[1..] == xs[1..] + ys;
    }
  }

  lemma ReachesOne(w: World, m: Move, b: Behaviour)
    requires Possible(w, m)
    ensures Reaches(w, [m], b, Next(w, m, b))
  {
    assert [m][1..] == [];
  }

  /** Nothing waits, and `n` session ids were taken. */
  predicate Quiet(p: State, config: Config, n: nat) {
    && p.config == config && config.fixedMethod.Some? && config.maxPending > 0
    && p.available && !p.closed && p.pending == map[] && p.issued == n
  }

  predicate Fits(r: Request) { |r.payload| <= SomeIp.MAX_PAYLOAD }

  /** A call whose datagram the socket refuses uses up a session id and nothing else. */
  lemma RefusedCall(p: State, config: Config, n: nat, r: Request)
    requires Quiet(p, config, n) && Fits(r) && !r.sendOk
    ensures var q := Call(p, r);
            && Quiet(q, config, n + 1) && q.completed == p.completed && q.sent == p.sent
            && q.stats.calls == p.stats.calls + 1
  {
    hide SomeIp.SessionAt;
  }

  /** Any number of such calls. */
  lemma {:induction false} RefusedCalls(w: World, config: Config, n: nat, r: Request, b: Behaviour, k: nat)
    returns (moves: seq<Move>, v: World)
    requires Quiet(w.proxy, config, n) && Fits(r) && !r.sendOk
    ensures Reaches(w, moves, b, v) && v == w.(proxy := v.proxy)
    ensures Quiet(v.proxy, config, n + k) && v.proxy.completed == w.proxy.completed && v.proxy.sent == w.proxy.sent
    ensures v.proxy.stats.calls == w.proxy.stats.calls + k
  {
    if k == 0 {
      moves, v := [], w;
    } else {
      var before, mid := RefusedCalls(w, config, n, r, b, k - 1);
      RefusedCall(mid.proxy, config, n + k - 1, r);
      v := mid.(proxy := Call(mid.proxy, r));
      moves := before + [Client(Calls(r))];
      hide Quiet, Call;
      ReachesOne(mid, Client(Calls(r)), b);
      ReachesBoth(w, before, b, mid, [Client(Calls(r))], v);
    }
  }

  /** A call that goes out is the only one waiting. */
  lemma SentCall(p: State, config: Config, n: nat, r: Request)
    requires Quiet(p, config, n) && Fits(r) && r.sendOk
    ensures var q, session := Call(p, r), SomeIp.SessionAt(n + 1);
            && q.config == config && q.available && !q.closed && q.completed == p.completed && q.issued == n + 1
            && q.pending == map[session := Pending(p.stats.calls, r.now)] && q.stats.calls == p.stats.calls + 1
            && |q.sent| == |p.sent| + 1 && q.sent[|p.sent|].id == p.stats.calls && q.sent[|p.sent|].index == n + 1
            && SomeIp.Serialize(RequestHeader(p, r, session), r.payload) == Some(q.sent[|p.sent|].wire)
  {
    hide SomeIp.SessionAt;
  }

  /** The one answer in the network: it belongs to call 0, and it is a success. */
  predicate Answered(w: World, session: u16, version: u8, answer: seq<u8>) {
    && |w.back| == 1 && w.back[0].id == 0 && w.back[0].index == 1
    && (forall i :: 0 <= i < |w.log| ==> w.log[i].id == 0)
    && var d := SomeIp.Deserialize(w.back[0].wire);
       && d.Some? && d.value.header.sessionId == session && d.value.header.kind == SomeIp.Response
       && d.value.header.interfaceVersion == version && d.value.payload == answer
  }

  /** The server answers the only request there is. */
  lemma ServerAnswers(w: World, r: Request, session: u16, answer: seq<u8>)
    requires |w.proxy.sent| == 1 && w.proxy.sent[0].id == 0 && w.proxy.sent[0].index == 1
    requires SomeIp.Serialize(RequestHeader(w.proxy, r, session), r.payload) == Some(w.proxy.sent[0].wire)
    requires w.config == Skeleton.Config(w.proxy.config.serviceId, w.proxy.config.interfaceVersion)
    requires r.methodId in w.methods && w.back == [] && w.log == [] && Fits(r) && |answer| <= SomeIp.MAX_PAYLOAD
    ensures var v := Serve(w, w.proxy.sent[0], Skeleton.Reply(SomeIp.OK, answer));
            v.proxy == w.proxy && v.config == w.config
            && Answered(v, session, w.proxy.config.interfaceVersion, answer)
  {
    hide SomeIp.Deserialize;
    var h := RequestHeader(w.proxy, r, session);
    SomeIp.RoundTrip(h, r.payload);
    SomeIp.RoundTrip(Skeleton.ReplyHeader(w.config, h, SomeIp.OK), answer);
  }

  /** The only waiting call times out, and its handler does nothing. */
  lemma TimesOut(p: State, session: u16, sentAt: int, now: int, b: Behaviour)
    requires p.config.fixedMethod.Some? && p.config.maxPending > 0 && p.available && !p.closed && b(0) == []
    requires p.pending == map[session := Pending(0, sentAt)] && now - sentAt > p.config.timeout
    ensures var q := CheckTimeouts(p, now, b);
            Quiet(q, p.config, p.issued) && q.stats.calls == p.stats.calls && q.sent == p.sent
  {
    OnlyOneExpires(p.pending, session, now, p.config.timeout, 0x1_0000);
    var q := FailOne(p, session, TimedOut, b);
    assert p.pending - {session} == map[];
    assert FailEach(p, [session], TimedOut, b) == FailEach(q, [], TimedOut, b) == q;
  }

  lemma {:induction false} OnlyOneExpires(p: map<u16, Pending>, session: u16, now: int, timeout: int, k: nat)
    requires k <= 0x1_0000 && session in p && p.Keys == {session} && Expired(p[session], now, timeout)
    ensures ExpiredBelow(p, now, timeout, k) == if session < k then [session] else []
  {
    if k == 0 {
    } else {
      OnlyOneExpires(p, session, now, timeout, k - 1);
    }
  }

  lemma AnswerStays(w: World, p: State, session: u16, version: u8, answer: seq<u8>)
    requires Answered(w, session, version, answer)
    ensures Answered(w.(proxy := p), session, version, answer)
  {
    hide SomeIp.Deserialize;
  }

  /** From the start to a proxy that has given up on call 0, whose answer is still on its way. */
  lemma AnswerIsDelayed(client: Config, first: Request, answer: seq<u8>, now: int, b: Behaviour)
    returns (moves: seq<Move>, w: World)
    requires client.fixedMethod.Some? && client.maxPending > 0 && b(0) == []
    requires Fits(first) && first.sendOk && |answer| <= SomeIp.MAX_PAYLOAD && now - first.now > client.timeout
    ensures Reaches(Fresh0(client, Skeleton.Config(client.serviceId, client.interfaceVersion)), moves, b, w)
    ensures Quiet(w.proxy, client, 1) && w.proxy.stats.calls == 1
    ensures Answered(w, SomeIp.SessionAt(1), client.interfaceVersion, answer)
  {
    hide SomeIp.SessionAt, SomeIp.Serialize, SomeIp.Deserialize, Call, Serve, CheckTimeouts, Fits, Answered;
    var w0 := Fresh0(client, Skeleton.Config(client.serviceId, client.interfaceVersion));
    var w1 := w0.(methods := {first.methodId});
    var w2 := w1.(proxy := Call(w1.proxy, first));
    SentCall(w1.proxy, client, 0, first);
    var handled := Skeleton.Reply(SomeIp.OK, answer);
    var w3 := Serve(w2, w2.proxy.sent[0], handled);
    ServerAnswers(w2, first, SomeIp.SessionAt(1), answer);
    w := w3.(proxy := CheckTimeouts(w3.proxy, now, b));
    TimesOut(w3.proxy, SomeIp.SessionAt(1), first.now, now, b);
    AnswerStays(w3, w.proxy, SomeIp.SessionAt(1), client.interfaceVersion, answer);
    moves := [Register(first.methodId)] + ([Client(Calls(first))] + ([ServerReceives(0, handled)] + [Client(Tick(now))]));
    assert w0.methods + {first.methodId} == w1.methods;
    assert Next(w0, Register(first.methodId), b) == w1 && Next(w1, Client(Calls(first)), b) == w2;
    assert Next(w2, ServerReceives(0, handled), b) == w3 && Next(w3, Client(Tick(now)), b) == w;
    hide Quiet, Next;
    ReachesOne(w0, Register(first.methodId), b);
    ReachesOne(w1, Client(Calls(first)), b);
    ReachesOne(w2, ServerReceives(0, handled), b);
    ReachesOne(w3, Client(Tick(now)), b);
    ReachesBoth(w2, [ServerReceives(0, handled)], b, w3, [Client(Tick(now))], w);
    ReachesBoth(w1, [Client(Calls(first))], b, w2, [ServerReceives(0, handled)] + [Client(Tick(now))], w);
    ReachesBoth(w0, [Register(first.methodId)], b, w1,
                [Client(Calls(first))] + ([ServerReceives(0, handled)] + [Client(Tick(now))]), w);
  }

  /** In a run in which the reply to the first call is delayed until 65535 later session ids were
      taken -- one more than `Fresh` allows -- it completes another call, with bytes that no handler
      ever returned for that call. */
  lemma AnOlderReplyReachesTheWrongCall(client: Config, first: Request, second: Request, answer: seq<u8>,
                                        now: int, b: Behaviour)
    returns (moves: seq<Move>, w: World)
    requires client.fixedMethod.Some? && client.maxPending > 0 && b(0) == []
    requires Fits(first) && first.sendOk && now - first.now > client.timeout && Fits(second) && second.sendOk
    requires |answer| <= SomeIp.MAX_PAYLOAD
    ensures Reaches(Fresh0(client, Skeleton.Config(client.serviceId, client.interfaceVersion)), moves, b, w)
    ensures |w.back| == 1 && w.back[0].id == 0 && w.proxy.issued == w.back[0].index + SomeIp.SESSIONS
    ensures var t := ReadReplies(w.proxy, [w.back[0].wire], b);
            && |t.completed| == |w.proxy.completed| + 1
            && t.completed[|w.proxy.completed|] == Completion(65535, Value(answer))
    ensures !WasHandled(w.log, 65535, answer)
  {
    var moves1, w1 := AnswerIsDelayed(client, first, answer, now, b);
    var refused := second.(sendOk := false);
    var moves2, w2 := RefusedCalls(w1, client, 1, refused, b, 65534);
    SentCall(w2.proxy, client, 65535, second);
    w := w2.(proxy := Call(w2.proxy, second));
    moves := moves1 + (moves2 + [Client(Calls(second))]);
    SomeIp.SessionsRepeatEvery65535(1, 65536);
    hide Call, Quiet;
    ReachesOne(w2, Client(Calls(second)), b);
    ReachesBoth(w1, moves2, b, w2, [Client(Calls(second))], w);
    ReachesBoth(Fresh0(client, Skeleton.Config(client.serviceId, client.interfaceVersion)), moves1, b,
                w1, moves2 + [Client(Calls(second))], w);
    AnswerStays(w1, w.proxy, SomeIp.SessionAt(1), client.interfaceVersion, answer);
    WrongCallCompletes(w, client, second.now, SomeIp.SessionAt(1), answer, b);
  }

  lemma WrongCallCompletes(w: World, client: Config, sentAt: int, session: u16, answer: seq<u8>, b: Behaviour)
    requires Answered(w, session, client.interfaceVersion, answer) && !w.proxy.closed && w.proxy.config == client
    requires w.proxy.pending == map[session := Pending(65535, sentAt)]
    ensures ReadReplies(w.proxy, [w.back[0].wire], b).completed == w.proxy.completed + [Completion(65535, Value(answer))]
    ensures !WasHandled(w.log, 65535, answer)
  {
    hide SomeIp.Deserialize, Act;
    var m := SomeIp.Deserialize(w.back[0].wire).value;
    assert [w.back[0].wire][1..] == [];
    ActStartsNothing(Delivered(w.proxy, m), b(65535));
  }

  lemma {:induction false} ActStartsNothing(s: State, actions: seq<Action>)
    ensures Act(s, actions).completed == s.completed
    decreases |actions|
  {
    hide SomeIp.Serialize, SomeIp.SessionAt;
    if actions == [] || s.closed {
    } else {
      match actions[0]
      case DoCall(r) => ActStartsNothing(Call(s, r), actions[1..]);
      case DoDestroy => ActStartsNothing(Close(s), actions[1..]);
    }
  }
}

/**
 Proxy and skeleton over a network that loses, duplicates, delays and reorders datagrams.

 The network is the history of everything either side ever sent: any of it may arrive at any time,
 any number of times, or never. One assumption is made of it, `Fresh`: a reply does not arrive after
 65535 later session ids were taken, when its own id would mean another call.
 */
module RpcSystem {
  import opened Wrappers
  import opened Bytes
  import opened ProxySpec
  import opened ProxyDecisions
  import SomeIp
  import Skeleton

  /** A reply that left the server: `id` and `index` name the call whose request it answers. */
  datatype Back = Back(id: CallId, index: nat, wire: seq<u8>)

  /** The handler ran for `request` and returned `reply`. */
  datatype Invocation = Invocation(id: CallId, request: SomeIp.Message, reply: Skeleton.Reply)

  /** `log` and `missing` are history: the handlers that ran, and the calls whose request met no handler. */
  datatype World = World(proxy: State, config: Skeleton.Config, methods: set<u16>,
                         back: seq<Back>, log: seq<Invocation>, missing: set<CallId>)

  datatype Move =
    | Client(event: Event)
    | Register(methodId: u16)
    | ServerReceives(request: nat, handled: Skeleton.Reply)
    | ClientReceives(reply: nat)

  predicate Possible(w: World, m: Move) {
    match m
    case Client(e) => !e.Replies?
    case Register(_) => true
    case ServerReceives(i, _) => i < |w.proxy.sent|
    case ClientReceives(j) => j < |w.back| && Fresh(w, w.back[j])
  }

  /** At most 65534 session ids were taken after this one. */
  predicate Fresh(w: World, b: Back) {
    w.proxy.issued < b.index + SomeIp.SESSIONS
  }

  function Next(w: World, m: Move, b: Behaviour): World
    requires Possible(w, m)
  {
    match m
    case Client(e) => w.(proxy := Step(w.proxy, e, b))
    case Register(id) => w.(methods := w.methods + {id})
    case ServerReceives(i, handled) => Serve(w, w.proxy.sent[i], handled)
    case ClientReceives(j) => w.(proxy := ReadReplies(w.proxy, [w.back[j].wire], b))
  }

  function Serve(w: World, s: Sent, handled: Skeleton.Reply): World {
    match SomeIp.Deserialize(s.wire)
    case None => w
    case Some(m) =>
      var w1 := if Skeleton.Invokes(w.config, w.methods, m.header) then w.(log := w.log + [Invocation(s.id, m, handled)])
                else if m.header.methodId !in w.methods then w.(missing := w.missing + {s.id}) else w;
      match Skeleton.Answer(w.config, w.methods, m, handled)
      case None => w1
      case Some(wire) => w1.(back := w.back + [Back(s.id, s.index, wire)])
  }

  // ---- what the proxy has sent -------------------------------------------------------------

  /** The request on the wire is the one its call asked, under its own session id. */
  predicate Carries(c: Config, s: Sent, asked: seq<Asked>) {
    && s.index >= 1 && s.id < |asked|
    && SomeIp.Deserialize(s.wire)
       == Some(SomeIp.Message(SomeIp.Header(c.serviceId, asked[s.id].request.methodId, c.clientId, SomeIp.SessionAt(s.index),
                                            c.interfaceVersion, SomeIp.Request, 0x00), asked[s.id].request.payload))
  }

  /** The last request that used session id `k`. */
  function LastFor(sent: seq<Sent>, k: u16): Option<Sent>
    requires forall i :: 0 <= i < |sent| ==> sent[i].index >= 1
  {
    if sent == [] then None
    else if SomeIp.SessionAt(sent[|sent| - 1].index) == k then Some(sent[|sent| - 1])
    else LastFor(sent[..|sent| - 1], k)
  }

  /** The failures that the client finds out by itself. */
  predicate Local(f: Failure) { f == NotAvailable || f == Busy || f == Timeout || f == Malformed }

  predicate AllLocal(tasks: seq<Task>) { forall i :: 0 <= i < |tasks| ==> Local(tasks[i].failure) }

  predicate Wired(s: State) {
    && |s.asked| == s.stats.calls && AllLocal(s.posted)
    && (forall i :: 0 <= i < |s.sent| ==> Carries(s.config, s.sent[i], s.asked) && s.sent[i].index <= s.issued)
    && (forall i, j :: 0 <= i < j < |s.sent| ==> s.sent[i].index < s.sent[j].index)
    && (forall k :: k in s.pending ==>
          LastFor(s.sent, k).Some? && LastFor(s.sent, k).value.id == s.pending[k].id)
  }

  /** Nothing is forgotten, and what completed in between are failures of the client's own. */
  predicate Grew(s: State, t: State) {
    && s.asked <= t.asked && s.sent <= t.sent && s.issued <= t.issued && s.completed <= t.completed && t.config == s.config
    && forall i :: |s.completed| <= i < |t.completed| ==> t.completed[i].outcome.Failed? && Local(t.completed[i].outcome.failure)
  }

  lemma GrewNothing(s: State)
    ensures Grew(s, s)
  {
  }

  lemma GrewBoth(s: State, mid: State, t: State)
    requires Grew(s, mid) && Grew(mid, t)
    ensures Grew(s, t)
  {
    assert forall i :: 0 <= i < |mid.completed| ==> t.completed[i] == mid.completed[i];
  }

  lemma CallStaysWired(s: State, r: Request)
    requires Wired(s)
    ensures Wired(Call(s, r)) && Grew(s, Call(s, r))
  {
    hide *;
    CallIsRecorded(s, r);
    OneVerdict(s.config, Meets(s, r));
    if Goes(s.config, Meets(s, r)) {
      GoingCallLeaves(s, r);
      SentStaysWired(s, Call(s, r), r);
    } else {
      var f :| Refused(s.config, Meets(s, r), f);
      RefusedCallIsQueued(s, r, f);
      RefusedStaysWired(s, Call(s, r), r, f);
    }
  }

  lemma MoreAskedStillCarries(c: Config, x: Sent, asked: seq<Asked>, a: Asked)
    requires Carries(c, x, asked)
    ensures Carries(c, x, asked + [a])
  {
    hide SomeIp.Deserialize, SomeIp.SessionAt;
  }

  lemma RefusedStaysWired(s: State, t: State, r: Request, f: Failure)
    requires Wired(s) && Recorded(s, t, r) && Refused(s.config, Meets(s, r), f)
    requires t.posted == s.posted + [Fail(s.stats.calls, f)] && Stayed(s, t)
    ensures Wired(t) && Grew(s, t)
  {
    hide Carries, SomeIp.SessionAt, Meets, LastFor;
    forall i | 0 <= i < |t.sent| ensures Carries(t.config, t.sent[i], t.asked) {
      MoreAskedStillCarries(s.config, s.sent[i], s.asked, Meets(s, r));
    }
  }

  /** What is on the wire is read as the request. */
  lemma SentCarries(c: Config, a: Asked, x: Sent, asked: seq<Asked>)
    requires Carried(c, a, x) && x.id < |asked| && asked[x.id] == a
    ensures Carries(c, x, asked)
  {
    var h := SomeIp.Header(c.serviceId, a.request.methodId, c.clientId, SomeIp.SessionAt(x.index), c.interfaceVersion,
                           SomeIp.Request, 0x00);
    SomeIp.ReadExactlyFromTheWire(x.wire, SomeIp.Message(h, a.request.payload));
    hide SomeIp.Deserialize, SomeIp.OnWire;
  }

  predicate InOrder(c: Config, sent: seq<Sent>, asked: seq<Asked>, issued: nat) {
    && (forall i :: 0 <= i < |sent| ==> Carries(c, sent[i], asked) && sent[i].index <= issued)
    && (forall i, j :: 0 <= i < j < |sent| ==> sent[i].index < sent[j].index)
  }

  lemma OneMoreInOrder(c: Config, sent: seq<Sent>, asked: seq<Asked>, a: Asked, issued: nat, last: Sent)
    requires InOrder(c, sent, asked, issued) && Carries(c, last, asked + [a]) && last.index == issued + 1
    ensures InOrder(c, sent + [last], asked + [a], issued + 1)
  {
    hide Carries;
    forall i | 0 <= i < |sent| ensures Carries(c, sent[i], asked + [a]) {
      MoreAskedStillCarries(c, sent[i], asked, a);
    }
  }

  lemma SentStaysWired(s: State, t: State, r: Request)
    requires Wired(s) && Recorded(s, t, r) && Goes(s.config, Meets(s, r)) && Left(s, t, r)
    ensures Wired(t) && Grew(s, t)
  {
    var last := t.sent[|s.sent|];
    assert t.asked[last.id] == Meets(s, r);
    SentCarries(s.config, Meets(s, r), last, t.asked);
    NextSession(s);
    hide Carries, SomeIp.SessionAt, Meets, Carried, Goes, LastFor, Refused;
    assert t.sent == s.sent + [last];
    OneMoreInOrder(s.config, s.sent, s.asked, Meets(s, r), s.issued, last);
    WaitingAreLast(s.config, s.sent, s.asked, s.issued, last, s.pending, t.pending);
  }

  /** Each waiting call is the last one that was sent under its session id. */
  lemma WaitingAreLast(c: Config, sent: seq<Sent>, asked: seq<Asked>, issued: nat, last: Sent,
                       p: map<u16, Pending>, q: map<u16, Pending>)
    requires InOrder(c, sent, asked, issued) && last.index >= 1
    requires SomeIp.SessionAt(last.index) in q && q[SomeIp.SessionAt(last.index)].id == last.id
    requires q == p[SomeIp.SessionAt(last.index) := q[SomeIp.SessionAt(last.index)]]
    requires forall i :: 0 <= i < |sent| ==> sent[i].index >= 1
    requires forall k :: k in p ==> LastFor(sent, k).Some? && LastFor(sent, k).value.id == p[k].id
    ensures forall i :: 0 <= i < |sent + [last]| ==> (sent + [last])[i].index >= 1
    ensures forall k :: k in q ==> LastFor(sent + [last], k).Some? && LastFor(sent + [last], k).value.id == q[k].id
  {
    hide InOrder, SomeIp.SessionAt, LastFor;
    forall k | k in q ensures LastFor(sent + [last], k).Some? && LastFor(sent + [last], k).value.id == q[k].id {
      OneMoreSent(sent, last, k);
    }
  }

  lemma OneMoreSent(sent: seq<Sent>, last: Sent, k: u16)
    requires last.index >= 1 && forall i :: 0 <= i < |sent| ==> sent[i].index >= 1
    ensures LastFor(sent + [last], k) == if SomeIp.SessionAt(last.index) == k then Some(last) else LastFor(sent, k)
  {
    hide SomeIp.SessionAt;
    assert (sent + [last])[..|sent|] == sent;
  }

  lemma {:induction false} ActStaysWired(s: State, actions: seq<Action>)
    requires Wired(s)
    ensures Wired(Act(s, actions)) && Grew(s, Act(s, actions))
    decreases |actions|
  {
    hide Wired, Call;
    if actions == [] || s.closed {
    } else {
      match actions[0]
      case DoCall(r) =>
        CallStaysWired(s, r);
        ActStaysWired(Call(s, r), actions[1..]);
      case DoDestroy =>
        CloseStaysWired(s);
        ActStaysWired(Close(s), actions[1..]);
    }
  }

  lemma CloseStaysWired(s: State)
    requires Wired(s)
    ensures Wired(Close(s)) && Grew(s, Close(s))
  {
  }

  /** Taking calls out of the table, counting and logging leave the wiring alone. */
  lemma LessPendingStaysWired(s: State, t: State)
    requires Wired(s)
    requires t.asked == s.asked && t.sent == s.sent && t.issued == s.issued && t.stats.calls == s.stats.calls
    requires t.config == s.config && (t.posted == s.posted || AllLocal(t.posted))
    requires forall k :: k in t.pending ==> k in s.pending && t.pending[k] == s.pending[k]
    ensures Wired(t)
  {
  }

  lemma GivenUpStaysWired(s: State, session: u16, why: Reason, b: Behaviour)
    requires Wired(s) && session in s.pending
    ensures Wired(FailOne(s, session, why, b)) && Grew(s, FailOne(s, session, why, b))
  {
    hide Wired, Act;
    LessPendingStaysWired(s, GivenUp(s, session, why));
    ActStaysWired(GivenUp(s, session, why), b(s.pending[session].id));
  }

  lemma {:induction false} FailEachStaysWired(s: State, sessions: seq<u16>, why: Reason, b: Behaviour)
    requires Wired(s)
    ensures Wired(FailEach(s, sessions, why, b)) && Grew(s, FailEach(s, sessions, why, b))
    decreases |sessions|
  {
    hide Wired, FailOne, Grew;
    if sessions == [] || s.closed {
      GrewNothing(s);
    } else if sessions[0] !in s.pending {
      FailEachStaysWired(s, sessions[1..], why, b);
    } else {
      var mid := FailOne(s, sessions[0], why, b);
      GivenUpStaysWired(s, sessions[0], why, b);
      FailEachStaysWired(mid, sessions[1..], why, b);
      GrewBoth(s, mid, FailEach(s, sessions, why, b));
    }
  }

  lemma RunTaskStaysWired(s: State, task: Task, b: Behaviour)
    requires Wired(s) && Local(task.failure)
    ensures Wired(RunTask(s, task, b)) && Grew(s, RunTask(s, task, b))
  {
    hide Wired, Act;
    if s.closed {
      LessPendingStaysWired(s, Silenced(s, task));
    } else {
      LessPendingStaysWired(s, Reported(s, task));
      ActStaysWired(Reported(s, task), b(task.id));
    }
  }

  lemma {:induction false} RunTasksStaysWired(s: State, due: seq<Task>, b: Behaviour)
    requires Wired(s) && AllLocal(due)
    ensures Wired(RunTasks(s, due, b)) && Grew(s, RunTasks(s, due, b))
    decreases |due|
  {
    hide Wired, RunTask, Grew;
    if due == [] {
      GrewNothing(s);
    } else {
      RunTaskStaysWired(s, due[0], b);
      RunTasksStaysWired(RunTask(s, due[0], b), due[1..], b);
      GrewBoth(s, RunTask(s, due[0], b), RunTasks(s, due, b));
    }
  }

  lemma ListenStaysWired(s: State, up: bool, listener: seq<Action>)
    requires Wired(s)
    ensures Wired(Listen(s, up, listener)) && Grew(s, Listen(s, up, listener))
  {
    hide Wired, Act;
    if !s.closed {
      LessPendingStaysWired(s, Telling(s, up));
      ActStaysWired(Telling(s, up), listener);
    }
  }

  lemma ChangeStaysWired(s: State, up: bool, b: Behaviour, listener: seq<Action>)
    requires Wired(s)
    ensures Wired(OnAvailabilityChanged(s, up, b, listener)) && Grew(s, OnAvailabilityChanged(s, up, b, listener))
  {
    hide Wired, Listen, FailEach, AllSessions;
    if s.closed || up == s.available {
    } else {
      var marked := Marked(s, up);
      LessPendingStaysWired(s, marked);
      if up {
        ListenStaysWired(marked, up, listener);
      } else {
        FailEachStaysWired(marked, AllSessions(marked.pending), Gone, b);
        ListenStaysWired(FailAll(marked, b), up, listener);
      }
    }
  }

  lemma QueueIsLocal(s: State)
    requires Wired(s)
    ensures AllLocal(s.posted)
  {
  }

  lemma StepStaysWired(s: State, e: Event, b: Behaviour)
    requires Wired(s) && !e.Replies?
    ensures Wired(Step(s, e, b)) && Grew(s, Step(s, e, b))
  {
    hide Wired, Act, Call, FailEach, RunTasks, OnAvailabilityChanged, Close;
    match e
    case Calls(r) => if !s.closed { CallStaysWired(s, r); }
    case Tick(now) => FailEachStaysWired(s, ExpiredSessions(s.pending, now, s.config.timeout), TimedOut, b);
    case Availability(up, listener) => ChangeStaysWired(s, up, b, listener);
    case Posted =>
      QueueIsLocal(s);
      LessPendingStaysWired(s, s.(posted := []));
      RunTasksStaysWired(s.(posted := []), s.posted, b);
    case Destroyed => CloseStaysWired(s);
  }

  // ---- the theorem -------------------------------------------------------------------------

  predicate WasSent(sent: seq<Sent>, id: CallId, index: nat) {
    exists i :: 0 <= i < |sent| && sent[i].id == id && sent[i].index == index
  }

  predicate WasHandled(log: seq<Invocation>, id: CallId, payload: seq<u8>) {
    exists i :: 0 <= i < |log| && log[i].id == id && log[i].reply == Skeleton.Reply(SomeIp.OK, payload)
  }

  predicate WasFailed(log: seq<Invocation>, id: CallId, code: u8) {
    exists i :: 0 <= i < |log| && log[i].id == id && log[i].reply.code == code
  }

  predicate Agree(c: Config, server: Skeleton.Config) {
    c.serviceId == server.serviceId && c.interfaceVersion == server.interfaceVersion
  }

  /** The server refuses with `code` what call `id` asked: another service, another version of it, a method
      that was not there when the request came -- or the handler itself said so. */
  predicate Justified(c: Config, server: Skeleton.Config, log: seq<Invocation>, missing: set<CallId>, id: CallId, code: u8) {
    && (c.serviceId != server.serviceId ==> code == 0x02)
    && (c.serviceId == server.serviceId && c.interfaceVersion != server.interfaceVersion ==> code == 0x08)
    && (Agree(c, server) ==> (code == 0x03 && id in missing) || (code != 0x00 && WasFailed(log, id, code)))
  }

  /** A reply in the network answers a request that was sent, in the server's own version, and says
      success or failure only as the server did. */
  predicate Honest(c: Config, server: Skeleton.Config, b: Back, sent: seq<Sent>, log: seq<Invocation>, missing: set<CallId>) {
    && b.index >= 1 && WasSent(sent, b.id, b.index)
    && var d := SomeIp.Deserialize(b.wire);
       && d.Some? && d.value.header.sessionId == SomeIp.SessionAt(b.index)
       && (d.value.header.kind == SomeIp.Error ==> Justified(c, server, log, missing, b.id, d.value.header.code))
       && (d.value.header.kind != SomeIp.Error ==>
             Agree(c, server) && d.value.header.interfaceVersion == c.interfaceVersion && WasHandled(log, b.id, d.value.payload))
  }

  /** The invocation was made with exactly what the call asked. */
  predicate OwnRequest(v: Invocation, asked: seq<Asked>) {
    v.id < |asked| && v.request.header.methodId == asked[v.id].request.methodId && v.request.payload == asked[v.id].request.payload
  }

  predicate Truthful(c: Config, server: Skeleton.Config, done: Completion, log: seq<Invocation>, missing: set<CallId>) {
    match done.outcome
    case Value(p) => Agree(c, server) && WasHandled(log, done.id, p)
    case Failed(f, code) => f != WrongInterfaceVersion && (f == Remote ==> Justified(c, server, log, missing, done.id, code))
  }

  predicate AllHonest(w: World) {
    forall j :: 0 <= j < |w.back| ==> Honest(w.proxy.config, w.config, w.back[j], w.proxy.sent, w.log, w.missing)
  }

  predicate AllTruthful(w: World) {
    forall i :: 0 <= i < |w.proxy.completed| ==> Truthful(w.proxy.config, w.config, w.proxy.completed[i], w.log, w.missing)
  }

  predicate Sound(w: World) {
    && Wired(w.proxy) && AllHonest(w) && AllTruthful(w)
    && forall i :: 0 <= i < |w.log| ==> OwnRequest(w.log[i], w.proxy.asked)
  }

  lemma {:induction false} LastIsLast(sent: seq<Sent>, i: nat, k: u16)
    requires forall j :: 0 <= j < |sent| ==> sent[j].index >= 1
    requires forall j, l :: 0 <= j < l < |sent| ==> sent[j].index < sent[l].index
    requires i < |sent| && SomeIp.SessionAt(sent[i].index) == k
    ensures var last := LastFor(sent, k);
            last.Some? && last.value in sent && sent[i].index <= last.value.index && SomeIp.SessionAt(last.value.index) == k
    decreases |sent|
  {
    hide SomeIp.SessionAt;
    if SomeIp.SessionAt(sent[|sent| - 1].index) != k {
      LastIsLast(sent[..|sent| - 1], i, k);
    }
  }

  /** The heart of it: a fresh reply that finds a waiting call finds its own. */
  lemma FreshReplyFindsItsOwnCall(s: State, b: Back)
    requires Wired(s) && b.index >= 1 && WasSent(s.sent, b.id, b.index)
    requires s.issued < b.index + SomeIp.SESSIONS
    requires SomeIp.SessionAt(b.index) in s.pending
    ensures s.pending[SomeIp.SessionAt(b.index)].id == b.id
  {
    hide SomeIp.SessionAt, SomeIp.Deserialize;
    var k := SomeIp.SessionAt(b.index);
    var i :| 0 <= i < |s.sent| && s.sent[i].id == b.id && s.sent[i].index == b.index;
    assert forall j :: 0 <= j < |s.sent| ==> Carries(s.config, s.sent[j], s.asked);
    LastIsLast(s.sent, i, k);
    var last := LastFor(s.sent, k).value;
    var j :| 0 <= j < |s.sent| && s.sent[j] == last;
    SomeIp.SessionsRepeatEvery65535(b.index, last.index);
    assert last.index == b.index;
    assert i == j;
  }

  lemma OnReplyStaysSound(w: World, j: nat, behaviour: Behaviour)
    requires Sound(w) && j < |w.back| && Fresh(w, w.back[j])
    ensures Sound(w.(proxy := ReadReplies(w.proxy, [w.back[j].wire], behaviour)))
  {
    var s, b := w.proxy, w.back[j];
    assert Honest(s.config, w.config, b, s.sent, w.log, w.missing);
    var d := SomeIp.Deserialize(b.wire);
    if !s.closed {
      assert [b.wire][1..] == [];
      DeliveryStaysSound(w, b, d.value, behaviour);
    }
  }

  /** What an honest reply completes is truthful. */
  lemma DeliveredIsTruthful(w: World, b: Back, m: SomeIp.Message)
    requires Honest(w.proxy.config, w.config, b, w.proxy.sent, w.log, w.missing) && SomeIp.Deserialize(b.wire) == Some(m)
    requires m.header.sessionId in w.proxy.pending && w.proxy.pending[m.header.sessionId].id == b.id
    requires AllTruthful(w)
    ensures AllTruthful(w.(proxy := Delivered(w.proxy, m)))
  {
    hide WasSent, WasHandled, Justified, SomeIp.Deserialize, SomeIp.SessionAt;
    assert Truthful(w.proxy.config, w.config, Delivered(w.proxy, m).completed[|w.proxy.completed|], w.log, w.missing);
  }

  lemma DeliveryStaysSound(w: World, b: Back, m: SomeIp.Message, behaviour: Behaviour)
    requires Sound(w) && Fresh(w, b) && Honest(w.proxy.config, w.config, b, w.proxy.sent, w.log, w.missing)
    requires SomeIp.Deserialize(b.wire) == Some(m) && !w.proxy.closed
    ensures Sound(w.(proxy := OnReply(w.proxy, m, behaviour)))
  {
    hide Wired, SomeIp.Deserialize, SomeIp.SessionAt, Act, WasHandled, WasSent, Carries, Truthful, Justified, AllTruthful;
    var s, session := w.proxy, m.header.sessionId;
    var t := OnReply(s, m, behaviour);
    if !IsReply(m) {
    } else if session !in s.pending {
      LessPendingStaysWired(s, t);
      SameCompleted(w, t);
    } else {
      FreshReplyFindsItsOwnCall(s, b);
      var mid := Delivered(s, m);
      DeliveredIsTruthful(w, b, m);
      LessPendingStaysWired(s, mid);
      ActStaysWired(mid, behaviour(b.id));
      assert t == Act(mid, behaviour(b.id));
      hide Delivered, Honest;
      GrowthKeepsSound(w.(proxy := mid), t);
    }
  }

  lemma SameCompleted(w: World, t: State)
    requires AllTruthful(w) && t.completed == w.proxy.completed && t.config == w.proxy.config
    ensures AllTruthful(w.(proxy := t))
  {
    hide Truthful;
  }

  lemma StillSent(sent: seq<Sent>, more: seq<Sent>, id: CallId, index: nat)
    requires sent <= more && WasSent(sent, id, index)
    ensures WasSent(more, id, index)
  {
    var i :| 0 <= i < |sent| && sent[i].id == id && sent[i].index == index;
    assert more[i] == sent[i];
  }

  /** Growth on the client's side keeps every fact about the past. */
  lemma GrowthKeepsSound(w: World, t: State)
    requires Sound(w) && Wired(t) && Grew(w.proxy, t)
    ensures Sound(w.(proxy := t))
  {
    hide Wired, SomeIp.Deserialize, SomeIp.SessionAt, Carries, WasHandled, WasSent, Justified, Agree;
    forall j | 0 <= j < |w.back| ensures Honest(t.config, w.config, w.back[j], t.sent, w.log, w.missing) {
      assert Honest(w.proxy.config, w.config, w.back[j], w.proxy.sent, w.log, w.missing);
      StillSent(w.proxy.sent, t.sent, w.back[j].id, w.back[j].index);
    }
    forall i | 0 <= i < |t.completed| ensures Truthful(t.config, w.config, t.completed[i], w.log, w.missing) {
      if i < |w.proxy.completed| {
        assert t.completed[i] == w.proxy.completed[i];
      }
    }
  }

  /** What was said of the server's past stays true as it goes on. */
  predicate Remembers(w: World, v: World) {
    && w.log <= v.log && w.missing <= v.missing && v.proxy == w.proxy && v.config == w.config
  }

  lemma StillHandled(w: World, v: World, id: CallId, payload: seq<u8>)
    requires Remembers(w, v) && WasHandled(w.log, id, payload)
    ensures WasHandled(v.log, id, payload)
  {
    var i :| 0 <= i < |w.log| && w.log[i].id == id && w.log[i].reply == Skeleton.Reply(SomeIp.OK, payload);
    assert v.log[i] == w.log[i];
  }

  lemma StillJustified(w: World, v: World, c: Config, id: CallId, code: u8)
    requires Remembers(w, v) && Justified(c, w.config, w.log, w.missing, id, code)
    ensures Justified(c, w.config, v.log, v.missing, id, code)
  {
    if WasFailed(w.log, id, code) {
      var i :| 0 <= i < |w.log| && w.log[i].id == id && w.log[i].reply.code == code;
      assert v.log[i] == w.log[i];
    }
  }

  lemma StillHonest(w: World, v: World, b: Back)
    requires Remembers(w, v) && Honest(w.proxy.config, w.config, b, w.proxy.sent, w.log, w.missing)
    ensures Honest(v.proxy.config, v.config, b, v.proxy.sent, v.log, v.missing)
  {
    var m := SomeIp.Deserialize(b.wire).value;
    if m.header.kind == SomeIp.Error {
      StillJustified(w, v, w.proxy.config, b.id, m.header.code);
    } else {
      StillHandled(w, v, b.id, m.payload);
    }
    hide WasHandled, Justified, SomeIp.Deserialize, WasSent;
  }

  lemma StillTruthful(w: World, v: World, done: Completion)
    requires Remembers(w, v) && Truthful(w.proxy.config, w.config, done, w.log, w.missing)
    ensures Truthful(v.proxy.config, v.config, done, v.log, v.missing)
  {
    match done.outcome
    case Value(p) => StillHandled(w, v, done.id, p);
    case Failed(f, code) => if f == Remote { StillJustified(w, v, w.proxy.config, done.id, code); }
  }

  /** The server's answer to a request that the client sent is honest. */
  lemma AnswerIsHonest(w: World, i: nat, handled: Skeleton.Reply, m: SomeIp.Message, wire: seq<u8>)
    requires Wired(w.proxy) && i < |w.proxy.sent| && SomeIp.Deserialize(w.proxy.sent[i].wire) == Some(m)
    requires Skeleton.Answer(w.config, w.methods, m, handled) == Some(wire)
    ensures var s, v := w.proxy.sent[i], Serve(w, w.proxy.sent[i], handled);
            Honest(w.proxy.config, w.config, Back(s.id, s.index, wire), w.proxy.sent, v.log, v.missing)
  {
    var s, v := w.proxy.sent[i], Serve(w, w.proxy.sent[i], handled);
    assert Carries(w.proxy.config, s, w.proxy.asked);
    Skeleton.AnswerReads(w.config, w.methods, m, handled);
    hide SomeIp.Deserialize, SomeIp.SessionAt, Skeleton.Answer;
    assert WasSent(w.proxy.sent, s.id, s.index);
    if Skeleton.Invokes(w.config, w.methods, m.header) {
      assert v.log[|w.log|] == Invocation(s.id, m, handled);
    }
  }

  lemma ServeStaysSound(w: World, i: nat, handled: Skeleton.Reply)
    requires Sound(w) && i < |w.proxy.sent|
    ensures Sound(Serve(w, w.proxy.sent[i], handled))
  {
    var s := w.proxy.sent[i];
    assert Carries(w.proxy.config, s, w.proxy.asked);
    var m, v := SomeIp.Deserialize(s.wire).value, Serve(w, s, handled);
    hide SomeIp.Deserialize, SomeIp.SessionAt, Skeleton.Answer, Skeleton.Invokes, Wired, AllTruthful, AllHonest, Honest;
    AllStillTrue(w, v);
    if Skeleton.Answer(w.config, w.methods, m, handled).Some? {
      AnswerIsHonest(w, i, handled, m, Skeleton.Answer(w.config, w.methods, m, handled).value);
      OneMoreIsHonest(v, w.back);
    } else {
      AllStillHonest(v, w.back);
    }
  }

  /** What was true of the completions and of the replies in the network still is. */
  lemma AllStillTrue(w: World, v: World)
    requires Remembers(w, v) && AllTruthful(w) && AllHonest(w)
    ensures AllTruthful(v) && AllHonest(v.(back := w.back))
  {
    hide Truthful, Honest, Remembers;
    assert v.proxy == w.proxy && v.config == w.config by { SameProxy(w, v); }
    forall j | 0 <= j < |w.proxy.completed| ensures Truthful(v.proxy.config, v.config, v.proxy.completed[j], v.log, v.missing) {
      StillTruthful(w, v, w.proxy.completed[j]);
    }
    forall j | 0 <= j < |w.back| ensures Honest(v.proxy.config, v.config, w.back[j], v.proxy.sent, v.log, v.missing) {
      StillHonest(w, v, w.back[j]);
    }
  }

  lemma SameProxy(w: World, v: World)
    requires Remembers(w, v)
    ensures v.proxy == w.proxy && v.config == w.config
  {
  }

  lemma OneMoreIsHonest(v: World, before: seq<Back>)
    requires AllHonest(v.(back := before)) && |v.back| == |before| + 1 && before <= v.back
    requires Honest(v.proxy.config, v.config, v.back[|before|], v.proxy.sent, v.log, v.missing)
    ensures AllHonest(v)
  {
    hide Honest;
    assert forall j :: 0 <= j < |before| ==> v.back[j] == before[j];
  }

  lemma AllStillHonest(v: World, before: seq<Back>)
    requires AllHonest(v.(back := before)) && v.back == before
    ensures AllHonest(v)
  {
    hide Honest;
  }

  lemma NextStaysSound(w: World, m: Move, b: Behaviour)
    requires Sound(w) && Possible(w, m)
    ensures Sound(Next(w, m, b))
  {
    hide Step, Wired, Serve, ReadReplies, Honest, Truthful;
    match m
    case Client(e) =>
      StepStaysWired(w.proxy, e, b);
      GrowthKeepsSound(w, Step(w.proxy, e, b));
    case Register(_) =>
    case ServerReceives(i, handled) => ServeStaysSound(w, i, handled);
    case ClientReceives(j) => OnReplyStaysSound(w, j, b);
  }

  ghost predicate Reaches(w: World, moves: seq<Move>, b: Behaviour, v: World)
    decreases |moves|
  {
    if moves == [] then w == v
    else Possible(w, moves[0]) && Reaches(Next(w, moves[0], b), moves[1..], b, v)
  }

  function Fresh0(client: Config, server: Skeleton.Config): World {
    World(ProxySpec.Started(client), server, {}, [], [], {})
  }

  lemma {:induction false} RunsStaySound(w: World, moves: seq<Move>, b: Behaviour, v: World)
    requires Sound(w) && Reaches(w, moves, b, v)
    ensures Sound(v)
    decreases |moves|
  {
    hide Sound, Next;
    if moves == [] {
    } else {
      NextStaysSound(w, moves[0], b);
      RunsStaySound(Next(w, moves[0], b), moves[1..], b, v);
    }
  }

  /** Whatever the network did: a call that ended in success carries the bytes the server's handler
      returned with code OK for that call's own method and request. */
  lemma SuccessCarriesTheHandlersAnswer(client: Config, server: Skeleton.Config, moves: seq<Move>, b: Behaviour,
                                        w: World, c: nat) returns (v: Invocation)
    requires Reaches(Fresh0(client, server), moves, b, w)
    requires c < |w.proxy.completed| && w.proxy.completed[c].outcome.Value?
    ensures v in w.log && v.id == w.proxy.completed[c].id && v.id < |w.proxy.asked|
    ensures v.request.header.methodId == w.proxy.asked[v.id].request.methodId
    ensures v.request.payload == w.proxy.asked[v.id].request.payload
    ensures v.reply == Skeleton.Reply(0x00, w.proxy.completed[c].outcome.payload)
  {
    hide Next;
    RunsStaySound(Fresh0(client, server), moves, b, w);
    var done := w.proxy.completed[c];
    assert Truthful(w.proxy.config, w.config, done, w.log, w.missing);
    var i :| 0 <= i < |w.log| && w.log[i].id == done.id && w.log[i].reply == Skeleton.Reply(SomeIp.OK, done.outcome.payload);
    assert OwnRequest(w.log[i], w.proxy.asked);
    v := w.log[i];
  }

  lemma {:induction false} ConfigsStay(w: World, moves: seq<Move>, b: Behaviour, v: World)
    requires Sound(w) && Reaches(w, moves, b, v)
    ensures v.config == w.config && v.proxy.config == w.proxy.config
    decreases |moves|
  {
    hide Sound, Next;
    if moves == [] {
    } else {
      NextStaysSound(w, moves[0], b);
      NextKeepsConfigs(w, moves[0], b);
      ConfigsStay(Next(w, moves[0], b), moves[1..], b, v);
    }
  }

  lemma NextKeepsConfigs(w: World, m: Move, b: Behaviour)
    requires Sound(w) && Possible(w, m)
    ensures Next(w, m, b).config == w.config && Next(w, m, b).proxy.config == w.proxy.config
  {
    hide Step, Wired, ReadReplies;
    match m
    case Client(e) => StepStaysWired(w.proxy, e, b);
    case Register(_) =>
    case ServerReceives(i, handled) =>
    case ClientReceives(j) => ReadingKeepsConfig(w.proxy, [w.back[j].wire], b);
  }

  lemma {:induction false} ReadingKeepsConfig(s: State, datagrams: seq<seq<u8>>, b: Behaviour)
    requires Wired(s)
    ensures ReadReplies(s, datagrams, b).config == s.config && Wired(ReadReplies(s, datagrams, b))
    decreases |datagrams|
  {
    hide Wired, Act, SomeIp.Deserialize;
    if datagrams == [] || s.closed {
    } else {
      match SomeIp.Deserialize(datagrams[0])
      case None => ReadingKeepsConfig(s, datagrams[1..], b);
      case Some(m) =>
        var t := OnReply(s, m, b);
        if IsReply(m) && m.header.sessionId in s.pending {
          LessPendingStaysWired(s, Delivered(s, m));
          ActStaysWired(Delivered(s, m), b(s.pending[m.header.sessionId].id));
        } else {
          LessPendingStaysWired(s, t);
        }
        ReadingKeepsConfig(t, datagrams[1..], b);
    }
  }

  /** Whatever the network did: a call that ended with an error of the server's got a code that the server
      sent for that call's own request -- 0x02 for another service, 0x08 for another version of it, 0x03 if
      the method was not there when the request came, or else what the handler returned for it. The
      client itself never has to refuse a version: this server refuses it first. */
  lemma RemoteErrorCarriesTheServersCode(client: Config, server: Skeleton.Config, moves: seq<Move>, b: Behaviour,
                                         w: World, c: nat)
    requires Reaches(Fresh0(client, server), moves, b, w)
    requires c < |w.proxy.completed| && w.proxy.completed[c].outcome.Failed?
    ensures var (id, o) := (w.proxy.completed[c].id, w.proxy.completed[c].outcome);
            && o.failure != WrongInterfaceVersion
            && (o.failure == Remote ==>
                  && (client.serviceId != server.serviceId ==> o.code == 0x02)
                  && (client.serviceId == server.serviceId && client.interfaceVersion != server.interfaceVersion ==> o.code == 0x08)
                  && (Agree(client, server) ==> (o.code == 0x03 && id in w.missing) || (o.code != 0x00 && WasFailed(w.log, id, o.code))))
  {
    hide Next;
    RunsStaySound(Fresh0(client, server), moves, b, w);
    ConfigsStay(Fresh0(client, server), moves, b, w);
    assert Truthful(w.proxy.config, w.config, w.proxy.completed[c], w.log, w.missing);
  }
}

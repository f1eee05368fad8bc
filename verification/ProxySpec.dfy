/**
 What one proxy does, as functions on its state.

 Handlers belong to the application, so what they do is arbitrary: `behaviour` gives, for every call,
 the actions its handler takes when it runs (call again, or destroy the proxy). Completions never
 run inside `Call`, so one handler never runs inside another.
 */
module ProxySpec {
  import opened Wrappers
  import opened Bytes
  import SomeIp

  /** The n-th call issued on this proxy. */
  type CallId = nat

  datatype Failure = NotAvailable | Busy | Timeout | Remote | WrongInterfaceVersion | Malformed

  datatype Outcome = Value(payload: seq<u8>) | Failed(failure: Failure, code: u8)

  datatype Completion = Completion(id: CallId, outcome: Outcome)

  datatype Endpoint = Endpoint(address: Option<u32>, port: u16)

  datatype Config = Config(serviceId: u16, clientId: u16, interfaceVersion: u8, timeout: int,
                           maxPending: nat, fixedMethod: Option<Endpoint>)

  datatype Pending = Pending(id: CallId, sentAt: int)

  /** What the proxy leaves in the runtime's queue for the next poll. */
  datatype Task = Fail(id: CallId, failure: Failure)

  datatype Stats = Stats(calls: nat, answered: nat, remoteErrors: nat, timeouts: nat, notAvailable: nat,
                         busy: nat, lateReplies: nat, becameAvailable: nat, becameUnavailable: nat)

  /** One call, with what the world answers while it is made: the endpoint discovery knows, whether
      the socket takes the datagram, and the clock. */
  datatype Request = Request(methodId: u16, payload: seq<u8>, registered: Option<Endpoint>, sendOk: bool, now: int)

  datatype Action = DoCall(request: Request) | DoDestroy

  type Behaviour = CallId -> seq<Action>

  /** A request that went out: `index` is its place in the proxy's session numbering. */
  datatype Sent = Sent(id: CallId, index: nat, wire: seq<u8>, to: Endpoint)

  /** A call and what it met: whether the service was there, how many calls were waiting, and whether
      the next session id was one of theirs. */
  datatype Asked = Asked(request: Request, available: bool, waiting: nat, taken: bool)

  /** What happened on the application's side: a call's handler or the availability listener started, or
      something was done to the proxy. */
  datatype Deed = Began(id: CallId) | Heard(up: bool) | Did(action: Action)

  /** The last seven fields are history: what each call asked, which handlers started and with what,
      which datagrams left, how many requests did not fit, which waiting calls `Close` cancelled, which
      queued failures found the proxy destroyed, and what the application did, in order. */
  datatype State = State(config: Config, issued: nat, pending: map<u16, Pending>, posted: seq<Task>,
                         available: bool, closed: bool, stats: Stats,
                         asked: seq<Asked>, completed: seq<Completion>, sent: seq<Sent>,
                         unserialisable: nat, cancelled: set<CallId>, silenced: seq<Task>, deeds: seq<Deed>)

  function NoStats(): Stats { Stats(0, 0, 0, 0, 0, 0, 0, 0, 0) }

  function Started(config: Config): State {
    State(config, 0, map[], [], config.fixedMethod.Some?, false, NoStats(), [], [], [], 0, {}, [], [])
  }

  // ---- calling -----------------------------------------------------------------------------

  function Post(s: State, id: CallId, failure: Failure): State {
    s.(posted := s.posted + [Fail(id, failure)])
  }

  function MethodEndpoint(s: State, registered: Option<Endpoint>): Option<Endpoint> {
    if s.config.fixedMethod.Some? then s.config.fixedMethod else registered
  }

  function RequestHeader(s: State, r: Request, session: u16): SomeIp.Header {
    SomeIp.Header(s.config.serviceId, r.methodId, s.config.clientId, session,
                  s.config.interfaceVersion, SomeIp.Request, SomeIp.OK)
  }

  /** The call is counted and goes on record. */
  function Noted(s: State, r: Request): State {
    s.(stats := s.stats.(calls := s.stats.calls + 1), deeds := s.deeds + [Did(DoCall(r))],
       asked := s.asked + [Asked(r, s.available, |s.pending|, SomeIp.SessionAt(s.issued + 1) in s.pending)])
  }

  function Call(s: State, r: Request): State {
    var id := s.stats.calls;
    var s1 := Noted(s, r);
    var endpoint := if s.available then MethodEndpoint(s, r.registered) else None;
    if endpoint.None? then
      Post(s1.(stats := s1.stats.(notAvailable := s.stats.notAvailable + 1)), id, NotAvailable)
    else if |s.pending| >= s.config.maxPending then
      Post(s1.(stats := s1.stats.(busy := s.stats.busy + 1)), id, Busy)
    else
      Transmit(s1.(issued := s.issued + 1), r, id, endpoint.value)
  }

  /** The part of a call after a session id was taken. */
  function Transmit(s: State, r: Request, id: CallId, to: Endpoint): State
    requires s.issued >= 1
  {
    var session := SomeIp.SessionAt(s.issued);
    if session in s.pending then
      Post(s.(stats := s.stats.(busy := s.stats.busy + 1)), id, Busy)
    else match SomeIp.Serialize(RequestHeader(s, r, session), r.payload)
         case None => Post(s.(unserialisable := s.unserialisable + 1), id, Malformed)
         case Some(wire) =>
           if !r.sendOk then
             Post(s.(stats := s.stats.(notAvailable := s.stats.notAvailable + 1)), id, NotAvailable)
           else
             s.(pending := s.pending[session := Pending(id, r.now)],
                sent := s.sent + [Sent(id, s.issued, wire, to)])
  }

  function PendingIds(p: map<u16, Pending>): set<CallId> { set k | k in p :: p[k].id }

  /** Cancels: nothing waiting is told, and nothing posted will be. */
  function Close(s: State): State {
    if s.closed then s
    else
      s.(closed := true, pending := map[], cancelled := s.cancelled + PendingIds(s.pending),
         deeds := s.deeds + [Did(DoDestroy)])
  }

  /** A destroyed proxy cannot be called, so whatever the handler does next is not about it. */
  function Act(s: State, actions: seq<Action>): State
    decreases |actions|
  {
    if actions == [] || s.closed then s
    else match actions[0]
         case DoCall(r) => Act(Call(s, r), actions[1..])
         case DoDestroy => Act(Close(s), actions[1..])
  }

  // ---- completing: the states in which handlers start --------------------------------------

  /** The handler of call `id` starts with `outcome`. */
  function Begin(s: State, id: CallId, outcome: Outcome): State {
    s.(completed := s.completed + [Completion(id, outcome)], deeds := s.deeds + [Began(id)])
  }

  /** What a reply tells the call that it finds. */
  function Replied(s: State, id: CallId, m: SomeIp.Message): State {
    if m.header.kind == SomeIp.Error then
      Begin(s.(stats := s.stats.(remoteErrors := s.stats.remoteErrors + 1)), id, Failed(Remote, m.header.code))
    else if m.header.interfaceVersion != s.config.interfaceVersion then
      Begin(s.(stats := s.stats.(remoteErrors := s.stats.remoteErrors + 1)), id, Failed(WrongInterfaceVersion, SomeIp.OK))
    else
      Begin(s.(stats := s.stats.(answered := s.stats.answered + 1)), id, Value(m.payload))
  }

  /** A reply for a waiting call: the call leaves the table before its handler starts. */
  function Delivered(s: State, m: SomeIp.Message): State
    requires m.header.sessionId in s.pending
  {
    Replied(s.(pending := s.pending - {m.header.sessionId}), s.pending[m.header.sessionId].id, m)
  }

  /** Why a walk over the table gives up on a call. */
  datatype Reason = TimedOut | Gone

  function Charge(stats: Stats, why: Reason): Stats {
    match why
    case TimedOut => stats.(timeouts := stats.timeouts + 1)
    case Gone => stats.(notAvailable := stats.notAvailable + 1)
  }

  function FailureOf(why: Reason): Failure {
    match why case TimedOut => Timeout case Gone => NotAvailable
  }

  /** A waiting call is given up on. */
  function GivenUp(s: State, session: u16, why: Reason): State
    requires session in s.pending
  {
    Begin(s.(pending := s.pending - {session}, stats := Charge(s.stats, why)),
          s.pending[session].id, Failed(FailureOf(why), SomeIp.OK))
  }

  /** A queued failure is handed over. */
  function Reported(s: State, task: Task): State { Begin(s, task.id, Failed(task.failure, SomeIp.OK)) }

  // ---- completing: the loops ---------------------------------------------------------------

  predicate IsReply(m: SomeIp.Message) { m.header.kind == SomeIp.Response || m.header.kind == SomeIp.Error }

  function OnReply(s: State, m: SomeIp.Message, behaviour: Behaviour): State {
    var session := m.header.sessionId;
    if !IsReply(m) then s
    else if session !in s.pending then s.(stats := s.stats.(lateReplies := s.stats.lateReplies + 1))
    else Act(Delivered(s, m), behaviour(s.pending[session].id))
  }

  function ReadReplies(s: State, datagrams: seq<seq<u8>>, behaviour: Behaviour): State
    decreases |datagrams|
  {
    if datagrams == [] || s.closed then s
    else match SomeIp.Deserialize(datagrams[0])
         case None => ReadReplies(s, datagrams[1..], behaviour)
         case Some(m) => ReadReplies(OnReply(s, m, behaviour), datagrams[1..], behaviour)
  }

  /** The table is walked in session order. */
  function SessionsBelow(p: map<u16, Pending>, k: nat): seq<u16>
    requires k <= 0x1_0000
  {
    if k == 0 then []
    else if k - 1 in p then SessionsBelow(p, k - 1) + [k - 1]
    else SessionsBelow(p, k - 1)
  }

  function AllSessions(p: map<u16, Pending>): seq<u16> { SessionsBelow(p, 0x1_0000) }

  predicate Expired(p: Pending, now: int, timeout: int) { now - p.sentAt > timeout }

  function ExpiredBelow(p: map<u16, Pending>, now: int, timeout: int, k: nat): seq<u16>
    requires k <= 0x1_0000
  {
    if k == 0 then []
    else if k - 1 in p && Expired(p[k - 1], now, timeout) then ExpiredBelow(p, now, timeout, k - 1) + [k - 1]
    else ExpiredBelow(p, now, timeout, k - 1)
  }

  function ExpiredSessions(p: map<u16, Pending>, now: int, timeout: int): seq<u16> {
    ExpiredBelow(p, now, timeout, 0x1_0000)
  }

  function FailOne(s: State, session: u16, why: Reason, behaviour: Behaviour): State
    requires session in s.pending
  {
    Act(GivenUp(s, session, why), behaviour(s.pending[session].id))
  }

  /** Fails the calls of `sessions` that still wait, one handler after the other. */
  function FailEach(s: State, sessions: seq<u16>, why: Reason, behaviour: Behaviour): State
    decreases |sessions|
  {
    if sessions == [] || s.closed then s
    else if sessions[0] !in s.pending then FailEach(s, sessions[1..], why, behaviour)
    else FailEach(FailOne(s, sessions[0], why, behaviour), sessions[1..], why, behaviour)
  }

  function CheckTimeouts(s: State, now: int, behaviour: Behaviour): State {
    FailEach(s, ExpiredSessions(s.pending, now, s.config.timeout), TimedOut, behaviour)
  }

  function FailAll(s: State, behaviour: Behaviour): State {
    FailEach(s, AllSessions(s.pending), Gone, behaviour)
  }

  /** The change itself, before anybody is told. */
  function Marked(s: State, available: bool): State {
    s.(available := available,
       stats := if available then s.stats.(becameAvailable := s.stats.becameAvailable + 1)
                else s.stats.(becameUnavailable := s.stats.becameUnavailable + 1))
  }

  /** The application's availability handler starts. */
  function Telling(s: State, up: bool): State { s.(deeds := s.deeds + [Heard(up)]) }

  /** `listener` is what it does (nothing, if there is none). */
  function Listen(s: State, up: bool, listener: seq<Action>): State {
    if s.closed then s else Act(Telling(s, up), listener)
  }

  function OnAvailabilityChanged(s: State, available: bool, behaviour: Behaviour, listener: seq<Action>): State {
    if s.closed || available == s.available then s
    else if available then Listen(Marked(s, true), true, listener)
    else Listen(FailAll(Marked(s, false), behaviour), false, listener)
  }

  /** A failure whose turn comes when the proxy is destroyed is handed to nobody. */
  function Silenced(s: State, task: Task): State { s.(silenced := s.silenced + [task]) }

  function RunTask(s: State, task: Task, behaviour: Behaviour): State {
    if s.closed then Silenced(s, task) else Act(Reported(s, task), behaviour(task.id))
  }

  function RunTasks(s: State, due: seq<Task>, behaviour: Behaviour): State
    decreases |due|
  {
    if due == [] then s else RunTasks(RunTask(s, due[0], behaviour), due[1..], behaviour)
  }

  /** Swap first: what a task posts runs in the next poll. */
  function RunPosted(s: State, behaviour: Behaviour): State {
    RunTasks(s.(posted := []), s.posted, behaviour)
  }

  // ---- whole runs --------------------------------------------------------------------------

  datatype Event =
    | Calls(request: Request)
    | Replies(datagrams: seq<seq<u8>>)
    | Tick(now: int)
    | Availability(up: bool, listener: seq<Action>)
    | Posted
    | Destroyed

  function Step(s: State, e: Event, behaviour: Behaviour): State {
    match e
    case Calls(r) => if s.closed then s else Call(s, r)
    case Replies(ds) => ReadReplies(s, ds, behaviour)
    case Tick(now) => CheckTimeouts(s, now, behaviour)
    case Availability(up, listener) => OnAvailabilityChanged(s, up, behaviour, listener)
    case Posted => RunPosted(s, behaviour)
    case Destroyed => Close(s)
  }

  function Run(s: State, events: seq<Event>, behaviour: Behaviour): State
    decreases |events|
  {
    if events == [] then s else Run(Step(s, events[0], behaviour), events[1..], behaviour)
  }
}

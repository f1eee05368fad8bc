/**
 How the runtime tells proxies about services: the registry, the interests, and the queue.

 Every handler is application code that may open and destroy proxies and queue work while the runtime
 is in the middle of telling others. `script(n)` is what the n-th piece of application code to run
 does. An interest is known by its id, and so is the proxy that registered it; a destroyed proxy's
 interest is gone.
 */
module RuntimeSpec {
  import opened Registry
  import Sd

  /** An open proxy: the service it wants, and whether it believes it is there. */
  datatype View = View(key: Key, up: bool)

  /** `Greet` is the `true` a newcomer is owed when the service was already known; `Work` any other task, the
      `job`-th that the application queued. */
  datatype Task = Greet(id: nat) | Work(job: nat)

  datatype Action = Open(key: Key) | Shut(id: nat) | Queue

  type Script = nat -> seq<Action>

  /** Why a piece of application code runs: a queued job, news for a proxy, a tick, another descriptor that
      is ready, or the application's own accord. */
  datatype Piece = Job(job: nat) | News(id: nat, up: bool) | Tick | Handler(fd: nat) | Own

  datatype Ran = Ran(piece: Piece, held: Records)

  /** `ran`, `greeted` and `stale` are history: which pieces of application code ran, and what the registry
      held then; the interests that were ever owed a greeting; and those whose greeting arrived when the
      registry did not hold the service, with no change of it since. */
  datatype State = State(records: Records, views: map<nat, View>, posted: seq<Task>, nextId: nat, jobs: nat, runs: nat,
                         ran: seq<Ran>, greeted: set<nat>, stale: set<nat>)

  function Started(): State { State(map[], map[], [], 1, 0, 0, [], {}, {}) }

  function Find(s: State, key: Key): State {
    var s1 := s.(views := s.views[s.nextId := View(key, false)], nextId := s.nextId + 1);
    if key in s.records then s1.(posted := s.posted + [Greet(s.nextId)], greeted := s.greeted + {s.nextId}) else s1
  }

  function Do(s: State, a: Action): State {
    match a
    case Open(key) => Find(s, key)
    case Shut(id) => s.(views := s.views - {id})
    case Queue => s.(posted := s.posted + [Work(s.jobs)], jobs := s.jobs + 1)
  }

  function Perform(s: State, actions: seq<Action>): State
    decreases |actions|
  {
    if actions == [] then s else Perform(Do(s, actions[0]), actions[1..])
  }

  function Starting(s: State, piece: Piece): State {
    s.(runs := s.runs + 1, ran := s.ran + [Ran(piece, s.records)])
  }

  function RunApplication(s: State, piece: Piece, script: Script): State {
    Perform(Starting(s, piece), script(s.runs))
  }

  /** A proxy is told; it passes the news on only if it is news. */
  function Hear(s: State, id: nat, up: bool, script: Script): State {
    if id !in s.views || s.views[id].up == up then s
    else RunApplication(s.(views := s.views[id := s.views[id].(up := up)]), News(id, up), script)
  }

  function IdsBelow(views: map<nat, View>, key: Key, n: nat): seq<nat> {
    if n == 0 then []
    else if n - 1 in views && views[n - 1].key == key then IdsBelow(views, key, n - 1) + [n - 1]
    else IdsBelow(views, key, n - 1)
  }

  function HearEach(s: State, ids: seq<nat>, up: bool, script: Script): State
    decreases |ids|
  {
    if ids == [] then s else HearEach(Hear(s, ids[0], up, script), ids[1..], up, script)
  }

  /** The ids are copied out first: a handler may cancel any of them, or register new ones. */
  function Notify(s: State, key: Key, up: bool, script: Script): State {
    HearEach(s, IdsBelow(s.views, key, s.nextId), up, script)
  }

  function Ids(views: map<nat, View>, keys: set<Key>): set<nat> {
    set id | id in views && views[id].key in keys
  }

  function Observe(s: State, e: Sd.Entry, now: int, script: Script): State {
    var key := KeyOf(e.serviceId, e.instanceId);
    var s1 := s.(records := Observed(s.records, e, now));
    match Report(s.records, e)
    case Unchanged => s1
    case Available => Notify(s1.(stale := s.stale - Ids(s.views, {key})), key, true, script)
    case Unavailable => Notify(s1.(stale := s.stale - Ids(s.views, {key})), key, false, script)
  }

  function NotifyEach(s: State, keys: seq<Key>, script: Script): State
    decreases |keys|
  {
    if keys == [] then s else NotifyEach(Notify(s, keys[0], false, script), keys[1..], script)
  }

  function KeySet(keys: seq<Key>): set<Key> { set i | 0 <= i < |keys| :: keys[i] }

  /** All leases that ran out are dropped before anybody is told of the first. */
  function ExpireLeases(s: State, now: int, script: Script): State {
    var keys := LapsedKeys(s.records, now);
    NotifyEach(s.(records := StillHeld(s.records, now), stale := s.stale - Ids(s.views, KeySet(keys))), keys, script)
  }

  /** The greeting says `true` without asking the registry again. */
  function RunTask(s: State, t: Task, script: Script): State {
    match t
    case Work(job) => RunApplication(s, Job(job), script)
    case Greet(id) =>
      if id !in s.views then s
      else
        Hear(s.(stale := if s.views[id].key in s.records then s.stale else s.stale + {id}), id, true, script)
  }

  function RunTasks(s: State, due: seq<Task>, script: Script): State
    decreases |due|
  {
    if due == [] then s else RunTasks(RunTask(s, due[0], script), due[1..], script)
  }

  function RunPosted(s: State, script: Script): State {
    RunTasks(s.(posted := []), s.posted, script)
  }

  /** What a round of dispatching hands out, in the order of the ready descriptors: an entry that was
      read from the discovery socket at time `at`, or another descriptor's handler. */
  datatype Ready = Arrived(entry: Sd.Entry, at: int) | Other(fd: nat)

  function DispatchOne(s: State, r: Ready, script: Script): State {
    match r
    case Arrived(entry, at) => if entry.kind == Sd.FindService then s else Observe(s, entry, at, script)
    case Other(fd) => RunApplication(s, Handler(fd), script)
  }

  function Dispatch(s: State, ready: seq<Ready>, script: Script): State
    decreases |ready|
  {
    if ready == [] then s else Dispatch(DispatchOne(s, ready[0], script), ready[1..], script)
  }

  /** One round: what is ready, the leases, the ticks of `ticks` proxies, the queue. */
  function Poll(s: State, ready: seq<Ready>, now: int, ticks: nat, script: Script): State {
    RunPosted(RunTicks(ExpireLeases(Dispatch(s, ready, script), now, script), ticks, script), script)
  }

  function RunTicks(s: State, ticks: nat, script: Script): State
    decreases ticks
  {
    if ticks == 0 then s else RunTicks(RunApplication(s, Tick, script), ticks - 1, script)
  }

  datatype Event = Polls(ready: seq<Ready>, now: int, ticks: nat) | Application

  function Step(s: State, e: Event, script: Script): State {
    match e
    case Polls(ready, now, ticks) => Poll(s, ready, now, ticks, script)
    case Application => RunApplication(s, Own, script)
  }

  function Run(s: State, events: seq<Event>, script: Script): State
    decreases |events|
  {
    if events == [] then s else Run(Step(s, events[0], script), events[1..], script)
  }
}

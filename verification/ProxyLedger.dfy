/** The proxy's contract over whole runs: every call is in exactly one place, completes at most once,
    and does complete once its time is up, whatever the handlers do in between. */
module ProxyLedger {
  import opened Wrappers
  import opened Bytes
  import opened ProxySpec
  import SomeIp

  // ---- the books ---------------------------------------------------------------------------

  function TaskIds(tasks: seq<Task>): set<CallId> { set i | 0 <= i < |tasks| :: tasks[i].id }

  function DoneIds(done: seq<Completion>): set<CallId> { set i | 0 <= i < |done| :: done[i].id }

  predicate OneSessionEach(p: map<u16, Pending>) {
    forall j, k :: j in p && k in p && p[j].id == p[k].id ==> j == k
  }

  predicate NoTaskTwice(tasks: seq<Task>) {
    forall i, j :: 0 <= i < j < |tasks| ==> tasks[i].id != tasks[j].id
  }

  predicate NoCallTwice(done: seq<Completion>) {
    forall i, j :: 0 <= i < j < |done| ==> done[i].id != done[j].id
  }

  predicate Balanced(s: State) {
    s.stats.calls == s.stats.answered + s.stats.remoteErrors + s.stats.timeouts + s.stats.notAvailable
                     + s.stats.busy + s.unserialisable + |s.pending| + |s.cancelled|
  }

  /** Where a call can be: waiting, queued, completed, cancelled while it waited, or cancelled while
      its failure was queued. */
  datatype Places = Places(waiting: set<CallId>, queued: set<CallId>, done: set<CallId>,
                           cancelled: set<CallId>, silenced: set<CallId>)

  function One(here: bool): nat { if here then 1 else 0 }

  /** In how many places call `id` is. */
  function Count(p: Places, id: CallId): nat {
    One(id in p.waiting) + One(id in p.queued) + One(id in p.done) + One(id in p.cancelled) + One(id in p.silenced)
  }

  /** The first `n` calls are in one place each, and no other call is anywhere. */
  ghost predicate OnePlaceEach(n: nat, p: Places) {
    forall id: CallId :: Count(p, id) == One(id < n)
  }

  function PlacesOf(s: State, due: seq<Task>): Places {
    Places(PendingIds(s.pending), TaskIds(due + s.posted), DoneIds(s.completed), s.cancelled, TaskIds(s.silenced))
  }

  /** `due` are the tasks of the queue that was swapped out and is being run. */
  ghost predicate Ledger(s: State, due: seq<Task>) {
    && OneSessionEach(s.pending)
    && NoTaskTwice(due + s.posted)
    && NoCallTwice(s.completed)
    && Balanced(s)
    && |s.pending| <= s.config.maxPending
    && (s.closed ==> s.pending == map[])
    && (!s.closed ==> s.cancelled == {} && s.silenced == [])
    && OnePlaceEach(s.stats.calls, PlacesOf(s, due))
  }

  lemma NewWaits(n: nat, p: Places)
    requires OnePlaceEach(n, p)
    ensures n !in p.waiting && OnePlaceEach(n + 1, p.(waiting := p.waiting + {n}))
  {
    assert Count(p, n) == 0;
    forall id: CallId ensures Count(p.(waiting := p.waiting + {n}), id) == One(id < n + 1) {
      assert Count(p, id) == One(id < n);
    }
  }

  lemma NewIsQueued(n: nat, p: Places)
    requires OnePlaceEach(n, p)
    ensures n !in p.queued && OnePlaceEach(n + 1, p.(queued := p.queued + {n}))
  {
    assert Count(p, n) == 0;
    forall id: CallId ensures Count(p.(queued := p.queued + {n}), id) == One(id < n + 1) {
      assert Count(p, id) == One(id < n);
    }
  }

  lemma WaitingIsDone(n: nat, p: Places, x: CallId)
    requires OnePlaceEach(n, p) && x in p.waiting
    ensures x !in p.done && OnePlaceEach(n, p.(waiting := p.waiting - {x}, done := p.done + {x}))
  {
    forall id: CallId ensures Count(p.(waiting := p.waiting - {x}, done := p.done + {x}), id) == One(id < n) {
      assert Count(p, id) == One(id < n);
    }
    assert Count(p, x) <= 1;
  }

  lemma QueuedIsDone(n: nat, p: Places, x: CallId)
    requires OnePlaceEach(n, p) && x in p.queued
    ensures x !in p.done && OnePlaceEach(n, p.(queued := p.queued - {x}, done := p.done + {x}))
  {
    forall id: CallId ensures Count(p.(queued := p.queued - {x}, done := p.done + {x}), id) == One(id < n) {
      assert Count(p, id) == One(id < n);
    }
    assert Count(p, x) <= 1;
  }

  lemma QueuedIsSilenced(n: nat, p: Places, x: CallId)
    requires OnePlaceEach(n, p) && x in p.queued
    ensures OnePlaceEach(n, p.(queued := p.queued - {x}, silenced := p.silenced + {x}))
  {
    forall id: CallId ensures Count(p.(queued := p.queued - {x}, silenced := p.silenced + {x}), id) == One(id < n) {
      assert Count(p, id) == One(id < n);
    }
  }

  lemma WaitingAreCancelled(n: nat, p: Places)
    requires OnePlaceEach(n, p)
    ensures p.waiting !! p.cancelled && OnePlaceEach(n, p.(waiting := {}, cancelled := p.cancelled + p.waiting))
  {
    forall id: CallId
      ensures Count(p.(waiting := {}, cancelled := p.cancelled + p.waiting), id) == One(id < n)
      ensures !(id in p.waiting && id in p.cancelled)
    {
      assert Count(p, id) == One(id < n);
    }
  }

  lemma Taken(p: map<u16, Pending>, k: u16)
    requires OneSessionEach(p) && k in p
    ensures OneSessionEach(p - {k}) && |p - {k}| == |p| - 1
    ensures PendingIds(p - {k}) == PendingIds(p) - {p[k].id} && p[k].id in PendingIds(p)
  {
    var q := p - {k};
    assert q.Keys == p.Keys - {k};
    assert forall j :: j in q ==> q[j] == p[j];
    forall id | id in PendingIds(p) && id != p[k].id ensures id in PendingIds(q) {
      var j :| j in p && p[j].id == id;
      assert j in q;
    }
  }

  lemma Put(p: map<u16, Pending>, k: u16, e: Pending)
    requires OneSessionEach(p) && k !in p && e.id !in PendingIds(p)
    ensures OneSessionEach(p[k := e]) && |p[k := e]| == |p| + 1
    ensures PendingIds(p[k := e]) == PendingIds(p) + {e.id}
  {
    hide PendingIds;
    NotWaiting(p, e.id);
    PutIds(p, k, e);
    PutCount(p, k, e);
  }

  lemma PutCount(p: map<u16, Pending>, k: u16, e: Pending)
    requires k !in p
    ensures |p[k := e]| == |p| + 1
  {
    assert p[k := e].Keys == p.Keys + {k};
  }

  lemma NotWaiting(p: map<u16, Pending>, id: CallId)
    ensures id !in PendingIds(p) <==> forall k :: k in p ==> p[k].id != id
  {
  }

  lemma PutIds(p: map<u16, Pending>, k: u16, e: Pending)
    requires k !in p
    ensures PendingIds(p[k := e]) == PendingIds(p) + {e.id}
  {
    var q := p[k := e];
    forall id | id in PendingIds(p) + {e.id} ensures id in PendingIds(q) {
      if id == e.id {
        assert k in q && q[k].id == id;
      } else {
        var j :| j in p && p[j].id == id;
        assert j in q && q[j].id == id;
      }
    }
  }

  lemma TaskAppended(tasks: seq<Task>, t: Task)
    ensures TaskIds(tasks + [t]) == TaskIds(tasks) + {t.id}
    ensures NoTaskTwice(tasks) && t.id !in TaskIds(tasks) ==> NoTaskTwice(tasks + [t])
  {
    var now := tasks + [t];
    assert now[|tasks|] == t;
    assert forall i :: 0 <= i < |tasks| ==> now[i] == tasks[i] && tasks[i].id in TaskIds(tasks);
    forall id | id in TaskIds(tasks) ensures id in TaskIds(now) {
      var i :| 0 <= i < |tasks| && tasks[i].id == id;
      assert now[i].id == id;
    }
  }

  lemma TaskRemoved(tasks: seq<Task>)
    requires tasks != [] && NoTaskTwice(tasks)
    ensures NoTaskTwice(tasks[1..])
    ensures TaskIds(tasks[1..]) == TaskIds(tasks) - {tasks[0].id} && tasks[0].id in TaskIds(tasks)
  {
    var rest := tasks[1..];
    assert forall i :: 0 <= i < |rest| ==> rest[i] == tasks[i + 1];
    forall id | id in TaskIds(tasks) && id != tasks[0].id ensures id in TaskIds(rest) {
      var i :| 0 <= i < |tasks| && tasks[i].id == id;
      assert rest[i - 1].id == id;
    }
  }

  lemma DoneAppended(done: seq<Completion>, c: Completion)
    ensures DoneIds(done + [c]) == DoneIds(done) + {c.id}
    ensures NoCallTwice(done) && c.id !in DoneIds(done) ==> NoCallTwice(done + [c])
  {
    var now := done + [c];
    assert now[|done|] == c;
    assert forall i :: 0 <= i < |done| ==> now[i] == done[i] && done[i].id in DoneIds(done);
    forall id | id in DoneIds(done) ensures id in DoneIds(now) {
      var i :| 0 <= i < |done| && done[i].id == id;
      assert now[i].id == id;
    }
  }

  lemma {:induction false} PendingCount(p: map<u16, Pending>)
    requires OneSessionEach(p)
    ensures |PendingIds(p)| == |p|
    decreases |p|
  {
    if p == map[] {
      assert PendingIds(p) == {};
    } else {
      var k :| k in p;
      Taken(p, k);
      PendingCount(p - {k});
    }
  }

  lemma NobodyWaits()
    ensures OneSessionEach(map[]) && PendingIds(map[]) == {}
  {
  }

  // ---- one operation at a time -------------------------------------------------------------

  /** A call decided at once: one more task in the queue, counted once. */
  predicate Queues(s: State, t: State, failure: Failure) {
    && t.posted == s.posted + [Fail(s.stats.calls, failure)]
    && t.stats.calls == s.stats.calls + 1
    && t.stats.answered + t.stats.remoteErrors + t.stats.timeouts + t.stats.notAvailable + t.stats.busy + t.unserialisable
       == s.stats.answered + s.stats.remoteErrors + s.stats.timeouts + s.stats.notAvailable + s.stats.busy + s.unserialisable + 1
    && t.pending == s.pending && t.completed == s.completed && t.config == s.config
    && t.cancelled == s.cancelled && t.silenced == s.silenced && t.closed == s.closed && t.available == s.available
  }

  lemma QueuedCallKeepsLedger(s: State, t: State, failure: Failure, due: seq<Task>)
    requires Ledger(s, due) && !s.closed && Queues(s, t, failure)
    ensures Ledger(t, due)
  {
    var task := Fail(s.stats.calls, failure);
    assert due + t.posted == due + s.posted + [task];
    hide OneSessionEach, PendingIds, TaskIds, DoneIds, NoTaskTwice, NoCallTwice, OnePlaceEach;
    NewIsQueued(s.stats.calls, PlacesOf(s, due));
    TaskAppended(due + s.posted, task);
  }

  /** A call that went out: one more entry in the table, where there was room. */
  predicate Waits(s: State, t: State, session: u16, now: int) {
    && session !in s.pending && |s.pending| < s.config.maxPending && s.available
    && t.pending == s.pending[session := Pending(s.stats.calls, now)]
    && t.stats == s.stats.(calls := s.stats.calls + 1)
    && t.posted == s.posted && t.completed == s.completed && t.config == s.config
    && t.cancelled == s.cancelled && t.silenced == s.silenced && t.unserialisable == s.unserialisable
    && t.closed == s.closed && t.available == s.available
  }

  lemma WaitingCallKeepsLedger(s: State, t: State, session: u16, now: int, due: seq<Task>)
    requires Ledger(s, due) && !s.closed && Waits(s, t, session, now)
    ensures Ledger(t, due)
  {
    hide OneSessionEach, PendingIds, TaskIds, DoneIds, NoTaskTwice, NoCallTwice, OnePlaceEach;
    NewWaits(s.stats.calls, PlacesOf(s, due));
    Put(s.pending, session, Pending(s.stats.calls, now));
  }

  /** A call adds exactly one entry, to the table or to the queue, and starts no handler. */
  lemma CallKeepsLedger(s: State, r: Request, due: seq<Task>)
    requires Ledger(s, due) && !s.closed
    ensures Ledger(Call(s, r), due) && Called(s, Call(s, r))
  {
    hide *;
    CallQueuesOrWaits(s, r);
    var t := Call(s, r);
    if failure :| Queues(s, t, failure) {
      QueuedCallKeepsLedger(s, t, failure, due);
      QueuedIsCalled(s, t, failure);
    } else {
      WaitingCallKeepsLedger(s, t, SomeIp.SessionAt(s.issued + 1), r.now, due);
      WaitingIsCalled(s, t, SomeIp.SessionAt(s.issued + 1), r.now);
    }
  }

  lemma CallQueuesOrWaits(s: State, r: Request)
    ensures (exists failure :: Queues(s, Call(s, r), failure)) || Waits(s, Call(s, r), SomeIp.SessionAt(s.issued + 1), r.now)
  {
    hide Transmit, SomeIp.SessionAt;
    var t := Call(s, r);
    var endpoint := if s.available then MethodEndpoint(s, r.registered) else None;
    if endpoint.None? {
      assert Queues(s, t, NotAvailable);
    } else if |s.pending| >= s.config.maxPending {
      assert Queues(s, t, Busy);
    } else {
      TransmitQueuesOrWaits(s, r, endpoint.value);
    }
  }

  lemma TransmitQueuesOrWaits(s: State, r: Request, to: Endpoint)
    requires s.available && |s.pending| < s.config.maxPending
    ensures var id := s.stats.calls;
            var t := Transmit(Noted(s, r).(issued := s.issued + 1), r, id, to);
            (exists failure :: Queues(s, t, failure)) || Waits(s, t, SomeIp.SessionAt(s.issued + 1), r.now)
  {
    hide SomeIp.Serialize, SomeIp.SessionAt;
    var id := s.stats.calls;
    var t := Transmit(Noted(s, r).(issued := s.issued + 1), r, id, to);
    var session := SomeIp.SessionAt(s.issued + 1);
    if session in s.pending {
      assert Queues(s, t, Busy);
    } else if SomeIp.Serialize(RequestHeader(s, r, session), r.payload).None? {
      assert Queues(s, t, Malformed);
    } else if !r.sendOk {
      assert Queues(s, t, NotAvailable);
    } else {
      assert Waits(s, t, session, r.now);
    }
  }

  lemma QueuedIsCalled(s: State, t: State, failure: Failure)
    requires !s.closed && Queues(s, t, failure)
    ensures Called(s, t)
  {
  }

  lemma WaitingIsCalled(s: State, t: State, session: u16, now: int)
    requires !s.closed && Waits(s, t, session, now)
    ensures Called(s, t)
  {
  }

  predicate Called(s: State, t: State) {
    && t.completed == s.completed && t.stats.calls == s.stats.calls + 1 && !t.closed
    && t.config == s.config && t.available == s.available && s.posted <= t.posted
    && t.cancelled == s.cancelled && t.silenced == s.silenced
    && (forall k :: k in s.pending ==> k in t.pending && t.pending[k] == s.pending[k])
    && (forall k :: k in t.pending && k !in s.pending ==> t.pending[k].id == s.stats.calls)
    && (forall i :: |s.posted| <= i < |t.posted| ==> t.posted[i].id == s.stats.calls)
    && (!s.available ==> t.pending == s.pending)
  }

  /** Every call that waited is cancelled, by name. */
  lemma CloseKeepsLedger(s: State, due: seq<Task>)
    requires Ledger(s, due)
    ensures Ledger(Close(s), due)
    ensures !s.closed ==> Close(s).cancelled == s.cancelled + PendingIds(s.pending)
  {
    if !s.closed {
      PendingCount(s.pending);
      NobodyWaits();
      hide OneSessionEach, PendingIds, TaskIds, DoneIds, NoTaskTwice, NoCallTwice, OnePlaceEach;
      WaitingAreCancelled(s.stats.calls, PlacesOf(s, due));
    }
  }

  /** What a handler can do: nothing it does completes a call, and no other waiting call is touched. */
  lemma {:induction false} ActKeepsLedger(s: State, actions: seq<Action>, due: seq<Task>)
    requires Ledger(s, due)
    ensures Ledger(Act(s, actions), due) && Acted(s, Act(s, actions))
    decreases |actions|
  {
    hide Ledger, Call, Called, Acted;
    if actions == [] || s.closed {
      ActedNothing(s);
    } else {
      match actions[0]
      case DoCall(r) =>
        CallKeepsLedger(s, r, due);
        ActKeepsLedger(Call(s, r), actions[1..], due);
        CalledThenActed(s, Call(s, r), Act(s, actions));
      case DoDestroy =>
        CloseKeepsLedger(s, due);
        ActKeepsLedger(Close(s), actions[1..], due);
        ClosedThenActed(s, Act(s, actions));
    }
  }

  /** The availability listener does no more than a handler. */
  lemma ListenKeepsLedger(s: State, up: bool, listener: seq<Action>, due: seq<Task>)
    requires Ledger(s, due)
    ensures Ledger(Listen(s, up, listener), due) && Acted(s, Listen(s, up, listener))
  {
    hide Act, Acted;
    if s.closed {
      ActedNothing(s);
    } else {
      TellingKeepsLedger(s, up, due);
      ActKeepsLedger(Telling(s, up), listener, due);
      hide Ledger;
      TellingThenActed(s, up, Listen(s, up, listener));
    }
  }

  lemma TellingKeepsLedger(s: State, up: bool, due: seq<Task>)
    requires Ledger(s, due)
    ensures Ledger(Telling(s, up), due)
  {
    hide OnePlaceEach, NoTaskTwice, NoCallTwice, OneSessionEach;
  }

  lemma TellingThenActed(s: State, up: bool, t: State)
    requires !s.closed && Acted(Telling(s, up), t)
    ensures Acted(s, t)
  {
  }

  predicate Acted(s: State, t: State) {
    && t.completed == s.completed && t.stats.calls >= s.stats.calls
    && t.config == s.config && t.available == s.available
    && s.cancelled <= t.cancelled && t.silenced == s.silenced
    && (s.closed ==> t == s)
    && OnlyNew(s, t)
    && (!t.closed && !s.available ==> t.pending == s.pending)
  }

  /** Whatever joins the queue or the table is a new call, and what was there stays. */
  predicate OnlyNew(s: State, t: State) {
    && s.posted <= t.posted
    && (forall i :: |s.posted| <= i < |t.posted| ==> t.posted[i].id >= s.stats.calls)
    && (!t.closed ==>
          && (forall k :: k in s.pending ==> k in t.pending && t.pending[k] == s.pending[k])
          && (forall k :: k in t.pending && k !in s.pending ==> t.pending[k].id >= s.stats.calls))
  }

  lemma OnlyNewStill(s: State, mid: State, t: State)
    requires OnlyNew(s, mid) && OnlyNew(mid, t) && mid.stats.calls >= s.stats.calls && (mid.closed ==> t.closed)
    ensures OnlyNew(s, t)
  {
    assert forall i :: 0 <= i < |mid.posted| ==> t.posted[i] == mid.posted[i];
  }

  lemma ActedNothing(s: State)
    ensures Acted(s, s)
  {
  }

  lemma CalledThenActed(s: State, mid: State, t: State)
    requires !s.closed && Called(s, mid) && Acted(mid, t)
    ensures Acted(s, t)
  {
    OnlyNewStill(s, mid, t);
    hide OnlyNew;
  }

  lemma ClosedThenActed(s: State, t: State)
    requires !s.closed && Acted(Close(s), t)
    ensures Acted(s, t)
  {
    hide PendingIds;
  }

  /** Takes a waiting call out of the table and starts its handler; `stats` counts it once. */
  lemma TakeKeepsLedger(s: State, session: u16, stats: Stats, outcome: Outcome, due: seq<Task>)
    requires Ledger(s, due) && session in s.pending
    requires stats.calls == s.stats.calls
    requires stats.answered + stats.remoteErrors + stats.timeouts + stats.notAvailable + stats.busy
             == s.stats.answered + s.stats.remoteErrors + s.stats.timeouts + s.stats.notAvailable + s.stats.busy + 1
    ensures Ledger(Begin(s.(pending := s.pending - {session}, stats := stats), s.pending[session].id, outcome), due)
  {
    hide OneSessionEach, PendingIds, TaskIds, DoneIds, NoTaskTwice, NoCallTwice, OnePlaceEach;
    Taken(s.pending, session);
    WaitingIsDone(s.stats.calls, PlacesOf(s, due), s.pending[session].id);
    DoneAppended(s.completed, Completion(s.pending[session].id, outcome));
  }

  /** When the handler of a matched reply starts, its call is no longer in the table. */
  lemma DeliveredKeepsLedger(s: State, m: SomeIp.Message, due: seq<Task>)
    requires Ledger(s, due) && m.header.sessionId in s.pending
    ensures Ledger(Delivered(s, m), due)
  {
    hide Ledger;
    var stats, outcome := Delivered(s, m).stats, Delivered(s, m).completed[|s.completed|].outcome;
    TakeKeepsLedger(s, m.header.sessionId, stats, outcome, due);
  }

  lemma GivenUpKeepsLedger(s: State, session: u16, why: Reason, due: seq<Task>)
    requires Ledger(s, due) && session in s.pending
    ensures Ledger(GivenUp(s, session, why), due)
  {
    hide Ledger;
    TakeKeepsLedger(s, session, Charge(s.stats, why), Failed(FailureOf(why), SomeIp.OK), due);
  }

  lemma ReportedKeepsLedger(s: State, due: seq<Task>)
    requires due != [] && !s.closed && Ledger(s, due)
    ensures Ledger(Reported(s, due[0]), due[1..])
  {
    assert (due + s.posted)[1..] == due[1..] + s.posted && (due + s.posted)[0] == due[0];
    hide OneSessionEach, PendingIds, TaskIds, DoneIds, NoTaskTwice, NoCallTwice, OnePlaceEach;
    TaskRemoved(due + s.posted);
    QueuedIsDone(s.stats.calls, PlacesOf(s, due), due[0].id);
    DoneAppended(s.completed, Completion(due[0].id, Failed(due[0].failure, SomeIp.OK)));
  }

  lemma SilencedKeepsLedger(s: State, due: seq<Task>)
    requires due != [] && s.closed && Ledger(s, due)
    ensures Ledger(Silenced(s, due[0]), due[1..])
  {
    assert (due + s.posted)[1..] == due[1..] + s.posted && (due + s.posted)[0] == due[0];
    hide OneSessionEach, PendingIds, TaskIds, DoneIds, NoTaskTwice, NoCallTwice, OnePlaceEach;
    TaskRemoved(due + s.posted);
    TaskAppended(s.silenced, due[0]);
    QueuedIsSilenced(s.stats.calls, PlacesOf(s, due), due[0].id);
  }

  // ---- the loops ---------------------------------------------------------------------------

  predicate Distinct(sessions: seq<u16>) {
    forall i, j :: 0 <= i < j < |sessions| ==> sessions[i] != sessions[j]
  }

  predicate AllWait(p: map<u16, Pending>, sessions: seq<u16>) {
    forall i :: 0 <= i < |sessions| ==> sessions[i] in p
  }

  function Failures(p: map<u16, Pending>, sessions: seq<u16>, why: Reason): (r: seq<Completion>)
    requires AllWait(p, sessions)
    ensures |r| == |sessions|
  {
    seq(|sessions|, i requires 0 <= i < |sessions| =>
      Completion(p[sessions[i]].id, Failed(FailureOf(why), SomeIp.OK)))
  }

  /** From `s` to `t`, the calls of `sessions[..n]` failed in that order and nothing else completed;
      the walk stopped early only if a handler destroyed the proxy; calls that handlers made
      meanwhile, and waiting calls that are not listed, are left alone. */
  predicate FailedListed(s: State, t: State, sessions: seq<u16>, n: nat, why: Reason)
    requires AllWait(s.pending, sessions)
  {
    && n <= |sessions| && (!t.closed ==> n == |sessions|)
    && t.completed == s.completed + Failures(s.pending, sessions[..n], why)
    && t.config == s.config && t.available == s.available && t.stats.calls >= s.stats.calls
    && (s.closed ==> t == s) && s.posted <= t.posted && s.cancelled <= t.cancelled && t.silenced == s.silenced
    && (!t.closed ==> OthersStay(s, t, sessions))
  }

  /** Calls that are not listed keep waiting; whatever else waits is new -- and there is nothing new
      while the service is away. */
  predicate OthersStay(s: State, t: State, sessions: seq<u16>) {
    && (forall k :: k in s.pending && k !in sessions ==> k in t.pending && t.pending[k] == s.pending[k])
    && (forall k :: k in t.pending && (k !in s.pending || k in sessions) ==> t.pending[k].id >= s.stats.calls)
    && (!s.available ==> forall k :: k in t.pending ==> k in s.pending && k !in sessions)
  }

  predicate FailedOne(s: State, t: State, session: u16, why: Reason)
    requires session in s.pending
  {
    && t.completed == s.completed + [Completion(s.pending[session].id, Failed(FailureOf(why), SomeIp.OK))]
    && t.config == s.config && t.available == s.available && t.stats.calls >= s.stats.calls
    && s.posted <= t.posted && s.cancelled <= t.cancelled && t.silenced == s.silenced
    && (!t.closed ==> OthersStay(s, t, [session]))
  }

  lemma FailOneFailsOne(s: State, session: u16, why: Reason, b: Behaviour, due: seq<Task>)
    requires Ledger(s, due) && session in s.pending && !s.closed
    ensures Ledger(FailOne(s, session, why, b), due)
    ensures FailedOne(s, FailOne(s, session, why, b), session, why)
  {
    hide Ledger, Act, Acted;
    GivenUpKeepsLedger(s, session, why, due);
    ActKeepsLedger(GivenUp(s, session, why), b(s.pending[session].id), due);
    GivenUpThenActed(s, session, why, FailOne(s, session, why, b));
  }

  lemma GivenUpThenActed(s: State, session: u16, why: Reason, t: State)
    requires session in s.pending && !s.closed && Acted(GivenUp(s, session, why), t)
    ensures FailedOne(s, t, session, why)
  {
    assert forall k :: k in [session] <==> k == session;
  }

  lemma FailuresStep(p: map<u16, Pending>, q: map<u16, Pending>, sessions: seq<u16>, m: nat, why: Reason)
    requires m < |sessions| && AllWait(p, sessions)
    requires forall i :: 1 <= i < |sessions| ==> sessions[i] in q && q[sessions[i]] == p[sessions[i]]
    ensures AllWait(q, sessions[1..][..m])
    ensures Failures(p, sessions[..m + 1], why)
         == [Completion(p[sessions[0]].id, Failed(FailureOf(why), SomeIp.OK))] + Failures(q, sessions[1..][..m], why)
  {
    assert forall i :: 0 <= i < m ==> sessions[1..][..m][i] == sessions[..m + 1][i + 1] == sessions[i + 1];
  }

  lemma FailedThenStopped(s: State, t: State, sessions: seq<u16>, why: Reason)
    requires AllWait(s.pending, sessions)
    requires sessions != [] && !s.closed && t.closed && FailedOne(s, t, sessions[0], why)
    ensures FailedListed(s, t, sessions, 1, why)
  {
    assert sessions[..1][0] == sessions[0];
    assert Failures(s.pending, sessions[..1], why) == [Completion(s.pending[sessions[0]].id, Failed(FailureOf(why), SomeIp.OK))];
  }

  lemma FailedThenWentOn(s: State, mid: State, t: State, sessions: seq<u16>, m: nat, why: Reason)
    requires Distinct(sessions) && sessions != []
    requires AllWait(s.pending, sessions)
    requires !s.closed && !mid.closed && FailedOne(s, mid, sessions[0], why)
    requires AllWait(mid.pending, sessions[1..])
    requires FailedListed(mid, t, sessions[1..], m, why)
    ensures FailedListed(s, t, sessions, m + 1, why)
  {
    StayedInBoth(s, mid, sessions);
    FailuresStep(s.pending, mid.pending, sessions, m, why);
    if !t.closed { OthersStayOn(s, mid, t, sessions); }
    hide OthersStay, Distinct, Failures, FailureOf;
    var first := [Completion(s.pending[sessions[0]].id, Failed(FailureOf(why), SomeIp.OK))];
    Regroup(s.completed, first, Failures(mid.pending, sessions[1..][..m], why));
  }

  lemma Regroup(a: seq<Completion>, b: seq<Completion>, c: seq<Completion>)
    ensures (a + b) + c == a + (b + c)
  {
  }

  lemma StayedInBoth(s: State, mid: State, sessions: seq<u16>)
    requires Distinct(sessions) && sessions != [] && OthersStay(s, mid, [sessions[0]])
    requires AllWait(s.pending, sessions)
    ensures Distinct(sessions[1..])
    ensures AllWait(mid.pending, sessions[1..])
    ensures forall i :: 1 <= i < |sessions| ==> sessions[i] in mid.pending && mid.pending[sessions[i]] == s.pending[sessions[i]]
  {
  }

  lemma OthersStayOn(s: State, mid: State, t: State, sessions: seq<u16>)
    requires sessions != [] && OthersStay(s, mid, [sessions[0]]) && OthersStay(mid, t, sessions[1..])
    requires mid.available == s.available && mid.stats.calls >= s.stats.calls
    ensures OthersStay(s, t, sessions)
  {
    assert forall k :: k in sessions <==> k in [sessions[0]] || k in sessions[1..];
  }

  lemma FailEachGoesOn(s: State, sessions: seq<u16>, why: Reason, b: Behaviour)
    requires sessions != [] && !s.closed && sessions[0] in s.pending
    ensures var mid := FailOne(s, sessions[0], why, b);
            FailEach(s, sessions, why, b) == if mid.closed then mid else FailEach(mid, sessions[1..], why, b)
  {
  }

  lemma NoneListed(s: State, why: Reason, b: Behaviour)
    ensures FailEach(s, [], why, b) == s && FailedListed(s, s, [], 0, why)
  {
    assert s.completed + Failures(s.pending, [], why) == s.completed;
  }

  lemma RestIsPending(s: State, mid: State, sessions: seq<u16>, why: Reason)
    requires Distinct(sessions) && sessions != [] && AllWait(s.pending, sessions)
    requires !mid.closed && FailedOne(s, mid, sessions[0], why)
    ensures Distinct(sessions[1..]) && AllWait(mid.pending, sessions[1..])
  {
    StayedInBoth(s, mid, sessions);
  }

  lemma FirstWaits(s: State, sessions: seq<u16>, due: seq<Task>)
    requires Ledger(s, due) && sessions != [] && AllWait(s.pending, sessions)
    ensures sessions[0] in s.pending && !s.closed
  {
  }

  lemma {:induction false} FailEachFailsTheListed(s: State, sessions: seq<u16>, why: Reason, b: Behaviour, due: seq<Task>)
    returns (n: nat)
    requires Ledger(s, due) && Distinct(sessions) && AllWait(s.pending, sessions)
    ensures Ledger(FailEach(s, sessions, why, b), due)
    ensures FailedListed(s, FailEach(s, sessions, why, b), sessions, n, why)
    decreases |sessions|
  {
    hide *;
    if sessions == [] {
      n := 0;
      NoneListed(s, why, b);
    } else {
      FirstWaits(s, sessions, due);
      FailEachGoesOn(s, sessions, why, b);
      FailOneFailsOne(s, sessions[0], why, b, due);
      var mid := FailOne(s, sessions[0], why, b);
      if mid.closed {
        n := 1;
        FailedThenStopped(s, mid, sessions, why);
      } else {
        RestIsPending(s, mid, sessions, why);
        var m := FailEachFailsTheListed(mid, sessions[1..], why, b, due);
        n := m + 1;
        FailedThenWentOn(s, mid, FailEach(mid, sessions[1..], why, b), sessions, m, why);
      }
    }
  }

  function TaskFailures(due: seq<Task>): (r: seq<Completion>)
    ensures |r| == |due|
  {
    seq(|due|, i requires 0 <= i < |due| => Completion(due[i].id, Failed(due[i].failure, SomeIp.OK)))
  }

  lemma TaskFailuresStep(due: seq<Task>, m: nat)
    requires m < |due|
    ensures TaskFailures(due[..m + 1])
         == [Completion(due[0].id, Failed(due[0].failure, SomeIp.OK))] + TaskFailures(due[1..][..m])
  {
    assert due[..m + 1] == [due[0]] + due[1..][..m];
  }

  /** From `s` to `t`, `due[..n]` ran in order, each handing its own failure to its own handler; the
      rest found the proxy destroyed. */
  predicate TasksRan(s: State, t: State, due: seq<Task>, n: nat) {
    && n <= |due| && (!t.closed ==> n == |due|)
    && t.completed == s.completed + TaskFailures(due[..n])
    && t.config == s.config && t.stats.calls >= s.stats.calls && t.available == s.available
    && s.cancelled <= t.cancelled && s.silenced <= t.silenced
    && (s.closed ==> t.closed && n == 0)
    && OnlyNew(s, t)
  }

  lemma TaskThenRest(s: State, mid: State, t: State, due: seq<Task>, m: nat)
    requires due != [] && !s.closed && Acted(Reported(s, due[0]), mid) && TasksRan(mid, t, due[1..], m)
    ensures TasksRan(s, t, due, m + 1)
  {
    TaskFailuresStep(due, m);
    OnlyNewStill(s, mid, t);
    hide TaskFailures, OnlyNew;
    var first := [Completion(due[0].id, Failed(due[0].failure, SomeIp.OK))];
    Regroup(s.completed, first, TaskFailures(due[1..][..m]));
  }

  lemma SilenceThenRest(s: State, t: State, due: seq<Task>, m: nat)
    requires due != [] && s.closed && TasksRan(Silenced(s, due[0]), t, due[1..], m)
    ensures TasksRan(s, t, due, 0)
  {
    assert due[..0] == due[1..][..0] == [];
    OnlyNewStill(s, Silenced(s, due[0]), t);
    hide OnlyNew, TaskFailures;
  }

  lemma NoTasksRan(s: State)
    ensures TasksRan(s, s, [], 0)
  {
    assert s.completed + TaskFailures([]) == s.completed;
  }

  lemma {:induction false} RunTasksRunsThemInOrder(s: State, due: seq<Task>, b: Behaviour) returns (n: nat)
    requires Ledger(s, due)
    ensures Ledger(RunTasks(s, due, b), [])
    ensures TasksRan(s, RunTasks(s, due, b), due, n)
    decreases |due|
  {
    hide Ledger, TasksRan, Act, Acted, Reported, Silenced;
    if due == [] {
      n := 0;
      NoTasksRan(s);
    } else if s.closed {
      SilencedKeepsLedger(s, due);
      var m := RunTasksRunsThemInOrder(Silenced(s, due[0]), due[1..], b);
      n := 0;
      SilenceThenRest(s, RunTasks(s, due, b), due, m);
    } else {
      var started := Reported(s, due[0]);
      ReportedKeepsLedger(s, due);
      ActKeepsLedger(started, b(due[0].id), due[1..]);
      var m := RunTasksRunsThemInOrder(Act(started, b(due[0].id)), due[1..], b);
      n := m + 1;
      TaskThenRest(s, Act(started, b(due[0].id)), RunTasks(s, due, b), due, m);
    }
  }
}

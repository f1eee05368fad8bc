/** What the semaphore queue guarantees over every run, and the queue as an object. */
module SemaphoreQueueRuns {
  import opened Wrappers
  import opened SemaphoreQueue

  predicate CanRun<T>(b: Queue<T>, steps: seq<Step<T>>)
    decreases |steps|
  {
    steps == [] || (CanTake(b, steps[0]) && CanRun(Take(b, steps[0]), steps[1..]))
  }

  function Run<T>(b: Queue<T>, steps: seq<Step<T>>): Queue<T>
    requires CanRun(b, steps)
    decreases |steps|
  {
    if steps == [] then b else Run(Take(b, steps[0]), steps[1..])
  }

  lemma {:induction false} RunKeepsInv<T>(b: Queue<T>, steps: seq<Step<T>>)
    requires Inv(b) && CanRun(b, steps)
    ensures Inv(Run(b, steps)) && Run(b, steps).cap == b.cap && |Run(b, steps).threads| == |b.threads|
    decreases |steps|
  {
    if steps == [] {
    } else {
      StepKeepsShape(b, steps[0]);
      hide Inv, CanTake, Take;
      StepKeepsInv(b, steps[0]);
      RunKeepsInv(Take(b, steps[0]), steps[1..]);
    }
  }

  lemma StepKeepsShape<T>(b: Queue<T>, step: Step<T>)
    requires CanTake(b, step)
    ensures Take(b, step).cap == b.cap && |Take(b, step).threads| == |b.threads|
  {
  }

  /** In every interleaving: permits and slots add up, the queue never exceeds its capacity, and
      items leave in the order in which they were accepted. */
  lemma PermitsAddUp<T>(cap: nat, n: nat, steps: seq<Step<T>>)
    requires CanRun(Start<T>(cap, n), steps)
    ensures var b := Run(Start<T>(cap, n), steps);
            && b.slots + |b.q| + Sum(b.threads, SlotsHeld) == cap
            && b.items + Sum(b.threads, TokensHeld) == |b.q| + b.closes
            && |b.q| <= cap && b.accepted == b.taken + b.q
  {
    StartHolds<T>(cap, n);
    RunKeepsInv(Start<T>(cap, n), steps);
  }

  // ---- shutting down -----------------------------------------------------------------------

  /** A consumer that finds nothing finds a closed queue ... */
  lemma EmptyMeansClosed<T>(b: Queue<T>, t: Thread)
    requires Inv(b) && CanTake(b, TakeFront(t)) && b.q == []
    ensures b.closed && b.closes > 0
  {
    SumsAfter(b, t, Relaying);
  }

  /** ... into which nothing will ever come again. */
  lemma {:induction false} DrainedForGood<T>(b: Queue<T>, steps: seq<Step<T>>)
    requires b.closed && b.q == [] && CanRun(b, steps)
    ensures Run(b, steps).closed && Run(b, steps).q == [] && Run(b, steps).accepted == b.accepted
    decreases |steps|
  {
    if steps == [] {
    } else {
      StaysDrained(b, steps[0]);
      hide CanTake, Take;
      DrainedForGood(Take(b, steps[0]), steps[1..]);
    }
  }

  lemma StaysDrained<T>(b: Queue<T>, step: Step<T>)
    requires b.closed && b.q == [] && CanTake(b, step)
    ensures Take(b, step).closed && Take(b, step).q == [] && Take(b, step).accepted == b.accepted
  {
  }

  predicate IsCall<T>(step: Step<T>) { step.CallPush? || step.CallPop? || step.CallClose? }

  /** No call under way can go on. */
  ghost predicate Stuck<T(!new)>(b: Queue<T>) {
    forall step :: CanTake(b, step) ==> IsCall(step)
  }

  /** Calls under way finish or block within a bounded number of steps. */
  lemma {:induction false} WorkRunsOut<T>(b: Queue<T>, steps: seq<Step<T>>)
    requires CanRun(b, steps) && forall i :: 0 <= i < |steps| ==> !IsCall(steps[i])
    ensures |steps| + Sum(Run(b, steps).threads, StepsLeft) <= Sum(b.threads, StepsLeft)
    decreases |steps|
  {
    if steps == [] {
    } else {
      OneStepLess(b, steps[0]);
      hide CanTake, Take, Sum;
      WorkRunsOut(Take(b, steps[0]), steps[1..]);
    }
  }

  lemma OneStepLess<T>(b: Queue<T>, step: Step<T>)
    requires CanTake(b, step) && !IsCall(step)
    ensures Sum(Take(b, step).threads, StepsLeft) < Sum(b.threads, StepsLeft)
  {
    hide Sum;
    SumAfter(b.threads, step.thread, Take(b, step).threads[step.thread], StepsLeft);
  }

  /** Once one close has released its token, no consumer blocks for ever: when everything has come to
      a halt, no thread is in `pop`. Only producers can remain, and exactly when the queue is full. */
  lemma OneCloseWakesEveryConsumer<T(!new)>(b: Queue<T>, t: Thread)
    requires Inv(b) && b.closes > 0 && Stuck(b) && t < |b.threads|
    ensures b.threads[t].Idle? || (b.threads[t].PushWaits? && |b.q| == b.cap)
  {
    NothingHeld(b);
    SumOfNothing(b.threads, SlotsHeld);
    SumOfNothing(b.threads, TokensHeld);
    hide Sum, Stuck;
    StuckAt(b, t);
  }

  /** The step with which a thread would go on. */
  function Next<T>(b: Queue<T>, t: Thread): Step<T>
    requires t < |b.threads|
  {
    match b.threads[t]
    case Idle => CallPop(t)
    case PushWaits(_) => AcquireSlot(t)
    case HasSlot(_) => Store(t)
    case Refused => HandBack(t)
    case Stored => Signal(t)
    case PopWaits => AcquireItem(t)
    case HasToken => TakeFront(t)
    case Relaying => Relay(t)
    case Emptied => GiveSlot(t)
    case Closing => Wake(t)
  }

  lemma StuckAt<T(!new)>(b: Queue<T>, t: Thread)
    requires Stuck(b) && t < |b.threads|
    ensures var pc := b.threads[t];
            pc.Idle? || (pc.PushWaits? && b.slots == 0) || (pc.PopWaits? && b.items == 0)
  {
    assert CanTake(b, Next(b, t)) ==> IsCall(Next(b, t));
  }

  lemma NothingHeld<T(!new)>(b: Queue<T>)
    requires Stuck(b)
    ensures forall t :: 0 <= t < |b.threads| ==> SlotsHeld(b.threads[t]) == 0 && TokensHeld(b.threads[t]) == 0
  {
    forall t | 0 <= t < |b.threads| ensures SlotsHeld(b.threads[t]) == 0 && TokensHeld(b.threads[t]) == 0 {
      StuckAt(b, t);
    }
  }

  /** So it does happen: closing a full queue leaves a waiting producer blocked. */
  lemma ProducersCanStayBlocked<T(!new)>(v: T, w: T)
    ensures var steps := PushSteps(0, v, false) + ([CallPush(1, w)] + CloseSteps(2));
            CanRun(Start<T>(1, 3), steps) && Run(Start<T>(1, 3), steps) == FullAndClosed(v, w)
    ensures Stuck(FullAndClosed(v, w))
  {
    var s := Start<T>(1, 3);
    PushRuns(s, 0, v);
    var full := Queue(1, 0, 1, [v], false, [Idle, Idle, Idle], [v], [], 0);
    assert Run(s, PushSteps(0, v, false)) == full;
    var waits := At(full, 1, PushWaits(w));
    assert CanTake(full, CallPush(1, w)) && Take(full, CallPush(1, w)) == waits;
    CloseRuns(waits, 2);
    StuckThere(v, w);
    hide CanTake, Take;
    RunsOne(full, CallPush(1, w), CloseSteps(2));
    RunsJoin(s, PushSteps(0, v, false), [CallPush(1, w)] + CloseSteps(2));
  }

  lemma {:induction false} RunsJoin<T>(b: Queue<T>, xs: seq<Step<T>>, ys: seq<Step<T>>)
    requires CanRun(b, xs) && CanRun(Run(b, xs), ys)
    ensures CanRun(b, xs + ys) && Run(b, xs + ys) == Run(Run(b, xs), ys)
    decreases |xs|
  {
    hide CanTake, Take;
    if xs == [] {
      assert xs + ys == ys;
    } else {
      RunsJoin(Take(b, xs[0]), xs[1..], ys);
      assert (xs + ys)[1..] == xs[1..] + ys;
    }
  }

  function FullAndClosed<T>(v: T, w: T): Queue<T> {
    Queue(1, 0, 2, [v], true, [Idle, PushWaits(w), Idle], [v], [], 1)
  }

  lemma StuckThere<T(!new)>(v: T, w: T)
    ensures Stuck(FullAndClosed(v, w))
  {
    var b := FullAndClosed(v, w);
    forall step | CanTake(b, step) ensures IsCall(step) {
      assert step.thread == 0 || step.thread == 1 || step.thread == 2;
    }
  }

  lemma RunsOne<T>(b: Queue<T>, x: Step<T>, rest: seq<Step<T>>)
    requires CanTake(b, x) && CanRun(Take(b, x), rest)
    ensures CanRun(b, [x] + rest) && Run(b, [x] + rest) == Run(Take(b, x), rest)
  {
    assert ([x] + rest)[1..] == rest;
  }

  lemma RunsTwo<T>(b: Queue<T>, x: Step<T>, y: Step<T>, rest: seq<Step<T>>)
    requires CanTake(b, x) && CanTake(Take(b, x), y) && CanRun(Take(Take(b, x), y), rest)
    ensures CanRun(b, [x, y] + rest) && Run(b, [x, y] + rest) == Run(Take(Take(b, x), y), rest)
  {
    hide Take, CanTake;
    RunsOne(Take(b, x), y, rest);
    RunsOne(b, x, [y] + rest);
    assert [x, y] + rest == [x] + ([y] + rest);
  }

  // ---- the object --------------------------------------------------------------------------

  lemma AtTwice<T>(b: Queue<T>, t: Thread, first: Pc<T>, second: Pc<T>)
    requires t < |b.threads|
    ensures At(At(b, t, first), t, second) == At(b, t, second)
    ensures At(b, t, b.threads[t]) == b
  {
    assert b.threads[t := first][t := second] == b.threads[t := second];
    assert b.threads[t := b.threads[t]] == b.threads;
  }

  lemma PushBegins<T>(b: Queue<T>, t: Thread, value: T)
    requires t < |b.threads| && b.threads[t] == Idle && b.slots > 0
    ensures CanTake(b, CallPush(t, value)) && CanTake(Take(b, CallPush(t, value)), AcquireSlot(t))
    ensures Take(Take(b, CallPush(t, value)), AcquireSlot(t)) == At(b, t, HasSlot(value)).(slots := b.slots - 1)
  {
    AtTwice(b, t, PushWaits(value), HasSlot(value));
  }

  lemma PushEnds<T>(b: Queue<T>, t: Thread)
    requires t < |b.threads| && b.threads[t].HasSlot?
    ensures var next := if b.closed then HandBack(t) else Signal(t);
            && CanTake(b, Store(t)) && CanTake(Take(b, Store(t)), next)
            && Take(Take(b, Store(t)), next) ==
               if b.closed then At(b, t, Idle).(slots := b.slots + 1)
               else At(b, t, Idle).(q := b.q + [b.threads[t].value], accepted := b.accepted + [b.threads[t].value], items := b.items + 1)
  {
    AtTwice(b, t, Refused, Idle);
    AtTwice(b, t, Stored, Idle);
  }

  lemma PopBegins<T>(b: Queue<T>, t: Thread)
    requires t < |b.threads| && b.threads[t] == Idle && b.items > 0
    ensures CanTake(b, CallPop(t)) && CanTake(Take(b, CallPop(t)), AcquireItem(t))
    ensures Take(Take(b, CallPop(t)), AcquireItem(t)) == At(b, t, HasToken).(items := b.items - 1)
  {
    AtTwice(b, t, PopWaits, HasToken);
  }

  lemma PopEnds<T>(b: Queue<T>, t: Thread)
    requires t < |b.threads| && b.threads[t].HasToken?
    ensures var next := if b.q == [] then Relay(t) else GiveSlot(t);
            && CanTake(b, TakeFront(t)) && CanTake(Take(b, TakeFront(t)), next)
            && Take(Take(b, TakeFront(t)), next) ==
               if b.q == [] then At(b, t, Idle).(items := b.items + 1)
               else At(b, t, Idle).(q := b.q[1..], taken := b.taken + [b.q[0]], slots := b.slots + 1)
  {
    AtTwice(b, t, Relaying, Idle);
    AtTwice(b, t, Emptied, Idle);
  }

  lemma Closes<T>(b: Queue<T>, t: Thread)
    requires t < |b.threads| && b.threads[t] == Idle
    ensures CanTake(b, CallClose(t)) && CanTake(Take(b, CallClose(t)), Wake(t))
    ensures Take(Take(b, CallClose(t)), Wake(t)) == b.(closed := true, items := b.items + 1, closes := b.closes + 1)
  {
    AtTwice(b, t, Closing, Idle);
    AtTwice(b, t, Closing, Closing);
  }

  function PushSteps<T>(t: Thread, value: T, closed: bool): seq<Step<T>> {
    [CallPush(t, value), AcquireSlot(t)] + ([Store(t), if closed then HandBack(t) else Signal(t)] + [])
  }

  function PopSteps<T>(t: Thread, empty: bool): seq<Step<T>> {
    [CallPop(t), AcquireItem(t)] + ([TakeFront(t), if empty then Relay(t) else GiveSlot(t)] + [])
  }

  function CloseSteps<T>(t: Thread): seq<Step<T>> { [CallClose(t), Wake(t)] + [] }

  lemma PushRuns<T>(b: Queue<T>, t: Thread, value: T)
    requires t < |b.threads| && b.threads[t] == Idle && b.slots > 0
    ensures CanRun(b, PushSteps(t, value, b.closed))
    ensures Run(b, PushSteps(t, value, b.closed)) ==
            if b.closed then b
            else b.(slots := b.slots - 1, q := b.q + [value], accepted := b.accepted + [value], items := b.items + 1)
  {
    PushBegins(b, t, value);
    var mid := At(b, t, HasSlot(value)).(slots := b.slots - 1);
    PushEnds(mid, t);
    AtTwice(b, t, HasSlot(value), Idle);
    hide CanTake, Take;
    var next := if b.closed then HandBack(t) else Signal(t);
    RunsTwo(mid, Store(t), next, []);
    RunsTwo(b, CallPush(t, value), AcquireSlot(t), [Store(t), next] + []);
  }

  lemma PopRuns<T>(b: Queue<T>, t: Thread)
    requires t < |b.threads| && b.threads[t] == Idle && b.items > 0
    ensures CanRun(b, PopSteps(t, b.q == []))
    ensures Run(b, PopSteps(t, b.q == [])) ==
            if b.q == [] then b
            else b.(items := b.items - 1, q := b.q[1..], taken := b.taken + [b.q[0]], slots := b.slots + 1)
  {
    PopBegins(b, t);
    var mid := At(b, t, HasToken).(items := b.items - 1);
    PopEnds(mid, t);
    AtTwice(b, t, HasToken, Idle);
    hide CanTake, Take;
    var next := if b.q == [] then Relay(t) else GiveSlot(t);
    RunsTwo(mid, TakeFront(t), next, []);
    RunsTwo(b, CallPop(t), AcquireItem(t), [TakeFront(t), next] + []);
  }

  lemma CloseRuns<T>(b: Queue<T>, t: Thread)
    requires t < |b.threads| && b.threads[t] == Idle
    ensures CanRun(b, CloseSteps(t))
    ensures Run(b, CloseSteps(t)) == b.(closed := true, items := b.items + 1, closes := b.closes + 1)
  {
    Closes(b, t);
    hide CanTake, Take;
    RunsTwo(b, CallClose(t), Wake(t), []);
  }

  /** A token with nothing to take comes from a close. */
  lemma TokenMeansClosed<T>(b: Queue<T>)
    requires Inv(b) && b.items > 0 && b.q == []
    ensures b.closed
  {
  }

  /** The queue object, with other threads' calls halted anywhere; each method is one whole call of
      thread `t`, which blocks unless the semaphore it waits for has a permit. */
  class BoundedQueue<T> {
    var q: seq<T>
    var closed: bool
    var slots: nat
    var items: nat
    ghost var model: Queue<T>

    ghost predicate Valid()
      reads this
    {
      Inv(model) && model.q == q && model.closed == closed && model.slots == slots && model.items == items
    }

    constructor (cap: nat, ghost n: nat)
      requires cap > 0
      ensures Valid() && model == Start(cap, n)
    {
      q, closed, slots, items := [], false, cap, 0;
      model := Start(cap, n);
      new;
      StartHolds<T>(cap, n);
    }

    method Push(value: T, ghost t: Thread) returns (ok: bool)
      requires Valid() && t < |model.threads| && model.threads[t] == Idle && slots > 0
      modifies this
      ensures Valid() && ok == !old(closed) && closed == old(closed)
      ensures q == old(q) + (if ok then [value] else []) && model.threads == old(model).threads
      ensures CanRun(old(model), PushSteps(t, value, !ok)) && model == Run(old(model), PushSteps(t, value, !ok))
    {
      hide Inv, CanRun, Run;
      PushRuns(model, t, value);
      RunKeepsInv(model, PushSteps(t, value, closed));
      model := Run(model, PushSteps(t, value, closed));
      slots := slots - 1;
      if closed {
        slots := slots + 1;
        return false;
      }
      q := q + [value];
      items := items + 1;
      return true;
    }

    method Pop(ghost t: Thread) returns (out: Option<T>)
      requires Valid() && t < |model.threads| && model.threads[t] == Idle && items > 0
      modifies this
      ensures Valid() && out == if old(q) == [] then None else Some(old(q)[0])
      ensures out.None? ==> closed && items == old(items)
      ensures q == (if out.Some? then old(q)[1..] else []) && model.threads == old(model).threads
      ensures CanRun(old(model), PopSteps(t, out.None?)) && model == Run(old(model), PopSteps(t, out.None?))
    {
      hide Inv, CanRun, Run;
      PopRuns(model, t);
      RunKeepsInv(model, PopSteps(t, q == []));
      ghost var was := model;
      model := Run(model, PopSteps(t, q == []));
      items := items - 1;
      if q == [] {
        TokenMeansClosed(was);
        items := items + 1;
        return None;
      }
      out := Some(q[0]);
      q := q[1..];
      slots := slots + 1;
    }

    method Close(ghost t: Thread)
      requires Valid() && t < |model.threads| && model.threads[t] == Idle
      modifies this`closed, this`items, this`model
      ensures Valid() && closed && items == old(items) + 1 && model.threads == old(model).threads
      ensures CanRun(old(model), CloseSteps(t)) && model == Run(old(model), CloseSteps(t))
    {
      hide Inv, CanRun, Run;
      CloseRuns(model, t);
      RunKeepsInv(model, CloseSteps(t));
      model := Run(model, CloseSteps(t));
      closed := true;
      items := items + 1;
    }
  }
}

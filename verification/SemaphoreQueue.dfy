/**
 The bounded queue built on two counting semaphores. Any number of threads push, pop and close;
 each semaphore operation and each locked section is one step.
 */
module SemaphoreQueue {
  type Thread = nat

  /** Where a thread is inside its call. */
  datatype Pc<T> =
    | Idle
    | PushWaits(value: T) | HasSlot(value: T) | Refused | Stored
    | PopWaits | HasToken | Relaying | Emptied
    | Closing

  /** `slots` and `items` are the semaphores' counters. `accepted` and `taken` are history, as is
      `closes`, the closing calls that have released their token. */
  datatype Queue<T> = Queue(cap: nat, slots: nat, items: nat, q: seq<T>, closed: bool, threads: seq<Pc<T>>,
                            accepted: seq<T>, taken: seq<T>, closes: nat)

  datatype Step<T> =
    | CallPush(thread: Thread, value: T) | AcquireSlot(thread: Thread) | Store(thread: Thread)
    | HandBack(thread: Thread) | Signal(thread: Thread)
    | CallPop(thread: Thread) | AcquireItem(thread: Thread) | TakeFront(thread: Thread)
    | Relay(thread: Thread) | GiveSlot(thread: Thread)
    | CallClose(thread: Thread) | Wake(thread: Thread)

  function Start<T>(cap: nat, n: nat): Queue<T> {
    Queue(cap, cap, 0, [], false, seq(n, _ => Idle), [], [], 0)
  }

  predicate CanTake<T>(b: Queue<T>, step: Step<T>) {
    && step.thread < |b.threads|
    && var pc := b.threads[step.thread];
       match step
       case CallPush(_, _) => pc.Idle?
       case AcquireSlot(_) => pc.PushWaits? && b.slots > 0
       case Store(_) => pc.HasSlot?
       case HandBack(_) => pc.Refused?
       case Signal(_) => pc.Stored?
       case CallPop(_) => pc.Idle?
       case AcquireItem(_) => pc.PopWaits? && b.items > 0
       case TakeFront(_) => pc.HasToken?
       case Relay(_) => pc.Relaying?
       case GiveSlot(_) => pc.Emptied?
       case CallClose(_) => pc.Idle?
       case Wake(_) => pc.Closing?
  }

  function Take<T>(b: Queue<T>, step: Step<T>): Queue<T>
    requires CanTake(b, step)
  {
    var pc := b.threads[step.thread];
    match step
    case CallPush(t, value) => At(b, t, PushWaits(value))
    case AcquireSlot(t) => At(b, t, HasSlot(pc.value)).(slots := b.slots - 1)
    case Store(t) =>
      if b.closed then At(b, t, Refused)
      else At(b, t, Stored).(q := b.q + [pc.value], accepted := b.accepted + [pc.value])
    case HandBack(t) => At(b, t, Idle).(slots := b.slots + 1)
    case Signal(t) => At(b, t, Idle).(items := b.items + 1)
    case CallPop(t) => At(b, t, PopWaits)
    case AcquireItem(t) => At(b, t, HasToken).(items := b.items - 1)
    case TakeFront(t) =>
      if b.q == [] then At(b, t, Relaying)
      else At(b, t, Emptied).(q := b.q[1..], taken := b.taken + [b.q[0]])
    case Relay(t) => At(b, t, Idle).(items := b.items + 1)
    case GiveSlot(t) => At(b, t, Idle).(slots := b.slots + 1)
    case CallClose(t) => At(b, t, Closing).(closed := true)
    case Wake(t) => At(b, t, Idle).(items := b.items + 1, closes := b.closes + 1)
  }

  function At<T>(b: Queue<T>, t: Thread, pc: Pc<T>): Queue<T>
    requires t < |b.threads|
  {
    b.(threads := b.threads[t := pc])
  }

  // ---- what threads hold -------------------------------------------------------------------

  /** Permits of `slots` in a thread's hands. */
  function SlotsHeld<T>(pc: Pc<T>): nat { if pc.HasSlot? || pc.Refused? || pc.Emptied? then 1 else 0 }

  /** Permits of `items` in a thread's hands, and those it has yet to create for an item it stored. */
  function TokensHeld<T>(pc: Pc<T>): nat { if pc.HasToken? || pc.Relaying? || pc.Stored? then 1 else 0 }

  /** How many more steps a call takes. */
  function StepsLeft<T>(pc: Pc<T>): nat {
    match pc
    case Idle => 0
    case PushWaits(_) => 3
    case HasSlot(_) => 2
    case Refused => 1
    case Stored => 1
    case PopWaits => 3
    case HasToken => 2
    case Relaying => 1
    case Emptied => 1
    case Closing => 1
  }

  function Sum<T>(threads: seq<Pc<T>>, weight: Pc<T> -> nat): nat {
    if threads == [] then 0
    else Sum(threads[..|threads| - 1], weight) + weight(threads[|threads| - 1])
  }

  lemma {:induction false} SumAfter<T>(threads: seq<Pc<T>>, t: nat, pc: Pc<T>, weight: Pc<T> -> nat)
    requires t < |threads|
    ensures Sum(threads[t := pc], weight) == Sum(threads, weight) - weight(threads[t]) + weight(pc)
    ensures Sum(threads, weight) >= weight(threads[t])
    decreases |threads|
  {
    var m := |threads| - 1;
    var after := threads[t := pc];
    if t < m {
      SumAfter(threads[..m], t, pc, weight);
      assert after[..m] == threads[..m][t := pc];
    } else {
      assert after[..m] == threads[..m];
    }
  }

  lemma {:induction false} SumOfNothing<T>(threads: seq<Pc<T>>, weight: Pc<T> -> nat)
    ensures (forall i :: 0 <= i < |threads| ==> weight(threads[i]) == 0) <==> Sum(threads, weight) == 0
    decreases |threads|
  {
    if threads == [] {
    } else {
      var m := |threads| - 1;
      SumOfNothing(threads[..m], weight);
      assert forall i :: 0 <= i < m ==> threads[..m][i] == threads[i];
      if Sum(threads, weight) == 0 {
        assert forall i :: 0 <= i < m ==> weight(threads[..m][i]) == 0;
      }
    }
  }

  // ---- the invariant -----------------------------------------------------------------------

  ghost predicate Inv<T>(b: Queue<T>) {
    && b.slots + |b.q| + Sum(b.threads, SlotsHeld) == b.cap
    && b.items + Sum(b.threads, TokensHeld) == |b.q| + b.closes
    && b.accepted == b.taken + b.q
    && (b.closes > 0 ==> b.closed)
    && (forall t :: 0 <= t < |b.threads| && (b.threads[t].Refused? || b.threads[t].Closing?) ==> b.closed)
    && (forall t :: 0 <= t < |b.threads| && b.threads[t].Relaying? ==> b.closed && b.q == [])
  }

  lemma StartHolds<T>(cap: nat, n: nat)
    ensures Inv(Start<T>(cap, n))
  {
    var threads := Start<T>(cap, n).threads;
    SumOfNothing(threads, SlotsHeld);
    SumOfNothing(threads, TokensHeld);
  }

  lemma SumsAfter<T>(b: Queue<T>, t: Thread, pc: Pc<T>)
    requires t < |b.threads|
    ensures Sum(At(b, t, pc).threads, SlotsHeld) == Sum(b.threads, SlotsHeld) - SlotsHeld(b.threads[t]) + SlotsHeld(pc)
    ensures Sum(At(b, t, pc).threads, TokensHeld) == Sum(b.threads, TokensHeld) - TokensHeld(b.threads[t]) + TokensHeld(pc)
    ensures SlotsHeld(b.threads[t]) <= Sum(b.threads, SlotsHeld) && TokensHeld(b.threads[t]) <= Sum(b.threads, TokensHeld)
  {
    SumAfter(b.threads, t, pc, SlotsHeld);
    SumAfter(b.threads, t, pc, TokensHeld);
  }

  lemma PushKeepsInv<T>(b: Queue<T>, step: Step<T>)
    requires Inv(b) && CanTake(b, step)
    requires step.CallPush? || step.AcquireSlot? || step.Store? || step.HandBack? || step.Signal?
    ensures Inv(Take(b, step))
  {
    hide Sum;
    SumsAfter(b, step.thread, Take(b, step).threads[step.thread]);
  }

  lemma PopKeepsInv<T>(b: Queue<T>, step: Step<T>)
    requires Inv(b) && CanTake(b, step)
    requires step.CallPop? || step.AcquireItem? || step.TakeFront? || step.Relay? || step.GiveSlot?
    ensures Inv(Take(b, step))
  {
    hide Sum;
    SumsAfter(b, step.thread, Take(b, step).threads[step.thread]);
  }

  lemma CloseKeepsInv<T>(b: Queue<T>, step: Step<T>)
    requires Inv(b) && CanTake(b, step) && (step.CallClose? || step.Wake?)
    ensures Inv(Take(b, step))
  {
    hide Sum;
    SumsAfter(b, step.thread, Take(b, step).threads[step.thread]);
  }

  lemma StepKeepsInv<T>(b: Queue<T>, step: Step<T>)
    requires Inv(b) && CanTake(b, step)
    ensures Inv(Take(b, step))
  {
    hide Inv, CanTake, Take;
    match step
    case CallPush(_, _) => PushKeepsInv(b, step);
    case AcquireSlot(_) => PushKeepsInv(b, step);
    case Store(_) => PushKeepsInv(b, step);
    case HandBack(_) => PushKeepsInv(b, step);
    case Signal(_) => PushKeepsInv(b, step);
    case CallClose(_) => CloseKeepsInv(b, step);
    case Wake(_) => CloseKeepsInv(b, step);
    case _ => PopKeepsInv(b, step);
  }
}

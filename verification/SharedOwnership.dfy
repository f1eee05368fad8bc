/**
 Shared and weak pointers to one object: threads interleave at every atomic operation on the two
 counters, and the object may itself own weak pointers to its own control block.
 */
module SharedOwnership {
  type Thread = nat
  type Handle = nat

  /** Where a thread is inside an operation that takes more than one atomic step. */
  datatype Pc =
    | Locking(handle: Handle, expected: int)  // about to compare-and-exchange `strong`
    | Destroying                              // took `strong` to 0; the object's destructor runs
    | Unpinning                               // destructor done; about to drop the strong side's weak reference
    | Freeing                                 // took `weak` to 0; about to free the block

  datatype Life = Alive | Dying | Dead

  /** `shared` and `weaks` are the live pointers, `inner` the weak pointers that the object owns.
      `history` holds the values of `strong`, latest last; `pinned` tells whether the strong side
      still holds its one weak reference; the last four fields count and name who ended what. */
  datatype Block = Block(strong: int, weak: int, shared: set<Handle>, weaks: set<Handle>, inner: set<Handle>,
                         threads: map<Thread, Pc>, history: seq<int>, pinned: bool, life: Life, present: bool,
                         destroyed: nat, freed: nat, closer: Thread, freer: Thread)

  datatype Step =
    | CopyShared(source: Handle, copy: Handle)
    | Observe(source: Handle, copy: Handle)
    | CopyWeak(source: Handle, copy: Handle)
    | GiveToObject(handle: Handle)
    | DropShared(thread: Thread, handle: Handle)
    | DropInner(thread: Thread, handle: Handle)
    | EndDestructor(thread: Thread)
    | Unpin(thread: Thread)
    | DropWeak(thread: Thread, handle: Handle)
    | Free(thread: Thread)
    | LockLoad(thread: Thread, handle: Handle, age: nat)
    | LockExchange(thread: Thread, copy: Handle)
    | LockRetry(thread: Thread, age: nat)

  /** A new object with its first owner. */
  function Start(owner: Handle): Block {
    Block(1, 1, {owner}, {}, {}, map[], [1], true, Alive, true, 0, 0, 0, 0)
  }

  predicate Unused(b: Block, h: Handle) { h !in b.shared && h !in b.weaks && h !in b.inner }

  predicate Borrowed(b: Block, h: Handle) {
    exists t :: t in b.threads && b.threads[t].Locking? && b.threads[t].handle == h
  }

  predicate CanTake(b: Block, step: Step) {
    match step
    case CopyShared(source, copy) => source in b.shared && Unused(b, copy)
    case Observe(source, copy) => source in b.shared && Unused(b, copy)
    case CopyWeak(source, copy) => (source in b.weaks || source in b.inner) && Unused(b, copy)
    case GiveToObject(h) => b.shared != {} && h in b.weaks && !Borrowed(b, h)
    case DropShared(t, h) => t !in b.threads && h in b.shared
    case DropInner(t, h) => t in b.threads && b.threads[t] == Destroying && h in b.inner && !Borrowed(b, h)
    case EndDestructor(t) => t in b.threads && b.threads[t] == Destroying && b.inner == {}
    case Unpin(t) => t in b.threads && b.threads[t] == Unpinning
    case DropWeak(t, h) => t !in b.threads && h in b.weaks && !Borrowed(b, h)
    case Free(t) => t in b.threads && b.threads[t] == Freeing
    case LockLoad(t, h, age) =>
      // the destructor may lock one of the object's own weak pointers; its thread sees its own last write
      && (t !in b.threads || (b.threads[t] == Destroying && age == 0))
      && (h in b.weaks || h in b.inner) && age < |b.history|
    case LockExchange(t, copy) =>
      t in b.threads && b.threads[t].Locking? && b.threads[t].expected == b.strong && Unused(b, copy)
    case LockRetry(t, age) => t in b.threads && b.threads[t].Locking? && age < |b.history|
  }

  function Take(b: Block, step: Step): Block
    requires CanTake(b, step)
  {
    match step
    case CopyShared(_, copy) => Strengthened(b, copy)
    case Observe(_, copy) => b.(weak := b.weak + 1, weaks := b.weaks + {copy})
    case CopyWeak(_, copy) => b.(weak := b.weak + 1, weaks := b.weaks + {copy})
    case GiveToObject(h) => b.(weaks := b.weaks - {h}, inner := b.inner + {h})
    case DropShared(t, h) =>
      var less := b.(strong := b.strong - 1, shared := b.shared - {h}, history := b.history + [b.strong - 1]);
      if b.strong == 1 then less.(life := Dying, threads := b.threads[t := Destroying], closer := t) else less
    case DropInner(_, h) =>
      var less := b.(weak := b.weak - 1, inner := b.inner - {h});
      if b.weak == 1 then less.(present := false, freed := b.freed + 1) else less
    case EndDestructor(t) => b.(life := Dead, destroyed := b.destroyed + 1, threads := b.threads[t := Unpinning])
    case Unpin(t) =>
      var less := b.(weak := b.weak - 1, pinned := false);
      if b.weak == 1 then less.(threads := b.threads[t := Freeing], freer := t) else less.(threads := b.threads - {t})
    case DropWeak(t, h) =>
      var less := b.(weak := b.weak - 1, weaks := b.weaks - {h});
      if b.weak == 1 then less.(threads := b.threads[t := Freeing], freer := t) else less
    case Free(t) => b.(present := false, freed := b.freed + 1, threads := b.threads - {t})
    case LockLoad(t, h, age) =>
      var seen := Seen(b, age);
      if seen == 0 then b else b.(threads := b.threads[t := Locking(h, seen)])
    case LockExchange(t, copy) => Strengthened(b, copy).(threads := b.threads - {t})
    case LockRetry(t, age) =>
      var seen := Seen(b, age);
      b.(threads := if seen == 0 then b.threads - {t} else b.threads[t := Locking(b.threads[t].handle, seen)])
  }

  /** The value of `strong` that a load `age` steps behind the latest one returns. */
  function Seen(b: Block, age: nat): int
    requires age < |b.history|
  {
    b.history[|b.history| - 1 - age]
  }

  /** One more owner. */
  function Strengthened(b: Block, copy: Handle): Block {
    b.(strong := b.strong + 1, shared := b.shared + {copy}, history := b.history + [b.strong + 1])
  }

  // ---- the invariant -----------------------------------------------------------------------

  predicate Inv(b: Block) {
    Counts(b) && History(b) && Lives(b) && Progress(b) && Threads(b)
  }

  predicate Counts(b: Block) {
    && b.strong == |b.shared|
    && b.weak == |b.weaks| + |b.inner| + (if b.pinned then 1 else 0)
    && b.shared !! b.weaks && b.shared !! b.inner && b.weaks !! b.inner
  }

  /** `strong` never came back from 0. */
  predicate History(b: Block) {
    && b.history != [] && b.history[|b.history| - 1] == b.strong
    && forall i :: 0 <= i < |b.history| - 1 ==> b.history[i] > 0
  }

  predicate Lives(b: Block) {
    && (b.life == Alive <==> b.strong > 0)
    && (!b.pinned ==> b.life == Dead)
    && (b.life == Dead ==> b.inner == {})
    && (!b.present ==> b.weak == 0)
    && b.destroyed == (if b.life == Dead then 1 else 0)
    && b.freed == (if b.present then 0 else 1)
  }

  /** Whatever is under way is in the hands of one thread. */
  predicate Progress(b: Block) {
    && (b.life == Dying ==> b.closer in b.threads && b.threads[b.closer] == Destroying)
    && (b.life == Dead && b.pinned ==> b.closer in b.threads && b.threads[b.closer] == Unpinning)
    && (b.present && b.weak == 0 ==> b.freer in b.threads && b.threads[b.freer] == Freeing)
  }

  predicate Threads(b: Block) {
    forall t :: t in b.threads ==> Allowed(b, t, b.threads[t])
  }

  predicate Allowed(b: Block, t: Thread, pc: Pc) {
    match pc
    case Locking(h, expected) => (h in b.weaks || h in b.inner) && expected != 0
    case Destroying => t == b.closer && b.life == Dying
    case Unpinning => t == b.closer && b.life == Dead && b.pinned
    case Freeing => t == b.freer && b.present && b.weak == 0
  }

  lemma StartHolds(owner: Handle)
    ensures Inv(Start(owner))
  {
  }

  // ---- every step keeps it -----------------------------------------------------------------

  lemma NewOwnerKeepsInv(b: Block, step: Step)
    requires Inv(b) && CanTake(b, step) && (step.CopyShared? || step.LockExchange?)
    ensures Inv(Take(b, step))
  {
  }

  lemma NewObserverKeepsInv(b: Block, step: Step)
    requires Inv(b) && CanTake(b, step) && (step.Observe? || step.CopyWeak? || step.GiveToObject?)
    ensures Inv(Take(b, step))
  {
  }

  lemma OwnerLeavesKeepsInv(b: Block, step: Step)
    requires Inv(b) && CanTake(b, step) && (step.DropShared?)
    ensures Inv(Take(b, step))
  {
  }

  lemma InnerLeavesKeepsInv(b: Block, step: Step)
    requires Inv(b) && CanTake(b, step) && (step.DropInner?)
    ensures Inv(Take(b, step))
  {
  }

  lemma DestructorEndsKeepsInv(b: Block, step: Step)
    requires Inv(b) && CanTake(b, step) && (step.EndDestructor?)
    ensures Inv(Take(b, step))
  {
  }

  lemma UnpinningKeepsInv(b: Block, step: Step)
    requires Inv(b) && CanTake(b, step) && (step.Unpin?)
    ensures Inv(Take(b, step))
  {
  }

  lemma ObserverLeavesKeepsInv(b: Block, step: Step)
    requires Inv(b) && CanTake(b, step) && (step.DropWeak?)
    ensures Inv(Take(b, step))
  {
  }

  lemma BlockEndsKeepsInv(b: Block, step: Step)
    requires Inv(b) && CanTake(b, step) && (step.Free?)
    ensures Inv(Take(b, step))
  {
  }

  lemma LockGoesOnKeepsInv(b: Block, step: Step)
    requires Inv(b) && CanTake(b, step) && (step.LockLoad? || step.LockRetry?)
    ensures Inv(Take(b, step))
  {
  }

  lemma StepKeepsInv(b: Block, step: Step)
    requires Inv(b) && CanTake(b, step)
    ensures Inv(Take(b, step))
  {
    hide CanTake, Take, Inv;
    match step
    case CopyShared(_, _) => NewOwnerKeepsInv(b, step);
    case LockExchange(_, _) => NewOwnerKeepsInv(b, step);
    case Observe(_, _) => NewObserverKeepsInv(b, step);
    case CopyWeak(_, _) => NewObserverKeepsInv(b, step);
    case GiveToObject(_) => NewObserverKeepsInv(b, step);
    case DropShared(_, _) => OwnerLeavesKeepsInv(b, step);
    case DropInner(_, _) => InnerLeavesKeepsInv(b, step);
    case EndDestructor(_) => DestructorEndsKeepsInv(b, step);
    case Unpin(_) => UnpinningKeepsInv(b, step);
    case DropWeak(_, _) => ObserverLeavesKeepsInv(b, step);
    case Free(_) => BlockEndsKeepsInv(b, step);
    case LockLoad(_, _, _) => LockGoesOnKeepsInv(b, step);
    case LockRetry(_, _) => LockGoesOnKeepsInv(b, step);
  }
}

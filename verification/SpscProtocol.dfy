/**
 The single-producer single-consumer ring as a protocol: every load, write and publication is one
 step, and the two threads interleave freely. An acquire load may return any value of the other
 thread's counter between the last one seen and the present one.
 */
module SpscProtocol {
  import opened PowersOfTwo
  import opened RingIndex

  /** Storage for one element: never constructed or destroyed again, alive, or moved from. */
  datatype Cell<T> = Raw | Live(value: T) | MovedFrom

  /** Where a call to push has got to, with the values it has loaded. */
  datatype Producer = Outside | LoadedTail(tail: nat) | Loaded(tail: nat, head: nat) | Built(tail: nat)

  /** Where a call to pop has got to. */
  datatype Consumer = Away | LoadedHead(head: nat) | LoadedBoth(head: nat, tail: nat) | Moved(head: nat) | Destroyed(head: nat)

  /** `head` and `tail` are the shared counters. The rest is history: the counts last seen by each
      side, the values constructed and moved out so far, and how many elements were destroyed. */
  datatype Ring<T> = Ring(kind: Kind, cap: nat, head: nat, tail: nat, cells: seq<Cell<T>>,
                          producer: Producer, consumer: Consumer,
                          seenHead: nat, seenTail: nat, pushed: seq<T>, popped: seq<T>, gone: nat)
  {
    /** How many elements have been published, and how many slots given back. */
    function Sent(): int { |pushed| - if producer.Built? then 1 else 0 }

    function Freed(): int { |popped| - if consumer.Moved? || consumer.Destroyed? then 1 else 0 }
  }

  datatype Step<T> =
    | LoadTail | AcquireHead(seen: nat) | RefusePush | Construct(value: T) | PublishTail
    | LoadHead | AcquireTail(seen: nat) | RefusePop | MoveOut | Destroy | PublishHead

  /** Subtraction of 64-bit counters. */
  function Minus(a: nat, b: nat): nat { (a - b) % WORD }

  function Plus1(a: nat): nat { (a + 1) % WORD }

  predicate Full(kind: Kind, cap: nat, tail: nat, head: nat) {
    match kind
    case Masked => Minus(tail, head) == cap
    case Modular => Minus(tail, head) >= cap
  }

  function Start<T>(kind: Kind, cap: nat): Ring<T> {
    Ring(kind, cap, 0, 0, seq(cap, _ => Raw), Outside, Away, 0, 0, [], [], 0)
  }

  predicate CanTake<T>(r: Ring<T>, step: Step<T>) {
    && 0 < r.cap == |r.cells|
    && match step
       case LoadTail => r.producer.Outside?
       case AcquireHead(seen) => r.producer.LoadedTail? && r.seenHead <= seen <= r.Freed()
       case RefusePush => r.producer.Loaded? && Full(r.kind, r.cap, r.producer.tail, r.producer.head)
       case Construct(_) => r.producer.Loaded? && !Full(r.kind, r.cap, r.producer.tail, r.producer.head)
                            && Slot(r.kind, r.cap, r.producer.tail) < r.cap
       case PublishTail => r.producer.Built?
       case LoadHead => r.consumer.Away?
       case AcquireTail(seen) => r.consumer.LoadedHead? && r.seenTail <= seen <= r.Sent()
       case RefusePop => r.consumer.LoadedBoth? && r.consumer.head == r.consumer.tail
       case MoveOut => r.consumer.LoadedBoth? && r.consumer.head != r.consumer.tail
                       && Slot(r.kind, r.cap, r.consumer.head) < r.cap && r.cells[Slot(r.kind, r.cap, r.consumer.head)].Live?
       case Destroy => r.consumer.Moved? && Slot(r.kind, r.cap, r.consumer.head) < r.cap
       case PublishHead => r.consumer.Destroyed?
  }

  function Take<T>(r: Ring<T>, step: Step<T>): Ring<T>
    requires CanTake(r, step)
  {
    match step
    case LoadTail => r.(producer := LoadedTail(r.tail))
    case AcquireHead(seen) => r.(producer := Loaded(r.producer.tail, seen % WORD), seenHead := seen)
    case RefusePush => r.(producer := Outside)
    case Construct(value) =>
      r.(cells := r.cells[Slot(r.kind, r.cap, r.producer.tail) := Live(value)],
         pushed := r.pushed + [value], producer := Built(r.producer.tail))
    case PublishTail => r.(tail := Plus1(r.producer.tail), producer := Outside)
    case LoadHead => r.(consumer := LoadedHead(r.head))
    case AcquireTail(seen) => r.(consumer := LoadedBoth(r.consumer.head, seen % WORD), seenTail := seen)
    case RefusePop => r.(consumer := Away)
    case MoveOut =>
      var i := Slot(r.kind, r.cap, r.consumer.head);
      r.(cells := r.cells[i := MovedFrom], popped := r.popped + [r.cells[i].value], consumer := Moved(r.consumer.head))
    case Destroy =>
      r.(cells := r.cells[Slot(r.kind, r.cap, r.consumer.head) := Raw], gone := r.gone + 1,
         consumer := Destroyed(r.consumer.head))
    case PublishHead => r.(head := Plus1(r.consumer.head), consumer := Away)
  }

  // ---- the invariant -----------------------------------------------------------------------

  ghost predicate Inv<T>(r: Ring<T>) {
    && Allowed(r.kind, r.cap) && |r.cells| == r.cap
    && Counters(r) && Registers(r) && Contents(r) && Unused(r)
  }

  ghost predicate Counters<T>(r: Ring<T>) {
    && 0 <= r.Sent() && 0 <= r.Freed()
    && r.head == r.Freed() % WORD && r.tail == r.Sent() % WORD
    && r.seenHead <= r.Freed() && |r.popped| <= r.seenTail <= r.Sent()
    && |r.pushed| - r.seenHead <= r.cap
    && r.gone == |r.popped| - (if r.consumer.Moved? then 1 else 0)
    && r.popped == r.pushed[..|r.popped|]
  }

  ghost predicate Registers<T>(r: Ring<T>) {
    && (match r.producer
        case Outside => true
        case LoadedTail(x) => x == r.tail
        case Loaded(x, y) => x == r.tail && y == r.seenHead % WORD
        case Built(x) => x == r.tail)
    && (match r.consumer
        case Away => true
        case LoadedHead(x) => x == r.head
        case LoadedBoth(x, y) => x == r.head && y == r.seenTail % WORD
        case Moved(x) => x == r.head
        case Destroyed(x) => x == r.head)
  }

  /** Every element constructed and not yet moved out sits in its own slot. */
  ghost predicate Contents<T>(r: Ring<T>)
    requires 0 < r.cap
  {
    && (forall n :: |r.popped| <= n < |r.pushed| ==> Holds(r, n, Live(r.pushed[n])))
    && (r.consumer.Moved? && |r.popped| > 0 ==> Holds(r, |r.popped| - 1, MovedFrom))
  }

  ghost predicate Holds<T>(r: Ring<T>, n: nat, cell: Cell<T>)
    requires 0 < r.cap
  {
    var i := Place(r.kind, r.cap, n);
    i < |r.cells| && r.cells[i] == cell
  }

  /** All other slots hold nothing. */
  ghost predicate Unused<T>(r: Ring<T>)
    requires 0 < r.cap
  {
    forall i :: 0 <= i < |r.cells| && r.cells[i] != Raw ==> IsUsed(r, i)
  }

  ghost predicate IsUsed<T>(r: Ring<T>, i: nat)
    requires 0 < r.cap
  {
    exists n :: r.gone <= n < |r.pushed| && Place(r.kind, r.cap, n) == i
  }

  lemma StartHolds<T>(kind: Kind, cap: nat)
    requires Allowed(kind, cap)
    ensures Inv(Start<T>(kind, cap))
  {
  }

  // ---- arithmetic on the counters ----------------------------------------------------------

  lemma MinusIs(t: nat, h: nat)
    requires h <= t < h + WORD
    ensures Minus(t % WORD, h % WORD) == t - h
  {
    var a, b := t / WORD, h / WORD;
    assert t == a * WORD + t % WORD && h == b * WORD + h % WORD;
    ModuloIs(t % WORD - h % WORD, WORD, b - a, t - h);
  }

  lemma SameCounter(t: nat, h: nat)
    requires h <= t < h + WORD
    ensures t % WORD == h % WORD <==> t == h
  {
    MinusIs(t, h);
  }

  lemma Plus1Is(n: nat)
    ensures Plus1(n % WORD) == (n + 1) % WORD
  {
    if n % WORD == WORD - 1 {
      ModuloIs(n + 1, WORD, n / WORD + 1, 0);
    } else {
      ModuloIs(n + 1, WORD, n / WORD, n % WORD + 1);
    }
  }

  /** Both rings' tests for a full ring mean the same: as many elements as slots, by the head seen. */
  lemma FullMeansFull<T>(r: Ring<T>)
    requires Inv(r) && r.producer.Loaded?
    ensures Full(r.kind, r.cap, r.producer.tail, r.producer.head) <==> |r.pushed| - r.seenHead == r.cap
    ensures |r.pushed| - r.seenHead <= r.cap
  {
    hide Contents, Unused;
    MinusIs(|r.pushed|, r.seenHead);
  }

  lemma EmptyMeansEmpty<T>(r: Ring<T>)
    requires Inv(r) && r.consumer.LoadedBoth?
    ensures r.consumer.head == r.consumer.tail <==> |r.popped| == r.seenTail
  {
    hide Contents, Unused;
    MinusIs(r.seenTail, |r.popped|);
  }

  // ---- what each write meets ---------------------------------------------------------------

  /** Wrapping is harmless: either the capacity divides the word, or no counter has wrapped yet. */
  predicate BeforeWrap<T>(r: Ring<T>, pushes: nat)
    requires 0 < r.cap
  {
    Divides(r.cap) || pushes <= WORD
  }

  lemma PlaceOfTail<T>(r: Ring<T>)
    requires Inv(r) && r.producer.Loaded?
    ensures Slot(r.kind, r.cap, r.producer.tail) == Place(r.kind, r.cap, |r.pushed|) < r.cap
  {
    hide Contents, Unused, Slot;
    SlotIsModulo(r.kind, r.cap, r.producer.tail);
  }

  lemma PlaceOfHead<T>(r: Ring<T>)
    requires Inv(r) && !r.consumer.Away?
    ensures r.Freed() >= 0
    ensures Slot(r.kind, r.cap, r.consumer.head) == Place(r.kind, r.cap, r.Freed()) < r.cap
  {
    hide Contents, Unused, Slot;
    SlotIsModulo(r.kind, r.cap, r.consumer.head);
  }

  /** No unread element is ever overwritten: the slot about to be constructed in is empty. */
  lemma ConstructsInAnEmptySlot<T>(r: Ring<T>, value: T)
    requires Inv(r) && CanTake(r, Construct(value)) && BeforeWrap(r, |r.pushed| + 1)
    ensures r.cells[Slot(r.kind, r.cap, r.producer.tail)] == Raw
  {
    PlaceOfTail(r);
    FullMeansFull(r);
    hide Slot, Place, Contents;
    var i := Slot(r.kind, r.cap, r.producer.tail);
    if r.cells[i] != Raw {
      var n :| r.gone <= n < |r.pushed| && Place(r.kind, r.cap, n) == i;
      PlacesApart(r.kind, r.cap, n, |r.pushed|);
      assert false;
    }
  }

  /** The consumer moves out exactly the oldest element not yet taken, and it is fully constructed. */
  lemma MovesOutTheOldest<T>(r: Ring<T>)
    requires Inv(r) && r.consumer.LoadedBoth? && r.consumer.head != r.consumer.tail
    ensures CanTake(r, MoveOut) && |r.popped| < r.Sent()
    ensures r.cells[Slot(r.kind, r.cap, r.consumer.head)] == Live(r.pushed[|r.popped|])
  {
    PlaceOfHead(r);
    EmptyMeansEmpty(r);
    hide Slot, Place, Unused;
    assert Holds(r, |r.popped|, Live(r.pushed[|r.popped|]));
  }

  /** The producer and the consumer are never at work on one slot. */
  lemma NeverOnOneSlot<T>(r: Ring<T>)
    requires Inv(r) && BeforeWrap(r, |r.pushed| + 1)
    requires r.producer.Loaded? && !Full(r.kind, r.cap, r.producer.tail, r.producer.head)
    requires (r.consumer.LoadedBoth? && r.consumer.head != r.consumer.tail) || r.consumer.Moved?
    ensures Slot(r.kind, r.cap, r.producer.tail) != Slot(r.kind, r.cap, r.consumer.head)
  {
    PlaceOfTail(r);
    PlaceOfHead(r);
    FullMeansFull(r);
    if r.consumer.LoadedBoth? { EmptyMeansEmpty(r); }
    PlacesApart(r.kind, r.cap, r.Freed(), |r.pushed|);
  }

  // ---- every step keeps the invariant ------------------------------------------------------

  lemma ConstructKeepsInv<T>(r: Ring<T>, value: T)
    requires Inv(r) && CanTake(r, Construct(value)) && BeforeWrap(r, |r.pushed| + 1)
    ensures Inv(Take(r, Construct(value)))
  {
    ConstructKeepsCounters(r, value);
    ConstructKeepsContents(r, value);
    ConstructKeepsUnused(r, value);
    hide Counters, Registers, Contents, Unused, Slot, Full;
  }

  lemma ConstructKeepsCounters<T>(r: Ring<T>, value: T)
    requires Inv(r) && CanTake(r, Construct(value))
    ensures Counters(Take(r, Construct(value))) && Registers(Take(r, Construct(value)))
  {
    FullMeansFull(r);
    ConstructSendsNothing(r, value);
    PrefixStays(r.pushed, value, |r.popped|);
    hide Slot, Full, Contents, Unused, Minus;
  }

  /** What is constructed counts only when it is published. */
  lemma ConstructSendsNothing<T>(r: Ring<T>, value: T)
    requires CanTake(r, Construct(value))
    ensures var s := Take(r, Construct(value));
            && s.Sent() == r.Sent() && s.Freed() == r.Freed() && s.head == r.head && s.tail == r.tail
            && s.seenHead == r.seenHead && s.seenTail == r.seenTail && s.popped == r.popped && s.gone == r.gone
            && s.consumer == r.consumer && s.producer == Built(r.producer.tail) && s.pushed == r.pushed + [value]
  {
    hide Slot, Full;
  }

  lemma PrefixStays<T>(s: seq<T>, x: T, n: nat)
    ensures n <= |s| ==> (s + [x])[..n] == s[..n]
  {
  }

  lemma ConstructKeepsContents<T>(r: Ring<T>, value: T)
    requires Inv(r) && CanTake(r, Construct(value)) && BeforeWrap(r, |r.pushed| + 1)
    ensures Contents(Take(r, Construct(value)))
  {
    PlaceOfTail(r);
    ConstructsInAnEmptySlot(r, value);
    hide Slot, Place, Full, Counters, Registers, Unused;
    var s := Take(r, Construct(value));
    forall n | |s.popped| <= n < |s.pushed| ensures Holds(s, n, Live(s.pushed[n])) {
      if n < |r.pushed| { assert Holds(r, n, Live(r.pushed[n])); }
    }
  }

  lemma ConstructKeepsUnused<T>(r: Ring<T>, value: T)
    requires Inv(r) && CanTake(r, Construct(value))
    ensures Unused(Take(r, Construct(value)))
  {
    PlaceOfTail(r);
    hide Slot, Place, Full, Registers, Contents;
    var s := Take(r, Construct(value));
    assert r.gone <= |r.pushed|;
    forall i | 0 <= i < |s.cells| && s.cells[i] != Raw ensures IsUsed(s, i) {
      if r.cells[i] != Raw {
        var n :| r.gone <= n < |r.pushed| && Place(r.kind, r.cap, n) == i;
        assert Place(s.kind, s.cap, n) == i;
      } else {
        assert Place(s.kind, s.cap, |r.pushed|) == i;
      }
    }
  }

  lemma MoveOutKeepsInv<T>(r: Ring<T>)
    requires Inv(r) && CanTake(r, MoveOut) && BeforeWrap(r, |r.pushed|)
    ensures Inv(Take(r, MoveOut))
  {
    MoveOutKeepsCounters(r);
    MoveOutKeepsContents(r);
    MoveOutKeepsUnused(r);
    hide Counters, Registers, Contents, Unused, Slot;
  }

  lemma MoveOutKeepsCounters<T>(r: Ring<T>)
    requires Inv(r) && CanTake(r, MoveOut)
    ensures Counters(Take(r, MoveOut)) && Registers(Take(r, MoveOut))
  {
    MovesOutTheOldest(r);
    EmptyMeansEmpty(r);
    hide Slot, Full, Contents, Unused;
    var s := Take(r, MoveOut);
    assert s.popped == s.pushed[..|s.popped|];
  }

  lemma MoveOutKeepsContents<T>(r: Ring<T>)
    requires Inv(r) && CanTake(r, MoveOut) && BeforeWrap(r, |r.pushed|)
    ensures Contents(Take(r, MoveOut))
  {
    PlaceOfHead(r);
    MovesOutTheOldest(r);
    hide Slot, Place, Full, Registers, Unused;
    var s := Take(r, MoveOut);
    forall n | |s.popped| <= n < |s.pushed| ensures Holds(s, n, Live(s.pushed[n])) {
      assert Holds(r, n, Live(r.pushed[n]));
      PlacesApart(r.kind, r.cap, |r.popped|, n);
    }
  }

  lemma MoveOutKeepsUnused<T>(r: Ring<T>)
    requires Inv(r) && CanTake(r, MoveOut)
    ensures Unused(Take(r, MoveOut))
  {
    PlaceOfHead(r);
    MovesOutTheOldest(r);
    hide Slot, Place, Full, Registers, Contents;
    var s := Take(r, MoveOut);
    forall i | 0 <= i < |s.cells| && s.cells[i] != Raw ensures IsUsed(s, i) {
      if r.cells[i] != Raw {
        var n :| r.gone <= n < |r.pushed| && Place(r.kind, r.cap, n) == i;
        assert Place(s.kind, s.cap, n) == i;
      }
    }
  }

  lemma DestroyKeepsInv<T>(r: Ring<T>)
    requires Inv(r) && CanTake(r, Destroy) && BeforeWrap(r, |r.pushed|)
    ensures Inv(Take(r, Destroy))
  {
    PlaceOfHead(r);
    hide Slot, Place, Full;
    var s := Take(r, Destroy);
    forall n | |s.popped| <= n < |s.pushed| ensures Holds(s, n, Live(s.pushed[n])) {
      assert Holds(r, n, Live(r.pushed[n]));
      PlacesApart(r.kind, r.cap, r.gone, n);
    }
    forall i | 0 <= i < |s.cells| && s.cells[i] != Raw ensures IsUsed(s, i) {
      var n :| r.gone <= n < |r.pushed| && Place(r.kind, r.cap, n) == i;
      assert n != r.gone;
      assert Place(s.kind, s.cap, n) == i;
    }
  }

  /** The steps that leave the storage alone. */
  predicate Leaves<T>(step: Step<T>) { !step.Construct? && !step.MoveOut? && !step.Destroy? }

  lemma OtherStepKeepsInv<T>(r: Ring<T>, step: Step<T>)
    requires Inv(r) && CanTake(r, step) && Leaves(step)
    ensures Inv(Take(r, step))
  {
    var s := Take(r, step);
    OtherStepKeepsCounters(r, step);
    hide Counters, Registers, Slot, Place, Full;
    assert s.cells == r.cells && s.pushed == r.pushed && s.popped == r.popped && s.gone == r.gone;
    assert s.consumer.Moved? == r.consumer.Moved?;
    forall n | |s.popped| <= n < |s.pushed| ensures Holds(s, n, Live(s.pushed[n])) {
      assert Holds(r, n, Live(r.pushed[n]));
    }
    if s.consumer.Moved? && |s.popped| > 0 { assert Holds(r, |r.popped| - 1, MovedFrom); }
    forall i | 0 <= i < |s.cells| && s.cells[i] != Raw ensures IsUsed(s, i) {
      var n :| r.gone <= n < |r.pushed| && Place(r.kind, r.cap, n) == i;
      assert Place(s.kind, s.cap, n) == i;
    }
  }

  lemma OtherStepKeepsCounters<T>(r: Ring<T>, step: Step<T>)
    requires Inv(r) && CanTake(r, step) && Leaves(step)
    ensures Counters(Take(r, step)) && Registers(Take(r, step))
  {
    hide Contents, Unused, Slot, Place, Full;
    if step.PublishTail? { Plus1Is(r.Sent()); }
    if step.PublishHead? { Plus1Is(r.Freed()); }
  }

  lemma StepKeepsInv<T>(r: Ring<T>, step: Step<T>)
    requires Inv(r) && CanTake(r, step) && BeforeWrap(r, |Take(r, step).pushed|)
    ensures Inv(Take(r, step))
  {
    hide Inv, CanTake, Slot;
    match step
    case Construct(value) => ConstructKeepsInv(r, value);
    case MoveOut => MoveOutKeepsInv(r);
    case Destroy => DestroyKeepsInv(r);
    case _ => OtherStepKeepsInv(r, step);
  }
}

/** Whole runs of the ring protocol, and the ring object whose calls are such runs. */
module SpscRing {
  import opened Wrappers
  import opened RingIndex
  import opened SpscProtocol

  // ---- any interleaving --------------------------------------------------------------------

  predicate CanRun<T>(r: Ring<T>, steps: seq<Step<T>>)
    decreases |steps|
  {
    steps == [] || (CanTake(r, steps[0]) && CanRun(Take(r, steps[0]), steps[1..]))
  }

  function Run<T>(r: Ring<T>, steps: seq<Step<T>>): Ring<T>
    requires CanRun(r, steps)
    decreases |steps|
  {
    if steps == [] then r else Run(Take(r, steps[0]), steps[1..])
  }

  lemma StepOnlyAppends<T>(r: Ring<T>, step: Step<T>)
    requires CanTake(r, step)
    ensures Take(r, step).kind == r.kind && Take(r, step).cap == r.cap
    ensures r.pushed <= Take(r, step).pushed && r.popped <= Take(r, step).popped
  {
  }

  lemma {:induction false} RunKeepsInv<T>(r: Ring<T>, steps: seq<Step<T>>)
    requires Inv(r) && CanRun(r, steps) && BeforeWrap(r, |Run(r, steps).pushed|)
    ensures Inv(Run(r, steps)) && r.pushed <= Run(r, steps).pushed && r.cap == Run(r, steps).cap
    decreases |steps|
  {
    hide Inv, CanTake, Take;
    if steps == [] {
    } else {
      StepOnlyAppends(r, steps[0]);
      var s := Take(r, steps[0]);
      RunOnlyAppends(s, steps[1..]);
      StepKeepsInv(r, steps[0]);
      RunKeepsInv(s, steps[1..]);
    }
  }

  lemma {:induction false} RunOnlyAppends<T>(r: Ring<T>, steps: seq<Step<T>>)
    requires CanRun(r, steps)
    ensures r.pushed <= Run(r, steps).pushed && r.popped <= Run(r, steps).popped
    decreases |steps|
  {
    hide CanTake, Take;
    if steps == [] {
    } else {
      StepOnlyAppends(r, steps[0]);
      RunOnlyAppends(Take(r, steps[0]), steps[1..]);
    }
  }

  /** For any interleaving of both sides and any staleness of their loads: what was popped is a
      prefix of what was pushed, at most a capacity of elements is in flight, each of those sits
      untouched in its slot, and an element is destroyed exactly once, in order. */
  lemma PoppedIsAPrefixOfPushed<T>(kind: Kind, cap: nat, steps: seq<Step<T>>)
    requires Allowed(kind, cap) && CanRun(Start(kind, cap), steps)
    requires Divides(cap) || |Run(Start(kind, cap), steps).pushed| <= WORD
    ensures var r := Run(Start(kind, cap), steps);
            && r.cap == cap && r.popped <= r.pushed && |r.pushed| - |r.popped| <= cap
            && |r.popped| - 1 <= r.gone <= |r.popped|
            && forall n :: |r.popped| <= n < |r.pushed| ==> Holds(r, n, Live(r.pushed[n]))
  {
    StartHolds<T>(kind, cap);
    RunKeepsInv(Start(kind, cap), steps);
    RunKeepsKind(Start(kind, cap), steps);
    var r := Run(Start(kind, cap), steps);
  }

  lemma {:induction false} RunKeepsKind<T>(r: Ring<T>, steps: seq<Step<T>>)
    requires CanRun(r, steps)
    ensures Run(r, steps).kind == r.kind && Run(r, steps).cap == r.cap
    decreases |steps|
  {
    hide CanTake, Take;
    if steps == [] {
    } else {
      StepOnlyAppends(r, steps[0]);
      RunKeepsKind(Take(r, steps[0]), steps[1..]);
    }
  }

  /** With a masked ring there is no bound on the run at all. */
  lemma MaskedRingsNeverFail<T>(cap: nat, steps: seq<Step<T>>)
    requires Allowed(Masked, cap) && CanRun(Start(Masked, cap), steps)
    ensures Inv(Run(Start(Masked, cap), steps))
  {
    MaskedDivides(cap);
    StartHolds<T>(Masked, cap);
    RunKeepsInv(Start(Masked, cap), steps);
  }

  // ---- the object --------------------------------------------------------------------------

  /** The steps of one undisturbed call. */
  function PushSteps<T>(r: Ring<T>, value: T, ok: bool): seq<Step<T>>
    requires r.Freed() >= 0
  {
    [LoadTail, AcquireHead(r.Freed())] + if ok then [Construct(value), PublishTail] else [RefusePush]
  }

  function PopSteps<T>(r: Ring<T>, ok: bool): seq<Step<T>>
    requires r.Sent() >= 0
  {
    [LoadHead, AcquireTail(r.Sent())] + if ok then [MoveOut, Destroy, PublishHead] else [RefusePop]
  }

  class RingBuffer<T> {
    const kind: Kind
    const cap: nat
    var head: nat
    var tail: nat
    const storage: array<Cell<T>>
    ghost var model: Ring<T>

    ghost predicate Valid()
      reads this, storage
    {
      && Inv(model) && model.producer == Outside && model.consumer == Away
      && model.kind == kind && model.cap == cap && model.cells == storage[..]
      && model.head == head && model.tail == tail
    }

    constructor (kind: Kind, cap: nat)
      requires Allowed(kind, cap)
      ensures Valid() && fresh(storage) && this.kind == kind && this.cap == cap && model == Start(kind, cap)
    {
      this.kind, this.cap := kind, cap;
      head, tail := 0, 0;
      storage := new Cell<T>[cap](_ => Raw);
      model := Start(kind, cap);
      new;
      StartHolds<T>(kind, cap);
      assert storage[..] == model.cells;
    }

    method Emplace(value: T) returns (ok: bool)
      requires Valid() && BeforeWrap(model, |model.pushed| + 1)
      modifies this`tail, this`model, storage
      ensures Valid()
      ensures ok <==> |old(model).pushed| - |old(model).popped| < cap
      ensures CanRun(old(model), PushSteps(old(model), value, ok)) && model == Run(old(model), PushSteps(old(model), value, ok))
      ensures model.pushed == old(model).pushed + (if ok then [value] else []) && model.popped == old(model).popped
    {
      hide Inv, Slot;
      ghost var r0 := model;
      FreedAll(r0);
      var t := tail;
      var h := head;
      ghost var r1 := Take(r0, LoadTail);
      StepKeepsInv(r0, LoadTail);
      ghost var r2 := Take(r1, AcquireHead(|r0.popped|));
      StepKeepsInv(r1, AcquireHead(|r0.popped|));
      FullMeansFull(r2);
      if Full(kind, cap, t, h) {
        StepKeepsInv(r2, RefusePush);
        model := Take(r2, RefusePush);
        RunsThree(r0, LoadTail, AcquireHead(|r0.popped|), RefusePush);
        return false;
      }
      PlaceOfTail(r2);
      assert CanTake(r2, Construct(value));
      storage[Slot(kind, cap, t)] := Live(value);
      ghost var r3 := Take(r2, Construct(value));
      StepKeepsInv(r2, Construct(value));
      tail := Plus1(t);
      StepKeepsInv(r3, PublishTail);
      model := Take(r3, PublishTail);
      RunsFour(r0, LoadTail, AcquireHead(|r0.popped|), Construct(value), PublishTail);
      assert storage[..] == model.cells;
      return true;
    }

    method Pop() returns (out: Option<T>)
      requires Valid() && BeforeWrap(model, |model.pushed|)
      modifies this`head, this`model, storage
      ensures Valid()
      ensures out == if |old(model).popped| < |old(model).pushed| then Some(old(model).pushed[|old(model).popped|]) else None
      ensures CanRun(old(model), PopSteps(old(model), out.Some?)) && model == Run(old(model), PopSteps(old(model), out.Some?))
      ensures model.popped == old(model).popped + (if out.Some? then [out.value] else []) && model.pushed == old(model).pushed
    {
      hide Inv, Slot;
      ghost var r0 := model;
      FreedAll(r0);
      var h := head;
      var t := tail;
      ghost var r1 := Take(r0, LoadHead);
      StepKeepsInv(r0, LoadHead);
      ghost var r2 := Take(r1, AcquireTail(|r0.pushed|));
      StepKeepsInv(r1, AcquireTail(|r0.pushed|));
      EmptyMeansEmpty(r2);
      if h == t {
        StepKeepsInv(r2, RefusePop);
        model := Take(r2, RefusePop);
        RunsThree(r0, LoadHead, AcquireTail(|r0.pushed|), RefusePop);
        return None;
      }
      MovesOutTheOldest(r2);
      var cell := Slot(kind, cap, h);
      out := Some(storage[cell].value);
      ghost var r3 := Take(r2, MoveOut);
      StepKeepsInv(r2, MoveOut);
      PlaceOfHead(r3);
      storage[cell] := Raw;
      ghost var r4 := Take(r3, Destroy);
      StepKeepsInv(r3, Destroy);
      head := Plus1(h);
      StepKeepsInv(r4, PublishHead);
      model := Take(r4, PublishHead);
      RunsFive(r0, LoadHead, AcquireTail(|r0.pushed|), MoveOut, Destroy, PublishHead);
      assert storage[..] == model.cells;
    }

    /** The destructor of the in-process ring: destroys what is still in flight, and nothing else. */
    method Clear() returns (destroyed: nat)
      requires Valid() && BeforeWrap(model, |model.pushed|)
      modifies storage
      ensures destroyed == |model.pushed| - |model.popped|
      ensures forall i :: 0 <= i < storage.Length ==> storage[i] == Raw
    {
      FreedAll(model);
      ClearStart(model);
      var i := head;
      destroyed := 0;
      ghost var n := |model.popped|;
      hide Inv, Remaining, Slot, Plus1, Minus, BeforeWrap;
      while i != tail
        invariant |model.popped| <= n <= |model.pushed| && destroyed == n - |model.popped|
        invariant i == n % WORD && Remaining(model, storage[..], n)
        decreases |model.pushed| - n
      {
        SameCounter(|model.pushed|, n);
        var cell := Slot(kind, cap, i);
        ClearStep(model, storage[..], n);
        ghost var was := storage[..];
        storage[cell] := Raw;
        assert storage[..] == was[cell := Raw];
        Plus1Is(n);
        i := Plus1(i);
        destroyed, n := destroyed + 1, n + 1;
      }
      SameCounter(|model.pushed|, n);
      ClearEnd(model, storage[..]);
    }
  }

  /** The storage once the elements before the `from`-th are gone. */
  ghost predicate Remaining<T>(r: Ring<T>, cells: seq<Cell<T>>, from: nat)
    requires 0 < r.cap
  {
    && |cells| == r.cap
    && (forall i :: 0 <= i < |cells| && cells[i] != Raw ==> UsedFrom(r, from, i))
    && (forall n :: from <= n < |r.pushed| ==> Holds(r.(cells := cells), n, Live(r.pushed[n])))
  }

  lemma ClearStart<T>(r: Ring<T>)
    requires Inv(r) && r.producer == Outside && r.consumer == Away
    ensures Remaining(r, r.cells, |r.popped|)
  {
    forall i | 0 <= i < |r.cells| && r.cells[i] != Raw ensures UsedFrom(r, |r.popped|, i) {
      assert IsUsed(r, i);
    }
    assert r.(cells := r.cells) == r;
  }

  lemma ClearStep<T>(r: Ring<T>, cells: seq<Cell<T>>, n: nat)
    requires Inv(r) && BeforeWrap(r, |r.pushed|) && Remaining(r, cells, n)
    requires |r.popped| <= n < |r.pushed| && |r.pushed| - |r.popped| <= r.cap
    ensures var i := Slot(r.kind, r.cap, n % WORD);
            i < |cells| && cells[i] == Live(r.pushed[n]) && Remaining(r, cells[i := Raw], n + 1)
  {
    var i := Place(r.kind, r.cap, n);
    assert Holds(r.(cells := cells), n, Live(r.pushed[n]));
    var left := cells[i := Raw];
    forall m | n + 1 <= m < |r.pushed| ensures Holds(r.(cells := left), m, Live(r.pushed[m])) {
      assert Holds(r.(cells := cells), m, Live(r.pushed[m]));
      PlacesApart(r.kind, r.cap, n, m);
    }
    hide Slot;
    forall j | 0 <= j < |left| && left[j] != Raw ensures UsedFrom(r, n + 1, j) {
      assert UsedFrom(r, n, j);
      var m :| n <= m < |r.pushed| && Place(r.kind, r.cap, m) == j;
      assert m != n;
    }
  }

  lemma ClearEnd<T>(r: Ring<T>, cells: seq<Cell<T>>)
    requires 0 < r.cap && Remaining(r, cells, |r.pushed|)
    ensures forall i :: 0 <= i < |cells| ==> cells[i] == Raw
  {
  }

  lemma FreedAll<T>(r: Ring<T>)
    requires Inv(r) && r.producer == Outside && r.consumer == Away
    ensures r.Freed() == |r.popped| == r.gone <= r.Sent() == |r.pushed| <= |r.popped| + r.cap && r.head == |r.popped| % WORD && r.tail == |r.pushed| % WORD
    ensures r.seenHead <= |r.popped| && r.seenTail <= |r.pushed| && 0 < r.cap == |r.cells|
  {
  }

  ghost predicate UsedFrom<T>(r: Ring<T>, from: nat, i: nat)
    requires 0 < r.cap
  {
    exists n :: from <= n < |r.pushed| && Place(r.kind, r.cap, n) == i
  }

  lemma RunsThree<T>(r: Ring<T>, a: Step<T>, b: Step<T>, c: Step<T>)
    requires CanTake(r, a) && CanTake(Take(r, a), b) && CanTake(Take(Take(r, a), b), c)
    ensures CanRun(r, [a, b] + [c]) && Run(r, [a, b] + [c]) == Take(Take(Take(r, a), b), c)
  {
    hide CanTake, Take;
    assert ([a, b] + [c])[1..] == [b, c] && [b, c][1..] == [c] && [c][1..] == [];
    RunsOne(Take(Take(r, a), b), c);
  }

  lemma RunsOne<T>(r: Ring<T>, a: Step<T>)
    requires CanTake(r, a)
    ensures CanRun(r, [a]) && Run(r, [a]) == Take(r, a)
  {
    assert [a][1..] == [];
  }

  lemma RunsTwo<T>(r: Ring<T>, a: Step<T>, b: Step<T>)
    requires CanTake(r, a) && CanTake(Take(r, a), b)
    ensures CanRun(r, [a, b]) && Run(r, [a, b]) == Take(Take(r, a), b)
  {
    hide CanTake, Take;
    assert [a, b][1..] == [b];
    RunsOne(Take(r, a), b);
  }

  lemma RunsJoin<T>(r: Ring<T>, a: Step<T>, b: Step<T>, rest: seq<Step<T>>)
    requires CanTake(r, a) && CanTake(Take(r, a), b) && CanRun(Take(Take(r, a), b), rest)
    ensures CanRun(r, [a, b] + rest) && Run(r, [a, b] + rest) == Run(Take(Take(r, a), b), rest)
  {
    hide CanTake, Take;
    assert ([a, b] + rest)[1..] == [b] + rest && ([b] + rest)[1..] == rest;
    assert ([b] + rest)[0] == b;
  }

  lemma RunsFour<T>(r: Ring<T>, a: Step<T>, b: Step<T>, c: Step<T>, d: Step<T>)
    requires CanTake(r, a) && CanTake(Take(r, a), b) && CanTake(Take(Take(r, a), b), c)
    requires CanTake(Take(Take(Take(r, a), b), c), d)
    ensures CanRun(r, [a, b] + [c, d]) && Run(r, [a, b] + [c, d]) == Take(Take(Take(Take(r, a), b), c), d)
  {
    hide CanTake, Take, Run, CanRun;
    RunsTwo(Take(Take(r, a), b), c, d);
    RunsJoin(r, a, b, [c, d]);
  }

  lemma RunsFive<T>(r: Ring<T>, a: Step<T>, b: Step<T>, c: Step<T>, d: Step<T>, e: Step<T>)
    requires CanTake(r, a) && CanTake(Take(r, a), b) && CanTake(Take(Take(r, a), b), c)
    requires CanTake(Take(Take(Take(r, a), b), c), d) && CanTake(Take(Take(Take(Take(r, a), b), c), d), e)
    ensures CanRun(r, [a, b] + [c, d, e]) && Run(r, [a, b] + [c, d, e]) == Take(Take(Take(Take(Take(r, a), b), c), d), e)
  {
    hide CanTake, Take, Run, CanRun;
    RunsThree(Take(Take(r, a), b), c, d, e);
    assert [c, d] + [e] == [c, d, e];
    RunsJoin(r, a, b, [c, d, e]);
  }
}

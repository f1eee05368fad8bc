/** The shared-memory ring reduces its counters modulo any capacity. What happens when they wrap? */
module SpscWrap {
  import opened RingIndex
  import opened SpscProtocol
  import opened SpscRing
  import PowersOfTwo

  // ---- undisturbed calls, also after the wrap ----------------------------------------------

  lemma PushRuns<T>(r: Ring<T>, value: T)
    requires 0 < r.cap == |r.cells| && r.producer == Outside && r.consumer == Away && r.seenHead <= |r.popped|
    requires !Full(r.kind, r.cap, r.tail, |r.popped| % WORD) && Slot(r.kind, r.cap, r.tail) < r.cap
    ensures CanRun(r, PushSteps(r, value, true))
    ensures Run(r, PushSteps(r, value, true))
         == r.(cells := r.cells[Slot(r.kind, r.cap, r.tail) := Live(value)], pushed := r.pushed + [value],
               tail := Plus1(r.tail), seenHead := |r.popped|)
  {
    hide Slot, Full, Plus1;
    RunsFour(r, LoadTail, AcquireHead(|r.popped|), Construct(value), PublishTail);
  }

  lemma PopRuns<T>(r: Ring<T>)
    requires 0 < r.cap == |r.cells| && r.producer == Outside && r.consumer == Away && r.seenTail <= |r.pushed|
    requires r.head != |r.pushed| % WORD && Slot(r.kind, r.cap, r.head) < r.cap
    requires r.cells[Slot(r.kind, r.cap, r.head)].Live?
    ensures CanRun(r, PopSteps(r, true))
    ensures Run(r, PopSteps(r, true))
         == r.(cells := r.cells[Slot(r.kind, r.cap, r.head) := Raw], gone := r.gone + 1, head := Plus1(r.head),
               popped := r.popped + [r.cells[Slot(r.kind, r.cap, r.head)].value], seenTail := |r.pushed|)
  {
    hide Slot, Plus1;
    var i := Slot(r.kind, r.cap, r.head);
    assert r.cells[i := MovedFrom][i := Raw] == r.cells[i := Raw];
    RunsFive(r, LoadHead, AcquireTail(|r.pushed|), MoveOut, Destroy, PublishHead);
  }

  // ---- up to the wrap ----------------------------------------------------------------------

  /** `n` elements have passed through, and the ring is empty. */
  predicate Empty<T>(r: Ring<T>, cap: nat, n: nat) {
    && r.kind == Modular && r.cap == cap && |r.cells| == cap && (forall i :: 0 <= i < cap ==> r.cells[i].Raw?)
    && r.producer == Outside && r.consumer == Away && r.head == r.tail == n % WORD
    && |r.pushed| == n && |r.popped| == n && r.seenHead <= n && r.seenTail <= n
  }

  lemma OnePasses<T>(r: Ring<T>, cap: nat, n: nat, v: T) returns (steps: seq<Step<T>>)
    requires 0 < cap && Empty(r, cap, n)
    ensures CanRun(r, steps) && Empty(Run(r, steps), cap, n + 1)
  {
    var i := Slot(Modular, cap, r.tail);
    assert Minus(r.tail, n % WORD) == 0;
    PushRuns(r, v);
    var mid := Run(r, PushSteps(r, v, true));
    SameCounter(n + 1, n);
    Plus1Is(n);
    PopRuns(mid);
    assert r.cells[i := Live(v)][i := Raw] == r.cells;
    steps := PushSteps(r, v, true) + PopSteps(mid, true);
    RunsBoth(r, PushSteps(r, v, true), PopSteps(mid, true));
  }

  lemma {:induction false} RunsBoth<T>(r: Ring<T>, xs: seq<Step<T>>, ys: seq<Step<T>>)
    requires CanRun(r, xs) && CanRun(Run(r, xs), ys)
    ensures CanRun(r, xs + ys) && Run(r, xs + ys) == Run(Run(r, xs), ys)
    decreases |xs|
  {
    hide CanTake, Take;
    if xs == [] {
      assert xs + ys == ys;
    } else {
      RunsBoth(Take(r, xs[0]), xs[1..], ys);
      assert (xs + ys)[0] == xs[0] && (xs + ys)[1..] == xs[1..] + ys;
    }
  }

  lemma {:induction false} ManyPass<T>(cap: nat, n: nat, v: T) returns (steps: seq<Step<T>>)
    requires 0 < cap
    ensures CanRun(Start<T>(Modular, cap), steps) && Empty(Run(Start<T>(Modular, cap), steps), cap, n)
  {
    if n == 0 {
      steps := [];
    } else {
      var before := ManyPass<T>(cap, n - 1, v);
      hide Empty;
      var next := OnePasses(Run(Start<T>(Modular, cap), before), cap, n - 1, v);
      RunsBoth(Start<T>(Modular, cap), before, next);
      steps := before + next;
    }
  }

  // ---- across it ---------------------------------------------------------------------------

  /** The counters wrap: element WORD - 1 is in slot `edge - 1`, unread, and `j` elements were pushed
      from there on, none of the others into that slot. */
  predicate Across<T>(r: Ring<T>, cap: nat, edge: nat, j: nat) {
    && r.kind == Modular && 0 < r.cap == cap == |r.cells|
    && r.producer == Outside && r.consumer == Away && r.seenHead <= |r.popped| == WORD - 1
    && 1 <= j && |r.pushed| == WORD - 1 + j && r.tail == j - 1
    && 0 < edge < cap && r.cells[edge - 1].Live?
  }

  lemma TheLastBeforeTheWrap<T>(r: Ring<T>, cap: nat, v: T) returns (steps: seq<Step<T>>)
    requires Allowed(Modular, cap) && !Divides(cap) && Empty(r, cap, WORD - 1)
    ensures CanRun(r, steps) && Across(Run(r, steps), cap, WORD % cap, 1)
  {
    assert Minus(r.tail, (WORD - 1) % WORD) == 0;
    LastRemainder(WORD, cap);
    PushRuns(r, v);
    steps := PushSteps(r, v, true);
  }

  lemma OneMoreAcross<T>(r: Ring<T>, cap: nat, edge: nat, j: nat, v: T) returns (steps: seq<Step<T>>)
    requires Allowed(Modular, cap) && Across(r, cap, edge, j) && j < edge
    ensures CanRun(r, steps) && Across(Run(r, steps), cap, edge, j + 1)
  {
    NotFullAcross(cap, j);
    PowersOfTwo.SmallModulo(j - 1, cap);
    assert Plus1(j - 1) == j;
    hide Full, Minus, Plus1;
    PushRuns(r, v);
    steps := PushSteps(r, v, true);
  }

  lemma NotFullAcross(cap: nat, j: nat)
    requires 1 <= j < cap <= 0xFFFF_FFFF
    ensures !Full(Modular, cap, j - 1, (WORD - 1) % WORD)
  {
    PowersOfTwo.ModuloIs(j - 1 - (WORD - 1), WORD, -1, j);
  }

  lemma {:induction false} SomeAcross<T>(r: Ring<T>, cap: nat, j: nat, v: T) returns (steps: seq<Step<T>>)
    requires Allowed(Modular, cap) && !Divides(cap) && Empty(r, cap, WORD - 1) && 1 <= j <= WORD % cap
    ensures CanRun(r, steps) && Across(Run(r, steps), cap, WORD % cap, j)
    decreases j
  {
    hide Across, Empty;
    if j == 1 {
      steps := TheLastBeforeTheWrap(r, cap, v);
    } else {
      var before := SomeAcross(r, cap, j - 1, v);
      var next := OneMoreAcross(Run(r, before), cap, WORD % cap, j - 1, v);
      RunsBoth(r, before, next);
      steps := before + next;
    }
  }

  /** The producer is about to construct in a slot whose element has not been read. */
  predicate Overwrites<T>(r: Ring<T>, v: T) {
    CanTake(r, Construct(v)) && r.cells[Slot(r.kind, r.cap, r.producer.tail)].Live?
  }

  lemma NextOverwrites<T>(r: Ring<T>, cap: nat, edge: nat, v: T) returns (steps: seq<Step<T>>)
    requires Allowed(Modular, cap) && Across(r, cap, edge, edge)
    ensures CanRun(r, steps) && Overwrites(Run(r, steps), v)
  {
    NotFullAcross(cap, edge);
    PowersOfTwo.SmallModulo(edge - 1, cap);
    hide Full, Minus;
    steps := [LoadTail, AcquireHead(WORD - 1)];
    RunsTwo(r, LoadTail, AcquireHead(WORD - 1));
  }

  /** A ring whose capacity does not divide the word does come to overwrite an unread element: push and
      pop in turns until the counters are about to wrap, then push without popping. */
  lemma OverwritesAfterTheWrap<T>(cap: nat, v: T) returns (steps: seq<Step<T>>)
    requires Allowed(Modular, cap) && !Divides(cap)
    ensures CanRun(Start<T>(Modular, cap), steps) && Overwrites(Run(Start<T>(Modular, cap), steps), v)
  {
    hide Empty, Across, Overwrites, CanRun, Run;
    var pairs := ManyPass<T>(cap, WORD - 1, v);
    var empty := Run(Start<T>(Modular, cap), pairs);
    var pushes := SomeAcross(empty, cap, WORD % cap, v);
    var last := NextOverwrites(Run(empty, pushes), cap, WORD % cap, v);
    RunsBoth(empty, pushes, last);
    RunsBoth(Start<T>(Modular, cap), pairs, pushes + last);
    steps := pairs + (pushes + last);
  }

  /** Over all runs, in any interleaving: the modulo ring never overwrites an unread element if and
      only if its capacity divides the counters' range. */
  lemma WrapIsHarmlessExactly<T(!new)>(cap: nat, v: T)
    requires Allowed(Modular, cap)
    ensures Divides(cap) <==> forall steps: seq<Step<T>> :: CanRun(Start<T>(Modular, cap), steps) ==>
                                !Overwrites(Run(Start<T>(Modular, cap), steps), v)
  {
    if Divides(cap) {
      forall steps: seq<Step<T>> | CanRun(Start<T>(Modular, cap), steps)
        ensures !Overwrites(Run(Start<T>(Modular, cap), steps), v)
      {
        var r := Run(Start<T>(Modular, cap), steps);
        StartHolds<T>(Modular, cap);
        RunKeepsInv(Start<T>(Modular, cap), steps);
        hide Inv, CanRun, Run;
        if CanTake(r, Construct(v)) { ConstructsInAnEmptySlot(r, v); }
      }
    } else {
      var steps := OverwritesAfterTheWrap<T>(cap, v);
    }
  }
}

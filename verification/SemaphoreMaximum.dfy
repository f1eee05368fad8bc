/** `items_ready_` is declared with the queue's capacity as its maximum. When is that exceeded? */
module SemaphoreMaximum {
  import opened SemaphoreQueue
  import opened SemaphoreQueueRuns

  /** The three places that release a token: after a push, on the relay, and in `close`. */
  predicate Releases<T>(step: Step<T>) { step.Signal? || step.Relay? || step.Wake? }

  /** Tokens that threads other than `t` hold, or have yet to create for an item they stored. */
  function TokensElsewhere<T>(b: Queue<T>, t: Thread): nat
    requires t < |b.threads|
  {
    Sum(b.threads[t := Idle], TokensHeld)
  }

  /** At every moment of every run: the maximum is exceeded exactly if items and closes together are
      more than the capacity and the tokens in the threads' hands. */
  lemma ExceededExactly<T>(b: Queue<T>)
    requires Inv(b)
    ensures b.items > b.cap <==> |b.q| + b.closes > b.cap + Sum(b.threads, TokensHeld)
  {
    hide Sum;
  }

  /** Each release, after any number of closes: it goes beyond the maximum exactly if items and closes,
      this one included, are more than the capacity and the tokens elsewhere. */
  lemma ReleaseOverflowsExactly<T>(b: Queue<T>, step: Step<T>)
    requires Inv(b) && CanTake(b, step) && Releases(step)
    ensures Take(b, step).items > b.cap
            <==> |b.q| + b.closes + (if step.Wake? then 1 else 0) > b.cap + TokensElsewhere(b, step.thread)
  {
    SumsAfter(b, step.thread, Idle);
    hide Sum;
  }

  /** So neither a push nor the relay overflows before a close, and the relay never does after one. */
  lemma WithinMaximum<T>(b: Queue<T>, step: Step<T>)
    requires Inv(b) && b.cap > 0 && CanTake(b, step)
    requires (b.closes == 0 && !step.Wake?) || (b.closes <= 1 && step.Relay?)
    ensures Take(b, step).items <= b.cap && Take(b, step).slots <= b.cap
  {
    StepKeepsInv(b, step);
    hide Sum;
  }

  // ---- one close ---------------------------------------------------------------------------

  /** Every accepted push has released its token; `close` asks to be called only then. */
  predicate AllSignalled<T>(b: Queue<T>) {
    forall i :: 0 <= i < |b.threads| ==> !b.threads[i].Stored?
  }

  /** The maximum is exceeded at some moment of the run. */
  predicate Exceeds<T>(b: Queue<T>, steps: seq<Step<T>>)
    requires CanRun(b, steps)
    decreases |steps|
  {
    b.items > b.cap || (steps != [] && Exceeds(Take(b, steps[0]), steps[1..]))
  }

  predicate NoMoreCloses<T>(steps: seq<Step<T>>) { forall i :: 0 <= i < |steps| ==> !steps[i].Wake? }

  /** After the close: from here on the queue only shrinks. */
  predicate Closed<T>(b: Queue<T>) { b.closed && b.closes == 1 && b.cap > 0 && AllSignalled(b) }

  /** While the queue stays as full as it is, no token that is held comes back. */
  lemma StepOfAClosedQueue<T>(b: Queue<T>, step: Step<T>)
    requires Inv(b) && Closed(b) && CanTake(b, step) && !step.Wake?
    ensures var c := Take(b, step);
            && Inv(c) && Closed(c) && c.cap == b.cap && |c.q| <= |b.q|
            && (|c.q| == |b.q| == b.cap ==> Sum(c.threads, TokensHeld) >= Sum(b.threads, TokensHeld))
  {
    StepKeepsInv(b, step);
    SumsAfter(b, step.thread, Take(b, step).threads[step.thread]);
    hide Sum;
  }

  lemma {:induction false} ClosedQueueStaysBelow<T>(b: Queue<T>, steps: seq<Step<T>>)
    requires Inv(b) && Closed(b) && CanRun(b, steps) && NoMoreCloses(steps)
    requires |b.q| < b.cap || Sum(b.threads, TokensHeld) > 0
    ensures !Exceeds(b, steps)
    decreases |steps|
  {
    NotExceededHere(b);
    hide Sum, Inv, CanTake, Take, Closed;
    if steps == [] {
    } else {
      FirstIsNoClose(steps);
      StepOfAClosedQueue(b, steps[0]);
      FullnessIsLost(b, steps[0]);
      ClosedQueueStaysBelow(Take(b, steps[0]), steps[1..]);
    }
  }

  lemma FirstIsNoClose<T>(steps: seq<Step<T>>)
    requires steps != [] && NoMoreCloses(steps)
    ensures !steps[0].Wake? && NoMoreCloses(steps[1..])
  {
  }

  lemma NotExceededHere<T>(b: Queue<T>)
    requires Inv(b) && b.closes == 1 && (|b.q| < b.cap || Sum(b.threads, TokensHeld) > 0)
    ensures b.items <= b.cap
  {
    hide Sum;
  }

  lemma FullnessIsLost<T>(b: Queue<T>, step: Step<T>)
    requires Inv(b) && CanTake(b, step) && |Take(b, step).q| <= |b.q|
    requires |Take(b, step).q| == |b.q| == b.cap ==> Sum(Take(b, step).threads, TokensHeld) >= Sum(b.threads, TokensHeld)
    requires |b.q| < b.cap || Sum(b.threads, TokensHeld) > 0
    ensures |Take(b, step).q| < b.cap || Sum(Take(b, step).threads, TokensHeld) > 0
  {
    hide Sum, Take;
  }

  /** One close, made as its contract asks -- after the producers' pushes -- exceeds the maximum at
      some moment of the rest of the run if and only if, when it releases its token, the queue is
      full and no consumer holds a token. */
  lemma OneCloseExceedsExactly<T>(b: Queue<T>, t: Thread, steps: seq<Step<T>>)
    requires Inv(b) && b.cap > 0 && b.closes == 0 && AllSignalled(b)
    requires CanTake(b, Wake(t)) && CanRun(Take(b, Wake(t)), steps) && NoMoreCloses(steps)
    ensures Exceeds(Take(b, Wake(t)), steps) <==> |b.q| == b.cap && Sum(b.threads, TokensHeld) == 0
  {
    CloseKeepsInv(b, Wake(t));
    SumsAfter(b, t, Idle);
    assert Closed(Take(b, Wake(t)));
    hide Sum;
    if |b.q| == b.cap && Sum(b.threads, TokensHeld) == 0 {
    } else {
      ClosedQueueStaysBelow(Take(b, Wake(t)), steps);
    }
  }

  /** Before the first close has released its token, nothing is exceeded. */
  lemma {:induction false} BeforeTheClose<T>(b: Queue<T>, before: seq<Step<T>>, rest: seq<Step<T>>)
    requires Inv(b) && b.closes == 0 && CanRun(b, before + rest) && NoMoreCloses(before)
    ensures CanRun(b, before) && CanRun(Run(b, before), rest)
    ensures Inv(Run(b, before)) && Run(b, before).closes == 0 && Run(b, before).cap == b.cap
    ensures Exceeds(b, before + rest) <==> Exceeds(Run(b, before), rest)
    decreases |before|
  {
    if before == [] {
      assert before + rest == rest;
    } else {
      assert (before + rest)[0] == before[0] && (before + rest)[1..] == before[1..] + rest;
      FirstIsNoClose(before);
      PermitsStayWithinMaximum(b);
      StepKeepsInv(b, before[0]);
      NoCloseYet(b, before[0]);
      hide Inv, CanTake, Take;
      BeforeTheClose(Take(b, before[0]), before[1..], rest);
    }
  }

  lemma NoCloseYet<T>(b: Queue<T>, step: Step<T>)
    requires b.closes == 0 && CanTake(b, step) && !step.Wake?
    ensures Take(b, step).closes == 0 && Take(b, step).cap == b.cap
  {
  }

  lemma PermitsStayWithinMaximum<T>(b: Queue<T>)
    requires Inv(b) && b.closes == 0
    ensures b.slots <= b.cap && b.items <= b.cap
  {
  }

  /** The same for a whole run, from the start, with one close in it. */
  lemma RunWithOneCloseExceedsExactly<T>(cap: nat, n: nat, before: seq<Step<T>>, t: Thread, rest: seq<Step<T>>)
    requires cap > 0 && CanRun(Start<T>(cap, n), before + ([Wake(t)] + rest))
    requires NoMoreCloses(before) && NoMoreCloses(rest)
    ensures CanRun(Start<T>(cap, n), before)
    ensures var b := Run(Start<T>(cap, n), before);
            AllSignalled(b) ==>
              (Exceeds(Start<T>(cap, n), before + ([Wake(t)] + rest))
               <==> |b.q| == cap && Sum(b.threads, TokensHeld) == 0)
  {
    StartHolds<T>(cap, n);
    BeforeTheClose(Start<T>(cap, n), before, [Wake(t)] + rest);
    var b := Run(Start<T>(cap, n), before);
    assert ([Wake(t)] + rest)[0] == Wake(t) && ([Wake(t)] + rest)[1..] == rest;
    PermitsStayWithinMaximum(b);
    hide Inv, Take, CanTake, Sum;
    if AllSignalled(b) {
      OneCloseExceedsExactly(b, t, rest);
    }
  }

  // ---- where it happens --------------------------------------------------------------------

  /** A push that is overtaken by the close goes beyond the maximum when it signals, although the
      close itself did not. */
  lemma ASignalCanOverflow<T>(v: T)
    ensures var steps := [CallPush(0, v), AcquireSlot(0)] + ([Store(0), CallClose(1)] + ([Wake(1)] + []));
            && CanRun(Start<T>(1, 2), steps)
            && var b := Run(Start<T>(1, 2), steps);
               b.items == b.cap == 1 && CanTake(b, Signal(0)) && Take(b, Signal(0)).items == 2
  {
    var s := Start<T>(1, 2);
    assert s.threads == [Idle, Idle];
    var hasSlot := Queue(1, 0, 0, [], false, [HasSlot(v), Idle], [], [], 0);
    var closing := Queue(1, 0, 0, [v], true, [Stored, Closing], [v], [], 0);
    var closed := Queue(1, 0, 1, [v], true, [Stored, Idle], [v], [], 1);
    assert Take(Take(s, CallPush(0, v)), AcquireSlot(0)) == hasSlot;
    assert Take(Take(hasSlot, Store(0)), CallClose(1)) == closing;
    assert Take(closing, Wake(1)) == closed;
    RunsOne(closing, Wake(1), []);
    RunsTwo(hasSlot, Store(0), CallClose(1), [Wake(1)] + []);
    RunsTwo(s, CallPush(0, v), AcquireSlot(0), [Store(0), CallClose(1)] + ([Wake(1)] + []));
  }

  function Closes<T>(k: nat): seq<Step<T>> { if k == 0 then [] else Closes(k - 1) + CloseSteps(0) }

  /** Closes alone do it: one more than the capacity, on an empty queue that nobody uses. */
  lemma {:induction false} ClosesAloneOverflow<T>(cap: nat, k: nat)
    ensures CanRun(Start<T>(cap, 1), Closes(k))
    ensures Run(Start<T>(cap, 1), Closes(k)) == Start<T>(cap, 1).(closed := k > 0, items := k, closes := k)
  {
    if k == 0 {
    } else {
      ClosesAloneOverflow<T>(cap, k - 1);
      CloseRuns(Run(Start<T>(cap, 1), Closes(k - 1)), 0);
      RunsJoin(Start<T>(cap, 1), Closes(k - 1), CloseSteps(0));
    }
  }
}

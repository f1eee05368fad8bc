/** What holds over every run of shared and weak pointers, and the control block as an object. */
module SharedPointer {
  import opened SharedOwnership

  predicate CanRun(b: Block, steps: seq<Step>)
    decreases |steps|
  {
    steps == [] || (CanTake(b, steps[0]) && CanRun(Take(b, steps[0]), steps[1..]))
  }

  function Run(b: Block, steps: seq<Step>): Block
    requires CanRun(b, steps)
    decreases |steps|
  {
    if steps == [] then b else Run(Take(b, steps[0]), steps[1..])
  }

  /** The pointers of each kind after some steps, by what the steps make, hand over and drop. */
  datatype Pointers = Pointers(owners: set<Handle>, watchers: set<Handle>, inner: set<Handle>)

  function Changed(p: Pointers, step: Step): Pointers {
    match step
    case CopyShared(_, copy) => p.(owners := p.owners + {copy})
    case LockExchange(_, copy) => p.(owners := p.owners + {copy})
    case DropShared(_, h) => p.(owners := p.owners - {h})
    case Observe(_, copy) => p.(watchers := p.watchers + {copy})
    case CopyWeak(_, copy) => p.(watchers := p.watchers + {copy})
    case DropWeak(_, h) => p.(watchers := p.watchers - {h})
    case GiveToObject(h) => p.(watchers := p.watchers - {h}, inner := p.inner + {h})
    case DropInner(_, h) => p.(inner := p.inner - {h})
    case _ => p
  }

  function InUse(p: Pointers, steps: seq<Step>): Pointers
    decreases |steps|
  {
    if steps == [] then p else InUse(Changed(p, steps[0]), steps[1..])
  }

  function PointersOf(b: Block): Pointers { Pointers(b.shared, b.weaks, b.inner) }

  lemma StepMovesPointers(b: Block, step: Step)
    requires CanTake(b, step)
    ensures PointersOf(Take(b, step)) == Changed(PointersOf(b), step)
  {
  }

  /** After any run the pointers of each kind are those that were made and not dropped, and both counters
      say exactly how many there are. */
  lemma {:induction false} RunTracksPointers(b: Block, steps: seq<Step>)
    requires Inv(b) && CanRun(b, steps)
    ensures PointersOf(Run(b, steps)) == InUse(PointersOf(b), steps)
    ensures var (c, p) := (Run(b, steps), InUse(PointersOf(b), steps));
            c.strong == |p.owners| && c.weak == |p.watchers| + |p.inner| + if c.pinned then 1 else 0
    decreases |steps|
  {
    hide History, Lives, Progress, Threads, Take, CanTake, Changed;
    if steps == [] {
    } else {
      StepKeepsInv(b, steps[0]);
      StepMovesPointers(b, steps[0]);
      hide Counts, PointersOf;
      RunTracksPointers(Take(b, steps[0]), steps[1..]);
    }
  }

  lemma {:induction false} RunKeepsInv(b: Block, steps: seq<Step>)
    requires Inv(b) && CanRun(b, steps)
    ensures Inv(Run(b, steps))
    decreases |steps|
  {
    hide Inv, CanTake, Take;
    if steps == [] {
    } else {
      StepKeepsInv(b, steps[0]);
      RunKeepsInv(Take(b, steps[0]), steps[1..]);
    }
  }

  /** No operation touches the control block after it was freed; an owner's object is alive. */
  lemma NoUseAfterFree(owner: Handle, before: seq<Step>, step: Step)
    requires CanRun(Start(owner), before) && CanTake(Run(Start(owner), before), step)
    ensures var b := Run(Start(owner), before);
            && b.present
            && (b.shared != {} ==> b.life == Alive && b.present)
            && (step.EndDestructor? ==> b.life == Dying && b.destroyed == 0)
  {
    StartHolds(owner);
    RunKeepsInv(Start(owner), before);
    hide Run, CanRun, Take, Start, Inv, CanTake;
    var b := Run(Start(owner), before);
    StepNeedsBlock(b, step);
    OwnersObjectIsAlive(b);
  }

  lemma StepNeedsBlock(b: Block, step: Step)
    requires Inv(b) && CanTake(b, step)
    ensures b.present && (step.EndDestructor? ==> b.life == Dying && b.destroyed == 0)
  {
    hide Take, History, Progress;
    match step {
      case CopyShared(h, _) => SomeoneHolds(b.shared);
      case Observe(h, _) => SomeoneHolds(b.shared);
      case DropShared(_, h) => SomeoneHolds(b.shared);
      case CopyWeak(h, _) => HolderKeepsBlock(b, h);
      case GiveToObject(h) => HolderKeepsBlock(b, h);
      case DropInner(_, h) => HolderKeepsBlock(b, h);
      case DropWeak(_, h) => HolderKeepsBlock(b, h);
      case LockLoad(_, h, _) => HolderKeepsBlock(b, h);
      case LockExchange(t, _) => HolderKeepsBlock(b, b.threads[t].handle);
      case LockRetry(t, _) => HolderKeepsBlock(b, b.threads[t].handle);
      case EndDestructor(t) => assert Allowed(b, t, b.threads[t]);
      case Unpin(t) => assert Allowed(b, t, b.threads[t]);
      case Free(t) => assert Allowed(b, t, b.threads[t]);
    }
  }

  lemma OwnersObjectIsAlive(b: Block)
    requires Inv(b)
    ensures b.shared != {} ==> b.life == Alive && b.present
  {
    hide History, Progress, Threads;
    if b.shared != {} { SomeoneHolds(b.shared); }
  }

  lemma SomeoneHolds(s: set<Handle>)
    requires s != {}
    ensures |s| > 0
  {
  }

  lemma HolderKeepsBlock(b: Block, h: Handle)
    requires Counts(b) && Lives(b) && (h in b.weaks || h in b.inner)
    ensures b.present
  {
    if h in b.weaks { SomeoneHolds(b.weaks); } else { SomeoneHolds(b.inner); }
  }

  /** The object ends at most once, with no owner left; the block at most once, and only after it. */
  lemma DestroyedOnceFreedOnceLater(owner: Handle, steps: seq<Step>)
    requires CanRun(Start(owner), steps)
    ensures var b := Run(Start(owner), steps);
            && b.destroyed <= 1 && b.freed <= 1 && b.freed <= b.destroyed
            && (b.destroyed == 1 ==> b.strong == 0 && b.shared == {})
            && (b.freed == 1 ==> b.weak == 0 && b.weaks == {} && b.inner == {})
  {
    StartHolds(owner);
    RunKeepsInv(Start(owner), steps);
    var b := Run(Start(owner), steps);
    hide Run, CanRun, Take, Start, History;
    if b.weaks != {} { SomeoneHolds(b.weaks); }
    if b.inner != {} { SomeoneHolds(b.inner); }
    if b.shared != {} { SomeoneHolds(b.shared); }
  }

  /** `lock` never revives a dead object: once no owner is left, none ever appears again. */
  lemma {:induction false} NeverRevived(b: Block, steps: seq<Step>)
    requires Inv(b) && CanRun(b, steps) && b.strong == 0
    ensures Run(b, steps).strong == 0 && Run(b, steps).shared == {} && Run(b, steps).history == b.history
    decreases |steps|
  {
    if steps == [] {
      if b.shared != {} { SomeoneHolds(b.shared); }
    } else {
      DeadStaysDead(b, steps[0]);
      StepKeepsInv(b, steps[0]);
      hide Inv, CanTake, Take;
      NeverRevived(Take(b, steps[0]), steps[1..]);
    }
  }

  lemma DeadStaysDead(b: Block, step: Step)
    requires Inv(b) && CanTake(b, step) && b.strong == 0
    ensures Take(b, step).strong == 0 && Take(b, step).history == b.history
  {
    hide Lives, Progress;
    if b.shared != {} { SomeoneHolds(b.shared); }
  }

  /** `lock` gives up only when the object is gone -- however stale its loads -- and when it
      succeeds the object is alive. */
  lemma LockAnswersTruly(b: Block, step: Step)
    requires Inv(b) && CanTake(b, step)
    requires step.LockLoad? || step.LockRetry? || step.LockExchange?
    ensures step.LockExchange? ==> b.life == Alive && step.copy in Take(b, step).shared
    ensures !step.LockExchange? && Seen(b, step.age) == 0 ==> b.strong == 0 && b.life != Alive
    ensures !step.LockExchange? && step.thread !in Take(b, step).threads ==> Seen(b, step.age) == 0
  {
    hide Progress;
    if step.LockExchange? {
      assert Allowed(b, step.thread, b.threads[step.thread]);
      if b.shared != {} { SomeoneHolds(b.shared); }
    }
  }

  /** Between operations the counters say exactly who is left, and nothing has leaked. */
  lemma NothingLeaks(owner: Handle, steps: seq<Step>)
    requires CanRun(Start(owner), steps) && Run(Start(owner), steps).threads == map[]
    ensures var b := Run(Start(owner), steps);
            && b.strong == |b.shared|
            && b.weak == |b.weaks| + |b.inner| + (if b.shared != {} then 1 else 0)
            && b.destroyed == (if b.shared == {} then 1 else 0)
            && b.freed == (if b.shared == {} && b.weaks == {} then 1 else 0)
  {
    StartHolds(owner);
    RunKeepsInv(Start(owner), steps);
    var b := Run(Start(owner), steps);
    hide Run, CanRun, Take, Start, History;
    if b.shared != {} { SomeoneHolds(b.shared); }
    if b.weaks != {} { SomeoneHolds(b.weaks); }
    if b.inner != {} { SomeoneHolds(b.inner); }
  }

  // ---- the object --------------------------------------------------------------------------

  lemma {:induction false} RunOneMore(b: Block, steps: seq<Step>, step: Step)
    requires CanRun(b, steps) && CanTake(Run(b, steps), step)
    ensures CanRun(b, steps + [step]) && Run(b, steps + [step]) == Take(Run(b, steps), step)
    decreases |steps|
  {
    hide CanTake, Take;
    if steps == [] {
      assert ([] + [step])[1..] == [];
      assert ([] + [step])[0] == step;
    } else {
      RunOneMore(Take(b, steps[0]), steps[1..], step);
      assert (steps + [step])[1..] == steps[1..] + [step];
    }
  }

  predicate Distinct(hs: seq<Handle>) { forall i, j :: 0 <= i < j < |hs| ==> hs[i] != hs[j] }

  /** The control block with no operation under way; `inner` are the object's own weak pointers. */
  class ControlBlock {
    var strong: int
    var weak: int
    var inner: seq<Handle>
    ghost var model: Block

    ghost predicate Mirrors()
      reads this
    {
      Inv(model) && model.strong == strong && model.weak == weak && Distinct(inner) && model.inner == set h | h in inner
    }

    ghost predicate Valid()
      reads this
    {
      Mirrors() && model.threads == map[]
    }

    constructor (ghost owner: Handle)
      ensures Valid() && model == Start(owner)
    {
      strong, weak, inner := 1, 1, [];
      model := Start(owner);
      new;
      StartHolds(owner);
    }

    /** One atomic step, recorded. */
    ghost method Advance(start: Block, steps: seq<Step>, step: Step) returns (more: seq<Step>)
      requires Inv(model) && CanTake(model, step)
      requires CanRun(start, steps) && model == Run(start, steps)
      modifies this`model
      ensures model == Take(old(model), step) && Inv(model)
      ensures more == steps + [step] && CanRun(start, more) && model == Run(start, more)
    {
      hide Inv, CanTake, Take, Run, CanRun;
      StepKeepsInv(model, step);
      RunOneMore(start, steps, step);
      model := Take(model, step);
      more := steps + [step];
    }

    /** `delete` of the object: its own weak pointers are released first. */
    method DestroyObject(ghost thread: Thread, ghost start: Block, ghost before: seq<Step>) returns (ghost steps: seq<Step>)
      requires Mirrors() && strong == 0 && model.threads == map[thread := Destroying]
      requires CanRun(start, before) && model == Run(start, before)
      modifies this
      ensures Mirrors() && strong == 0 && model.threads == map[thread := Unpinning]
      ensures CanRun(start, steps) && model == Run(start, steps)
      ensures model.shared == old(model.shared) && model.weaks == old(model.weaks)
    {
      hide Inv, Run, CanRun;
      steps := before;
      while inner != []
        invariant Mirrors() && strong == 0 && model.threads == map[thread := Destroying]
        invariant CanRun(start, steps) && model == Run(start, steps)
        invariant model.shared == old(model.shared) && model.weaks == old(model.weaks)
        decreases |inner|
      {
        ghost var was := inner;
        assert was[0] in model.inner;
        InnerIsNotLast(model, was[0]);
        steps := Advance(start, steps, DropInner(thread, was[0]));
        weak := weak - 1;
        inner := inner[1..];
        assert forall x :: x in was <==> x == was[0] || x in inner;
      }
      steps := Advance(start, steps, EndDestructor(thread));
    }

    /** The strong side gives up its weak reference. */
    method ReleasePin(ghost thread: Thread, ghost start: Block, ghost before: seq<Step>) returns (ghost steps: seq<Step>)
      requires Mirrors() && model.threads == map[thread := Unpinning]
      requires CanRun(start, before) && model == Run(start, before)
      modifies this`weak, this`model
      ensures Valid() && CanRun(start, steps) && model == Run(start, steps)
      ensures model.shared == old(model).shared && model.weaks == old(model).weaks && model.strong == old(model).strong
    {
      hide Inv, Run, CanRun;
      steps := Advance(start, before, Unpin(thread));
      weak := weak - 1;
      if weak == 0 {
        steps := Advance(start, steps, Free(thread));
      }
    }

    /** The release of one owner, with all that may follow from it. */
    method ReleaseShared(ghost h: Handle, ghost thread: Thread) returns (ghost steps: seq<Step>)
      requires Valid() && h in model.shared
      modifies this
      ensures Valid() && CanRun(old(model), steps) && model == Run(old(model), steps)
      ensures model.shared == old(model).shared - {h} && model.weaks == old(model).weaks
      ensures model.shared != {} ==> model.inner == old(model).inner
    {
      ghost var start := model;
      steps := [];
      assert Run(start, steps) == start;
      hide Inv, Run, CanRun;
      steps := Advance(start, steps, DropShared(thread, h));
      strong := strong - 1;
      if strong == 0 {
        steps := DestroyObject(thread, start, steps);
        steps := ReleasePin(thread, start, steps);
      }
      SharedLeft(model);
    }

    method ReleaseWeak(ghost h: Handle, ghost thread: Thread) returns (ghost steps: seq<Step>)
      requires Valid() && h in model.weaks
      modifies this`weak, this`model
      ensures Valid() && CanRun(old(model), steps) && model == Run(old(model), steps)
      ensures model.weaks == old(model).weaks - {h} && model.shared == old(model).shared && model.inner == old(model).inner
    {
      ghost var start := model;
      steps := [];
      assert Run(start, steps) == start;
      hide Inv, Run, CanRun;
      steps := Advance(start, steps, DropWeak(thread, h));
      weak := weak - 1;
      if weak == 0 {
        steps := Advance(start, steps, Free(thread));
      }
    }

    method Lock(ghost h: Handle, ghost copy: Handle, ghost thread: Thread) returns (locked: bool, ghost steps: seq<Step>)
      requires Valid() && h in model.weaks && Unused(model, copy)
      modifies this`strong, this`model
      ensures Valid() && CanRun(old(model), steps) && model == Run(old(model), steps)
      ensures locked == (old(model).life == Alive)
      ensures model.shared == old(model).shared + (if locked then {copy} else {}) && model.weaks == old(model).weaks
    {
      LastValue(model);
      ghost var start := model;
      steps := [];
      assert Run(start, steps) == start;
      hide Inv, Run, CanRun;
      var s := strong;
      steps := Advance(start, steps, LockLoad(thread, h, 0));
      if s != 0 {
        steps := Advance(start, steps, LockExchange(thread, copy));
        strong := s + 1;
        locked := true;
      } else {
        locked := false;
      }
    }
  }

  lemma LastValue(b: Block)
    requires Inv(b)
    ensures |b.history| > 0 && b.history[|b.history| - 1] == b.strong && (b.life == Alive <==> b.strong != 0)
  {
  }

  /** While the destructor runs, the strong side's reference keeps the block. */
  lemma InnerIsNotLast(b: Block, h: Handle)
    requires Inv(b) && h in b.inner
    ensures b.weak > 1
  {
    SomeoneHolds(b.inner);
  }

  lemma SharedLeft(b: Block)
    requires Inv(b)
    ensures b.strong == 0 <==> b.shared == {}
  {
    if b.shared != {} { SomeoneHolds(b.shared); }
  }
}

/** The cockpit's shutdown report, over every interleaving. */
module CockpitRuns {
  import opened CockpitPipeline

  predicate CanRun(c: Cockpit, steps: seq<Step>)
    decreases |steps|
  {
    steps == [] || (CanTake(c, steps[0]) && CanRun(Take(c, steps[0]), steps[1..]))
  }

  function Run(c: Cockpit, steps: seq<Step>): Cockpit
    requires CanRun(c, steps)
    decreases |steps|
  {
    if steps == [] then c else Run(Take(c, steps[0]), steps[1..])
  }

  lemma CapsStay(c: Cockpit, step: Step)
    requires CanTake(c, step)
    ensures Take(c, step).stateCap == c.stateCap && Take(c, step).frameCap == c.frameCap
  {
  }

  lemma {:induction false} RunKeepsInv(c: Cockpit, steps: seq<Step>, total: nat)
    requires Inv(c, total) && CanRun(c, steps) && c.stateCap > 0
    ensures Inv(Run(c, steps), total) && Run(c, steps).stateCap == c.stateCap
    decreases |steps|
  {
    if steps == [] {
    } else {
      CapsStay(c, steps[0]);
      hide Inv, CanTake, Take;
      StepKeepsInv(c, steps[0], total);
      RunKeepsInv(Take(c, steps[0]), steps[1..], total);
    }
  }

  /** When the report is made nothing is under way, every frame is accounted for, every decoded state
      was displayed, in order, or discarded, and the last one was displayed. The balance the program
      checks holds if and only if the decoder never found an empty queue when making room. */
  lemma ReportBalancesExactly(frameCap: nat, stateCap: nat, input: seq<Frame>, steps: seq<Step>)
    requires stateCap > 0 && CanRun(Start(frameCap, stateCap, input), steps)
    requires Run(Start(frameCap, stateCap, input), steps).main == Reported
    ensures var c := Run(Start(frameCap, stateCap, input), steps);
            && c.stats.produced + c.stats.dropped == |input|
            && c.stats.decoded + c.stats.failures == c.stats.produced
            && |c.shown| + |c.discarded| == c.stats.decoded && c.lost == []
            && Increasing(c.shown) && (c.stats.decoded > 0 ==> c.shown != [] && c.shown[|c.shown| - 1] == c.stats.decoded)
            && c.stats.displayed + c.stats.overwritten == c.stats.decoded + c.missed
            && (c.stats.displayed + c.stats.overwritten == c.stats.decoded <==> c.missed == 0)
  {
    StartHolds(frameCap, stateCap, input);
    RunKeepsInv(Start(frameCap, stateCap, input), steps, |input|);
    var c := Run(Start(frameCap, stateCap, input), steps);
    assert Newest(c) == c.shown;
  }

  // ---- it always comes to the report -------------------------------------------------------

  function DecoderRank(d: Decoder): nat {
    match d
    case Awaiting => 1
    case Got(_) => 8
    case Offering(_) => 7
    case FoundFull(_) => 6
    case Retrying(_) => 5
    case Counting => 2
    case DecoderDone => 0
  }

  function MainRank(m: MainThread): nat {
    match m
    case JoinRx => 5
    case CloseFrames => 4
    case JoinDecoder => 3
    case CloseStates => 2
    case JoinUi => 1
    case Reported => 0
  }

  function Rank(c: Cockpit): nat {
    10 * |c.left| + (match c.rx case Sending => 1 case Sent(_) => 2 case RxDone => 0)
    + 8 * |c.frames| + DecoderRank(c.decoder) + 2 * |c.states|
    + (match c.ui case Watching => 1 case Showing(_) => 2 case UiDone => 0) + MainRank(c.main)
  }

  lemma DecodingTakesWork(c: Cockpit, step: Step)
    requires CanTake(c, step) && (step.PopFrame? || step.Decode? || step.DecoderEnds?)
    ensures Rank(Take(c, step)) < Rank(c)
  {
  }

  lemma OfferingTakesWork(c: Cockpit, step: Step)
    requires CanTake(c, step) && (step.Offer? || step.Discard? || step.Retry? || step.CountOverwrite?)
    ensures Rank(Take(c, step)) < Rank(c)
  {
  }

  lemma OthersTakeWork(c: Cockpit, step: Step)
    requires CanTake(c, step)
    requires step.TrySend? || step.CountSend? || step.RxEnds? || step.PopState? || step.Show? || step.UiEnds? || step.MainGoesOn?
    ensures Rank(Take(c, step)) < Rank(c)
  {
  }

  lemma StepTakesWork(c: Cockpit, step: Step)
    requires CanTake(c, step)
    ensures Rank(Take(c, step)) < Rank(c)
  {
    hide CanTake, Take, Rank;
    match step
    case PopFrame => DecodingTakesWork(c, step);
    case Decode => DecodingTakesWork(c, step);
    case DecoderEnds => DecodingTakesWork(c, step);
    case Offer => OfferingTakesWork(c, step);
    case Discard => OfferingTakesWork(c, step);
    case Retry => OfferingTakesWork(c, step);
    case CountOverwrite => OfferingTakesWork(c, step);
    case _ => OthersTakeWork(c, step);
  }

  /** No interleaving goes on for ever ... */
  lemma {:induction false} RunsEnd(c: Cockpit, steps: seq<Step>)
    requires CanRun(c, steps)
    ensures |steps| + Rank(Run(c, steps)) <= Rank(c)
    decreases |steps|
  {
    if steps == [] {
    } else {
      StepTakesWork(c, steps[0]);
      hide CanTake, Take, Rank;
      RunsEnd(Take(c, steps[0]), steps[1..]);
    }
  }

  /** ... and none gets stuck before the report: the shutdown order cannot deadlock. */
  lemma NeverStuck(frameCap: nat, stateCap: nat, input: seq<Frame>, steps: seq<Step>) returns (next: Step)
    requires stateCap > 0 && CanRun(Start(frameCap, stateCap, input), steps)
    requires Run(Start(frameCap, stateCap, input), steps).main != Reported
    ensures CanTake(Run(Start(frameCap, stateCap, input), steps), next)
  {
    StartHolds(frameCap, stateCap, input);
    RunKeepsInv(Start(frameCap, stateCap, input), steps, |input|);
    next := NextStep(Run(Start(frameCap, stateCap, input), steps));
    SomeoneGoesOn(Run(Start(frameCap, stateCap, input), steps), |input|);
  }

  lemma SomeoneGoesOn(c: Cockpit, total: nat)
    requires Inv(c, total) && c.main != Reported
    ensures CanTake(c, NextStep(c))
  {
    hide Frames, States, Increasing, Bounded, Newest;
  }

  function NextStep(c: Cockpit): Step {
    if CanTake(c, MainGoesOn) then MainGoesOn
    else match c.main
      case JoinRx => (match c.rx case Sending => (if c.left != [] then TrySend else RxEnds) case _ => CountSend)
      case JoinDecoder =>
        (match c.decoder
         case Awaiting => (if c.frames != [] then PopFrame else DecoderEnds)
         case Got(_) => Decode
         case Offering(_) => Offer
         case FoundFull(_) => Discard
         case Retrying(_) => Retry
         case _ => CountOverwrite)
      case _ => (match c.ui case Watching => (if c.states != [] then PopState else UiEnds) case _ => Show)
  }

  // ---- the balance does fail ---------------------------------------------------------------

  lemma {:induction false} RunsJoin(c: Cockpit, xs: seq<Step>, ys: seq<Step>)
    requires CanRun(c, xs) && CanRun(Run(c, xs), ys)
    ensures CanRun(c, xs + ys) && Run(c, xs + ys) == Run(Run(c, xs), ys)
    decreases |xs|
  {
    hide CanTake, Take;
    if xs == [] {
      assert xs + ys == ys;
    } else {
      RunsJoin(Take(c, xs[0]), xs[1..], ys);
      assert (xs + ys)[1..] == xs[1..] + ys;
    }
  }

  lemma RunsOn(c: Cockpit, step: Step, rest: seq<Step>)
    requires CanTake(c, step) && CanRun(Take(c, step), rest)
    ensures CanRun(c, [step] + rest) && Run(c, [step] + rest) == Run(Take(c, step), rest)
  {
    assert ([step] + rest)[1..] == rest;
  }

  /** Any state that can be reached has a run to the report, which only adds to `missed`. */
  lemma {:induction false} CanFinish(c: Cockpit, total: nat) returns (steps: seq<Step>)
    requires Inv(c, total) && c.stateCap > 0
    ensures CanRun(c, steps) && Run(c, steps).main == Reported && c.missed <= Run(c, steps).missed
    decreases Rank(c)
  {
    if c.main == Reported {
      steps := [];
    } else {
      SomeoneGoesOn(c, total);
      var step := NextStep(c);
      CapsStay(c, step);
      StepTakesWork(c, step);
      MissesStay(c, step);
      hide CanTake, Take, Inv, Rank, NextStep;
      StepKeepsInv(c, step, total);
      var rest := CanFinish(Take(c, step), total);
      RunsOn(c, step, rest);
      steps := [step] + rest;
    }
  }

  lemma MissesStay(c: Cockpit, step: Step)
    requires CanTake(c, step)
    ensures c.missed <= Take(c, step).missed
  {
  }

  function Numbers(from: nat, to: nat): seq<nat>
    requires from <= to
  {
    seq(to - from, i requires 0 <= i < to - from => from + i + 1)
  }

  lemma NumbersSplit(from: nat, to: nat)
    requires from < to
    ensures Numbers(from, to) != [] && Numbers(from, to)[0] == from + 1 && Numbers(from, to)[1..] == Numbers(from + 1, to)
    ensures Numbers(from, from) == [] && Numbers(from, to) == Numbers(from, to - 1) + [to]
  {
  }

  function Input(n: nat): seq<Frame> { seq(n, _ => true) }

  /** After `k` frames went straight through to the states queue. */
  function Filled(frameCap: nat, stateCap: nat, k: nat): Cockpit
    requires k <= stateCap
  {
    Start(frameCap, stateCap, Input(stateCap + 1 - k)).(states := Numbers(0, k), stats := Stats(k, 0, k, 0, 0, 0))
  }

  /** A frame as far as the decoder's hands. */
  lemma OneFrame(c: Cockpit) returns (steps: seq<Step>)
    requires c.rx == Sending && c.left != [] && c.left[0] && c.frames == [] && !c.framesClosed && c.frameCap > 0 && c.decoder == Awaiting
    ensures CanRun(c, steps)
    ensures Run(c, steps) == c.(left := c.left[1..], decoder := Offering(c.stats.decoded + 1),
                                stats := c.stats.(produced := c.stats.produced + 1, decoded := c.stats.decoded + 1))
  {
    var c1 := Take(c, TrySend);
    var c2 := Take(c1, CountSend);
    var c3 := Take(c2, PopFrame);
    var c4 := Take(c3, Decode);
    assert c4 == c.(left := c.left[1..], decoder := Offering(c.stats.decoded + 1),
                    stats := c.stats.(produced := c.stats.produced + 1, decoded := c.stats.decoded + 1));
    hide CanTake, Take;
    RunsOn(c3, Decode, []);
    RunsOn(c2, PopFrame, [Decode] + []);
    RunsOn(c1, CountSend, [PopFrame] + ([Decode] + []));
    RunsOn(c, TrySend, [CountSend] + ([PopFrame] + ([Decode] + [])));
    steps := [TrySend] + ([CountSend] + ([PopFrame] + ([Decode] + [])));
  }

  lemma OneMoreFills(frameCap: nat, stateCap: nat, k: nat, d: Cockpit)
    requires 0 < k <= stateCap
    requires var c := Filled(frameCap, stateCap, k - 1);
             d == c.(left := c.left[1..], decoder := Offering(c.stats.decoded + 1),
                     stats := c.stats.(produced := c.stats.produced + 1, decoded := c.stats.decoded + 1))
    ensures CanTake(d, Offer) && Take(d, Offer) == Filled(frameCap, stateCap, k)
  {
    NumbersSplit(0, k);
    assert Filled(frameCap, stateCap, k - 1).left[1..] == Input(stateCap + 1 - k);
  }

  lemma FilledIsReady(frameCap: nat, stateCap: nat, k: nat)
    requires k <= stateCap && frameCap > 0
    ensures var c := Filled(frameCap, stateCap, k);
            && c.rx == Sending && c.left != [] && c.left[0] && c.frames == [] && !c.framesClosed && c.frameCap > 0
            && c.decoder == Awaiting
  {
  }

  lemma {:induction false} Fills(frameCap: nat, stateCap: nat, k: nat) returns (steps: seq<Step>)
    requires k <= stateCap && frameCap > 0
    ensures CanRun(Start(frameCap, stateCap, Input(stateCap + 1)), steps)
    ensures Run(Start(frameCap, stateCap, Input(stateCap + 1)), steps) == Filled(frameCap, stateCap, k)
  {
    var start := Start(frameCap, stateCap, Input(stateCap + 1));
    if k == 0 {
      steps := [];
    } else {
      var before := Fills(frameCap, stateCap, k - 1);
      var c := Filled(frameCap, stateCap, k - 1);
      FilledIsReady(frameCap, stateCap, k - 1);
      hide CanTake, Take, Filled;
      var more := OneFrame(c);
      var d := Run(c, more);
      OneMoreFills(frameCap, stateCap, k, d);
      RunsOn(d, Offer, []);
      RunsJoin(c, more, [Offer] + []);
      RunsJoin(start, before, more + ([Offer] + []));
      steps := before + (more + ([Offer] + []));
    }
  }

  /** The display empties the queue while the decoder, having found it full, has not yet made room. */
  lemma {:induction false} Drains(c: Cockpit) returns (steps: seq<Step>)
    requires c.ui == Watching
    ensures CanRun(c, steps)
    ensures Run(c, steps) == c.(states := [], shown := c.shown + c.states, stats := c.stats.(displayed := c.stats.displayed + |c.states|))
    decreases |c.states|
  {
    if c.states == [] {
      assert c.shown + c.states == c.shown;
      steps := [];
    } else {
      var d := Take(Take(c, PopState), Show);
      assert d.shown + d.states == c.shown + c.states;
      var rest := Drains(d);
      RunsOn(Take(c, PopState), Show, rest);
      RunsOn(c, PopState, [Show] + rest);
      steps := [PopState] + ([Show] + rest);
    }
  }

  /** For queues of any size there is a run whose report does not balance. */
  lemma BalanceCanFail(frameCap: nat, stateCap: nat) returns (steps: seq<Step>)
    requires frameCap > 0 && stateCap > 0
    ensures CanRun(Start(frameCap, stateCap, Input(stateCap + 1)), steps)
    ensures var c := Run(Start(frameCap, stateCap, Input(stateCap + 1)), steps);
            c.main == Reported && c.stats.displayed + c.stats.overwritten != c.stats.decoded
  {
    var start := Start(frameCap, stateCap, Input(stateCap + 1));
    var fill := Fills(frameCap, stateCap, stateCap);
    var full := Filled(frameCap, stateCap, stateCap);
    var one := OneFrame(full);
    var offering := Run(full, one);
    var found := Take(offering, Offer);
    assert CanTake(offering, Offer) && found == offering.(decoder := FoundFull(stateCap + 1));
    var drain := Drains(found);
    var empty := Run(found, drain);
    assert CanTake(empty, Discard) && Take(empty, Discard).missed == 1;
    hide CanTake, Take, Filled;
    RunsOn(empty, Discard, []);
    RunsJoin(found, drain, [Discard] + []);
    RunsOn(offering, Offer, drain + ([Discard] + []));
    RunsJoin(full, one, [Offer] + (drain + ([Discard] + [])));
    var path := fill + (one + ([Offer] + (drain + ([Discard] + []))));
    RunsJoin(start, fill, one + ([Offer] + (drain + ([Discard] + []))));
    var missed := Run(start, path);
    StartHolds(frameCap, stateCap, Input(stateCap + 1));
    RunKeepsInv(start, path, stateCap + 1);
    var end := CanFinish(missed, stateCap + 1);
    RunsJoin(start, path, end);
    steps := path + end;
    ReportBalancesExactly(frameCap, stateCap, Input(stateCap + 1), steps);
  }
}

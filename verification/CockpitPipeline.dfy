/**
 The cockpit's three threads and its shutdown: receive, decode, display, with the main thread closing
 the queues from upstream to downstream. A queue operation or a counter update is one step.
 */
module CockpitPipeline {
  /** A frame is reduced to whether all three signals can be decoded from it. */
  type Frame = bool

  datatype Rx = Sending | Sent(ok: bool) | RxDone

  /** The numbers are those of the state in the decoder's hands. */
  datatype Decoder =
    | Awaiting | Got(frame: Frame) | Offering(n: nat) | FoundFull(n: nat) | Retrying(n: nat) | Counting | DecoderDone

  datatype Ui = Watching | Showing(n: nat) | UiDone

  datatype MainThread = JoinRx | CloseFrames | JoinDecoder | CloseStates | JoinUi | Reported

  datatype Stats = Stats(produced: nat, dropped: nat, decoded: nat, failures: nat, overwritten: nat, displayed: nat)

  /** `shown` and `discarded` record the states displayed and popped to make room, `missed` how often
      there was nothing to pop by then, `lost` the states refused by a queue without being counted. */
  datatype Cockpit = Cockpit(
    frameCap: nat, stateCap: nat,
    left: seq<Frame>, frames: seq<Frame>, framesClosed: bool, states: seq<nat>, statesClosed: bool,
    rx: Rx, decoder: Decoder, ui: Ui, main: MainThread, stats: Stats,
    shown: seq<nat>, discarded: seq<nat>, missed: nat, lost: seq<nat>)

  datatype Step =
    | TrySend | CountSend | RxEnds
    | PopFrame | Decode | Offer | Discard | Retry | CountOverwrite | DecoderEnds
    | PopState | Show | UiEnds
    | MainGoesOn

  function Start(frameCap: nat, stateCap: nat, input: seq<Frame>): Cockpit {
    Cockpit(frameCap, stateCap, input, [], false, [], false, Sending, Awaiting, Watching, JoinRx,
            Stats(0, 0, 0, 0, 0, 0), [], [], 0, [])
  }

  predicate CanTake(c: Cockpit, step: Step) {
    match step
    case TrySend => c.rx == Sending && c.left != []
    case CountSend => c.rx.Sent?
    case RxEnds => c.rx == Sending && c.left == []
    case PopFrame => c.decoder == Awaiting && c.frames != []
    case Decode => c.decoder.Got?
    case Offer => c.decoder.Offering?
    case Discard => c.decoder.FoundFull?
    case Retry => c.decoder.Retrying?
    case CountOverwrite => c.decoder == Counting
    case DecoderEnds => c.decoder == Awaiting && c.frames == [] && c.framesClosed
    case PopState => c.ui == Watching && c.states != []
    case Show => c.ui.Showing?
    case UiEnds => c.ui == Watching && c.states == [] && c.statesClosed
    case MainGoesOn =>
      match c.main
      case JoinRx => c.rx == RxDone
      case JoinDecoder => c.decoder == DecoderDone
      case JoinUi => c.ui == UiDone
      case Reported => false
      case _ => true
  }

  function Take(c: Cockpit, step: Step): Cockpit
    requires CanTake(c, step)
  {
    match step
    case TrySend =>
      var ok := !c.framesClosed && |c.frames| != c.frameCap;
      c.(left := c.left[1..], frames := if ok then c.frames + [c.left[0]] else c.frames, rx := Sent(ok))
    case CountSend =>
      c.(rx := Sending, stats := if c.rx.ok then c.stats.(produced := c.stats.produced + 1)
                                 else c.stats.(dropped := c.stats.dropped + 1))
    case RxEnds => c.(rx := RxDone)
    case PopFrame => c.(frames := c.frames[1..], decoder := Got(c.frames[0]))
    case Decode =>
      if c.decoder.frame then
        c.(stats := c.stats.(decoded := c.stats.decoded + 1), decoder := Offering(c.stats.decoded + 1))
      else c.(stats := c.stats.(failures := c.stats.failures + 1), decoder := Awaiting)
    case Offer =>
      if c.statesClosed then c.(lost := c.lost + [c.decoder.n], decoder := Awaiting)
      else if |c.states| == c.stateCap then c.(decoder := FoundFull(c.decoder.n))
      else c.(states := c.states + [c.decoder.n], decoder := Awaiting)
    case Discard =>
      if c.states == [] then c.(missed := c.missed + 1, decoder := Retrying(c.decoder.n))
      else c.(states := c.states[1..], discarded := c.discarded + [c.states[0]], decoder := Retrying(c.decoder.n))
    case Retry =>
      if c.statesClosed || |c.states| == c.stateCap then c.(lost := c.lost + [c.decoder.n], decoder := Counting)
      else c.(states := c.states + [c.decoder.n], decoder := Counting)
    case CountOverwrite => c.(stats := c.stats.(overwritten := c.stats.overwritten + 1), decoder := Awaiting)
    case DecoderEnds => c.(decoder := DecoderDone)
    case PopState => c.(states := c.states[1..], ui := Showing(c.states[0]))
    case Show =>
      c.(stats := c.stats.(displayed := c.stats.displayed + 1), shown := c.shown + [c.ui.n], ui := Watching)
    case UiEnds => c.(ui := UiDone)
    case MainGoesOn =>
      match c.main
      case JoinRx => c.(main := CloseFrames)
      case CloseFrames => c.(main := JoinDecoder, framesClosed := true)
      case JoinDecoder => c.(main := CloseStates)
      case CloseStates => c.(main := JoinUi, statesClosed := true)
      case JoinUi => c.(main := Reported)
      case Reported => c
  }

  // ---- the ledger --------------------------------------------------------------------------

  function One(b: bool): nat { if b then 1 else 0 }

  predicate InHand(d: Decoder) { d.Offering? || d.FoundFull? || d.Retrying? }

  predicate Inv(c: Cockpit, total: nat) {
    Frames(c, total) && States(c) && Stages(c) && Increasing(Newest(c)) && Bounded(c)
  }

  /** Every frame is still to come, dropped, queued, being decoded, or decoded or failed. */
  predicate Frames(c: Cockpit, total: nat) {
    && |c.left| + c.stats.produced + c.stats.dropped + One(c.rx.Sent?) == total
    && c.stats.produced + One(c.rx.Sent? && c.rx.ok) == |c.frames| + c.stats.decoded + c.stats.failures + One(c.decoder.Got?)
    && |c.frames| <= c.frameCap
  }

  /** Every decoded state is displayed, discarded, queued, or in one thread's hands. */
  predicate States(c: Cockpit) {
    && c.stats.decoded == |c.shown| + |c.discarded| + |c.states| + One(c.ui.Showing?) + One(InHand(c.decoder))
    && c.stats.overwritten + One(c.decoder.Retrying? || c.decoder.Counting?) == |c.discarded| + c.missed
    && c.stats.displayed == |c.shown| && c.lost == []
    && |c.states| <= c.stateCap && (c.decoder.Retrying? ==> |c.states| < c.stateCap)
  }

  /** Queues close only behind a thread that has finished. */
  predicate Stages(c: Cockpit) {
    && (c.rx == RxDone ==> c.left == [])
    && (c.decoder == DecoderDone ==> c.frames == [] && c.rx == RxDone)
    && (c.ui == UiDone ==> c.states == [] && c.decoder == DecoderDone)
    && (c.main != JoinRx ==> c.rx == RxDone)
    && c.framesClosed == (c.main != JoinRx && c.main != CloseFrames)
    && (c.main == CloseStates || c.main == JoinUi || c.main == Reported ==> c.decoder == DecoderDone)
    && c.statesClosed == (c.main == JoinUi || c.main == Reported)
    && (c.decoder == DecoderDone ==> c.framesClosed)
    && (c.ui == UiDone ==> c.statesClosed)
    && (c.main == Reported ==> c.ui == UiDone)
  }

  /** The states that were or may yet be displayed, oldest first. */
  function Newest(c: Cockpit): seq<nat> {
    c.shown + (if c.ui.Showing? then [c.ui.n] else []) + c.states + (if InHand(c.decoder) then [c.decoder.n] else [])
  }

  predicate Increasing(s: seq<nat>) { forall i, j :: 0 <= i < j < |s| ==> s[i] < s[j] }

  /** The newest state is always among them. */
  predicate Bounded(c: Cockpit) {
    && (forall i :: 0 <= i < |Newest(c)| ==> 1 <= Newest(c)[i] <= c.stats.decoded)
    && (c.stats.decoded > 0 ==> Newest(c) != [] && Newest(c)[|Newest(c)| - 1] == c.stats.decoded)
  }

  lemma StartHolds(frameCap: nat, stateCap: nat, input: seq<Frame>)
    ensures Inv(Start(frameCap, stateCap, input), |input|)
  {
  }

  predicate Ledger(c: Cockpit, total: nat) { Frames(c, total) && States(c) && Stages(c) }

  lemma ReceiverKeepsLedger(c: Cockpit, step: Step, total: nat)
    requires Ledger(c, total) && CanTake(c, step) && (step.TrySend? || step.CountSend? || step.RxEnds? || step.MainGoesOn?)
    ensures Ledger(Take(c, step), total)
  {
  }

  lemma DisplayKeepsLedger(c: Cockpit, step: Step, total: nat)
    requires Ledger(c, total) && CanTake(c, step) && (step.PopState? || step.Show? || step.UiEnds?)
    ensures Ledger(Take(c, step), total)
  {
  }

  lemma DecodingKeepsLedger(c: Cockpit, step: Step, total: nat)
    requires Ledger(c, total) && CanTake(c, step) && (step.PopFrame? || step.Decode? || step.DecoderEnds?)
    ensures Ledger(Take(c, step), total)
  {
  }

  lemma OfferingKeepsLedger(c: Cockpit, step: Step, total: nat)
    requires Ledger(c, total) && CanTake(c, step) && c.stateCap > 0
    requires step.Offer? || step.Discard? || step.Retry? || step.CountOverwrite?
    ensures Ledger(Take(c, step), total)
  {
  }

  /** A step that neither numbers a new state nor discards one. */
  predicate KeepsNewest(c: Cockpit, step: Step) {
    && !(step.Decode? && c.decoder.Got? && c.decoder.frame)
    && !(step.Discard? && c.states != [])
  }

  lemma SameNewest(c: Cockpit, step: Step, total: nat)
    requires Ledger(c, total) && CanTake(c, step) && KeepsNewest(c, step)
    ensures Newest(Take(c, step)) == Newest(c) && Take(c, step).stats.decoded == c.stats.decoded
  {
    hide Frames, Stages, Take, Newest;
    if step.Offer? || step.Retry? {
      StatesAreOpen(c);
      OfferedIsNewest(c, step);
    } else if step.PopState? || step.Show? || step.UiEnds? {
      DisplayLeavesNewest(c, step);
    } else {
      OthersLeaveNewest(c, step);
    }
  }

  lemma StatesAreOpen(c: Cockpit)
    requires Stages(c) && c.decoder != DecoderDone
    ensures !c.statesClosed
  {
  }

  /** A state that moves from the decoder's hands into the queue stays the newest. */
  lemma OfferedIsNewest(c: Cockpit, step: Step)
    requires CanTake(c, step) && !c.statesClosed
    requires step.Offer? || (step.Retry? && |c.states| != c.stateCap)
    ensures Newest(Take(c, step)) == Newest(c) && Take(c, step).stats.decoded == c.stats.decoded
  {
  }

  lemma DisplayLeavesNewest(c: Cockpit, step: Step)
    requires CanTake(c, step) && (step.PopState? || step.Show? || step.UiEnds?)
    ensures Newest(Take(c, step)) == Newest(c) && Take(c, step).stats.decoded == c.stats.decoded
  {
    if step.PopState? {
      assert c.states == [c.states[0]] + c.states[1..];
    }
  }

  lemma OthersLeaveNewest(c: Cockpit, step: Step)
    requires CanTake(c, step) && KeepsNewest(c, step)
    requires !step.Offer? && !step.Retry? && !step.PopState? && !step.Show? && !step.UiEnds?
    ensures Newest(Take(c, step)) == Newest(c) && Take(c, step).stats.decoded == c.stats.decoded
  {
    SameParts(c, Take(c, step));
    hide Newest;
  }

  lemma SameParts(c: Cockpit, d: Cockpit)
    requires d.shown == c.shown && d.ui == c.ui && d.states == c.states && InHand(d.decoder) == InHand(c.decoder)
    requires InHand(c.decoder) ==> d.decoder.n == c.decoder.n
    ensures Newest(d) == Newest(c)
  {
  }

  lemma StepKeepsOrder(c: Cockpit, step: Step, total: nat)
    requires Inv(c, total) && CanTake(c, step)
    ensures Increasing(Newest(Take(c, step))) && Bounded(Take(c, step))
  {
    if KeepsNewest(c, step) {
      SameNewest(c, step, total);
    } else if step.Decode? {
      NumberedLast(c);
    } else {
      DiscardedFirst(c);
    }
  }

  lemma NumberedLast(c: Cockpit)
    requires CanTake(c, Decode) && c.decoder.frame && Increasing(Newest(c)) && Bounded(c)
    ensures Increasing(Newest(Take(c, Decode))) && Bounded(Take(c, Decode))
  {
    assert Newest(Take(c, Decode)) == Newest(c) + [c.stats.decoded + 1];
  }

  lemma DiscardedFirst(c: Cockpit)
    requires CanTake(c, Discard) && c.states != [] && Increasing(Newest(c)) && Bounded(c)
    ensures Increasing(Newest(Take(c, Discard))) && Bounded(Take(c, Discard))
  {
    Skips(c.shown + (if c.ui.Showing? then [c.ui.n] else []), c.states, [c.decoder.n]);
  }

  lemma Skips(a: seq<nat>, b: seq<nat>, c: seq<nat>)
    requires b != [] && Increasing(a + b + c)
    ensures Increasing(a + b[1..] + c)
    ensures forall i :: 0 <= i < |a + b[1..] + c| ==> (a + b[1..] + c)[i] == (a + b + c)[if i < |a| then i else i + 1]
  {
    var s, t := a + b + c, a + b[1..] + c;
    assert forall i :: 0 <= i < |t| ==> t[i] == s[if i < |a| then i else i + 1];
  }

  lemma StepKeepsInv(c: Cockpit, step: Step, total: nat)
    requires Inv(c, total) && CanTake(c, step) && c.stateCap > 0
    ensures Inv(Take(c, step), total)
  {
    StepKeepsOrder(c, step, total);
    hide CanTake, Take, Frames, States, Stages, Newest, Bounded, Increasing;
    match step
    case PopFrame => DecodingKeepsLedger(c, step, total);
    case Decode => DecodingKeepsLedger(c, step, total);
    case Offer => OfferingKeepsLedger(c, step, total);
    case Discard => OfferingKeepsLedger(c, step, total);
    case Retry => OfferingKeepsLedger(c, step, total);
    case CountOverwrite => OfferingKeepsLedger(c, step, total);
    case DecoderEnds => DecodingKeepsLedger(c, step, total);
    case PopState => DisplayKeepsLedger(c, step, total);
    case Show => DisplayKeepsLedger(c, step, total);
    case UiEnds => DisplayKeepsLedger(c, step, total);
    case _ => ReceiverKeepsLedger(c, step, total);
  }
}

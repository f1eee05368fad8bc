/** The two error counters of a CAN node, and when they put it off the bus. */
module FaultConfinement {
  datatype ErrorEvent =
    | TransmitSuccess | ReceiveSuccess | TransmitError | ReceiveError | ReceiveErrorAfterFlag | RecessiveWindow

  datatype ErrorState = Active | Passive | BusOff

  const PENALTY: nat := 8
  const PASSIVE_LIMIT: nat := 127
  const BUS_OFF_LIMIT: nat := 256
  const RECOVERY_WINDOWS: nat := 128

  datatype Counters = Counters(tec: nat, rec: nat, windows: nat, busOff: bool)

  const FRESH: Counters := Counters(0, 0, 0, false)

  function Less(n: nat): nat { if n > 0 then n - 1 else 0 }

  function Min(a: nat, b: nat): nat { if a <= b then a else b }

  /** One event on the bus. */
  function OnBus(c: Counters, e: ErrorEvent): Counters {
    var tec := match e case TransmitSuccess => Less(c.tec) case TransmitError => c.tec + PENALTY case _ => c.tec;
    var rec := match e
      case ReceiveSuccess => (if c.rec > PASSIVE_LIMIT then PASSIVE_LIMIT else Less(c.rec))
      case ReceiveError => c.rec + 1
      case ReceiveErrorAfterFlag => c.rec + PENALTY
      case _ => c.rec;
    var off := tec >= BUS_OFF_LIMIT;
    Counters(Min(tec, BUS_OFF_LIMIT), Min(rec, BUS_OFF_LIMIT), if off then 0 else c.windows, off)
  }

  function After(c: Counters, e: ErrorEvent): Counters {
    if !c.busOff then OnBus(c, e)
    else if e == RecessiveWindow && c.windows < RECOVERY_WINDOWS then
      if c.windows + 1 == RECOVERY_WINDOWS then FRESH else c.(windows := c.windows + 1)
    else c
  }

  function Run(c: Counters, events: seq<ErrorEvent>): Counters {
    if events == [] then c else After(Run(c, events[..|events| - 1]), events[|events| - 1])
  }

  /** The counters as a controller keeps them: no counter leaves its range. */
  predicate InRange(c: Counters) {
    && c.rec <= BUS_OFF_LIMIT && c.windows < RECOVERY_WINDOWS && (!c.busOff ==> c.windows == 0)
    && (if c.busOff then c.tec == BUS_OFF_LIMIT else c.tec < BUS_OFF_LIMIT)
  }

  lemma {:induction false} RunStaysInRange(c: Counters, events: seq<ErrorEvent>)
    requires InRange(c)
    ensures InRange(Run(c, events))
    decreases |events|
  {
    if events == [] {
    } else {
      RunStaysInRange(c, events[..|events| - 1]);
    }
  }

  // ---- getting off the bus -----------------------------------------------------------------

  datatype Side = Sending | Receiving

  function Charge(e: ErrorEvent, side: Side): int {
    match side
    case Sending => (match e case TransmitError => 8 case TransmitSuccess => -1 case _ => 0)
    case Receiving => (match e case ReceiveError => 1 case ReceiveErrorAfterFlag => 8 case ReceiveSuccess => -1 case _ => 0)
  }

  /** The errors of one side at their price, less one for every frame that went well. */
  function Balance(events: seq<ErrorEvent>, side: Side): int {
    if events == [] then 0 else Balance(events[..|events| - 1], side) + Charge(events[|events| - 1], side)
  }

  /** `n` is the worst balance of any stretch of events up to now. */
  predicate IsWorst(events: seq<ErrorEvent>, side: Side, n: nat) {
    && (forall k :: 0 <= k <= |events| ==> Balance(events[k..], side) <= n)
    && (exists k :: 0 <= k <= |events| && Balance(events[k..], side) == n)
  }

  predicate StaysOn(events: seq<ErrorEvent>) {
    forall i :: 0 <= i <= |events| ==> !Run(FRESH, events[..i]).busOff
  }

  /** The receive counter never gets beyond 127. */
  predicate StaysLow(events: seq<ErrorEvent>) {
    forall i :: 0 <= i <= |events| ==> Run(FRESH, events[..i]).rec <= 127
  }

  lemma SuffixStep(events: seq<ErrorEvent>, e: ErrorEvent, side: Side, k: nat)
    requires k <= |events|
    ensures Balance((events + [e])[k..], side) == Balance(events[k..], side) + Charge(e, side)
  {
    var s := (events + [e])[k..];
    assert s[..|s| - 1] == events[k..];
  }

  lemma StaysOnBefore(events: seq<ErrorEvent>)
    requires events != [] && StaysOn(events)
    ensures StaysOn(events[..|events| - 1]) && !Run(FRESH, events).busOff
  {
    PrefixStaysOn(events, |events| - 1);
    assert events[..|events|] == events;
  }

  lemma PrefixStaysOn(events: seq<ErrorEvent>, n: nat)
    requires n <= |events| && StaysOn(events)
    ensures StaysOn(events[..n]) && !Run(FRESH, events[..n]).busOff
  {
    var before := events[..n];
    forall i | 0 <= i <= |before| ensures !Run(FRESH, before[..i]).busOff {
      assert before[..i] == events[..i];
    }
  }

  lemma PrefixStaysLow(events: seq<ErrorEvent>, n: nat)
    requires n <= |events| && StaysLow(events)
    ensures StaysLow(events[..n]) && Run(FRESH, events[..n]).rec <= 127
  {
    var before := events[..n];
    forall i | 0 <= i <= |before| ensures Run(FRESH, before[..i]).rec <= 127 {
      assert before[..i] == events[..i];
    }
  }

  lemma WorstGoesOn(events: seq<ErrorEvent>, e: ErrorEvent, side: Side, n: nat, next: nat)
    requires IsWorst(events, side, n) && next == (if n + Charge(e, side) >= 0 then n + Charge(e, side) else 0)
    ensures IsWorst(events + [e], side, next)
  {
    var all := events + [e];
    assert all[|all|..] == [];
    forall k | 0 <= k <= |all| ensures Balance(all[k..], side) <= next {
      if k <= |events| { SuffixStep(events, e, side, k); }
    }
    var k :| 0 <= k <= |events| && Balance(events[k..], side) == n;
    SuffixStep(events, e, side, k);
    assert Balance(all[if n + Charge(e, side) >= 0 then k else |all|..], side) == next;
  }

  /** Until the node leaves the bus its transmit counter is the worst balance of sending. */
  lemma {:induction false} TecIsTheWorstStretch(events: seq<ErrorEvent>)
    requires StaysOn(events)
    ensures IsWorst(events, Sending, Run(FRESH, events).tec)
    decreases |events|
  {
    hide IsWorst;
    if events == [] {
      WorstOfNothing(Sending);
    } else {
      var before, e := events[..|events| - 1], events[|events| - 1];
      StaysOnBefore(events);
      TecIsTheWorstStretch(before);
      assert !Run(FRESH, before).busOff by { assert before[..|before|] == before; }
      WorstGoesOn(before, e, Sending, Run(FRESH, before).tec, Run(FRESH, events).tec);
      assert before + [e] == events;
    }
  }

  /** Until then, and as long as it is at most 127, its receive counter is the worst balance of receiving. */
  lemma {:induction false} RecIsTheWorstStretch(events: seq<ErrorEvent>)
    requires StaysOn(events) && StaysLow(events)
    ensures IsWorst(events, Receiving, Run(FRESH, events).rec)
    decreases |events|
  {
    hide IsWorst, StaysOn, StaysLow;
    if events == [] {
      WorstOfNothing(Receiving);
    } else {
      var before, e := events[..|events| - 1], events[|events| - 1];
      PrefixStaysOn(events, |before|);
      PrefixStaysLow(events, |before|);
      assert events[..|events|] == events;
      PrefixStaysOn(events, |events|);
      PrefixStaysLow(events, |events|);
      RecIsTheWorstStretch(before);
      assert before + [e] == events;
      hide Run;
      RecGoesOn(before, e);
      WorstGoesOn(before, e, Receiving, Run(FRESH, before).rec, Run(FRESH, events).rec);
    }
  }

  lemma RecGoesOn(before: seq<ErrorEvent>, e: ErrorEvent)
    requires !Run(FRESH, before).busOff && Run(FRESH, before).rec <= 127 && Run(FRESH, before + [e]).rec <= 127
    ensures var next := Run(FRESH, before).rec + Charge(e, Receiving);
            Run(FRESH, before + [e]).rec == if next >= 0 then next else 0
  {
    RunStaysInRange(FRESH, before);
    OneMoreEvent(before, e);
    ReceiveSteps(Run(FRESH, before), e);
    hide Run, After, InRange;
  }

  lemma WorstOfNothing(side: Side)
    ensures IsWorst([], side, 0)
  {
    var none: seq<ErrorEvent> := [];
    assert none[0..] == [];
  }

  predicate SomeStretchReaches(events: seq<ErrorEvent>, side: Side, limit: int) {
    exists k, i :: 0 <= k <= i <= |events| && Reaches(events, side, k, i, limit)
  }

  predicate Reaches(events: seq<ErrorEvent>, side: Side, k: nat, i: nat, limit: int)
    requires k <= i <= |events|
  {
    Balance(events[k..i], side) >= limit
  }

  /** The first event after which the node is off the bus. */
  lemma {:induction false} FirstOff(events: seq<ErrorEvent>) returns (i: nat)
    requires !StaysOn(events)
    ensures 0 < i <= |events| && StaysOn(events[..i - 1]) && Run(FRESH, events[..i]).busOff
    decreases |events|
  {
    hide After;
    if events == [] {
    } else {
      var before := events[..|events| - 1];
      if StaysOn(before) {
        i := |events|;
        assert events[..|events|] == events;
        var j :| 0 <= j <= |events| && Run(FRESH, events[..j]).busOff;
        if j < |events| { assert events[..j] == before[..j]; }
      } else {
        i := FirstOff(before);
        assert before[..i - 1] == events[..i - 1] && before[..i] == events[..i];
      }
    }
  }

  /** The first event after which the receive counter is beyond 127. */
  lemma {:induction false} FirstHigh(events: seq<ErrorEvent>) returns (i: nat)
    requires !StaysLow(events)
    ensures 0 < i <= |events| && StaysLow(events[..i - 1]) && Run(FRESH, events[..i]).rec > 127
    decreases |events|
  {
    hide After;
    if events == [] {
    } else {
      var before := events[..|events| - 1];
      if StaysLow(before) {
        i := |events|;
        assert events[..|events|] == events;
        var j :| 0 <= j <= |events| && Run(FRESH, events[..j]).rec > 127;
        if j < |events| { assert events[..j] == before[..j]; }
      } else {
        i := FirstHigh(before);
        assert before[..i - 1] == events[..i - 1] && before[..i] == events[..i];
      }
    }
  }

  /** The node leaves the bus exactly when some stretch of its run weighs 256 or more. */
  lemma BusOffExactly(events: seq<ErrorEvent>)
    ensures !StaysOn(events) <==> SomeStretchReaches(events, Sending, 256)
  {
    hide StaysOn, Balance;
    if StaysOn(events) {
      forall k, i | 0 <= k <= i <= |events| ensures !Reaches(events, Sending, k, i, 256) {
        LightStretch(events, k, i);
      }
    } else {
      var i := FirstOff(events);
      var k := StretchThatTurnsOff(events, i);
      assert Reaches(events, Sending, k, i, 256);
    }
  }

  lemma LightStretch(events: seq<ErrorEvent>, k: nat, i: nat)
    requires StaysOn(events) && k <= i <= |events|
    ensures Balance(events[k..i], Sending) < 256
  {
    PrefixStaysOn(events, i);
    TecIsTheWorstStretch(events[..i]);
    RunStaysInRange(FRESH, events[..i]);
    assert events[..i][k..] == events[k..i];
  }

  lemma StretchThatTurnsOff(events: seq<ErrorEvent>, i: nat) returns (k: nat)
    requires 0 < i <= |events| && StaysOn(events[..i - 1]) && Run(FRESH, events[..i]).busOff
    ensures k <= i && Balance(events[k..i], Sending) >= 256
  {
    var before, e := events[..i - 1], events[i - 1];
    assert events[..i] == before + [e] && (before + [e])[..|before|] == before && before[..|before|] == before;
    TecIsTheWorstStretch(before);
    hide StaysOn, Balance, IsWorst;
    k := HeavyStretch(before, e, Sending, Run(FRESH, before).tec);
    assert (before + [e])[k..] == events[k..i];
  }

  /** A node that stays on the bus is put passive by its receive counter exactly when some stretch of its
      run weighs 128 or more. */
  lemma ReceivePassiveExactly(events: seq<ErrorEvent>)
    requires StaysOn(events)
    ensures !StaysLow(events) <==> SomeStretchReaches(events, Receiving, 128)
  {
    hide StaysOn, StaysLow, Balance;
    if StaysLow(events) {
      forall k, i | 0 <= k <= i <= |events| ensures !Reaches(events, Receiving, k, i, 128) {
        LowStretch(events, k, i);
      }
    } else {
      var i := FirstHigh(events);
      var k := StretchThatTurnsPassive(events, i);
      assert Reaches(events, Receiving, k, i, 128);
    }
  }

  lemma LowStretch(events: seq<ErrorEvent>, k: nat, i: nat)
    requires StaysOn(events) && StaysLow(events) && k <= i <= |events|
    ensures Balance(events[k..i], Receiving) < 128
  {
    PrefixStaysOn(events, i);
    PrefixStaysLow(events, i);
    hide StaysOn, StaysLow, Balance;
    RecIsTheWorstStretch(events[..i]);
    assert events[..i][k..] == events[k..i];
  }

  lemma StretchThatTurnsPassive(events: seq<ErrorEvent>, i: nat) returns (k: nat)
    requires 0 < i <= |events| && StaysOn(events) && StaysLow(events[..i - 1]) && Run(FRESH, events[..i]).rec > 127
    ensures k <= i && Balance(events[k..i], Receiving) >= 128
  {
    var before, e := events[..i - 1], events[i - 1];
    assert events[..i] == before + [e] && before[..|before|] == before;
    PrefixStaysOn(events, i - 1);
    PrefixStaysLow(before, |before|);
    hide StaysOn, StaysLow, Balance, IsWorst, Run;
    RecIsTheWorstStretch(before);
    RunStaysInRange(FRESH, before);
    OneMoreEvent(before, e);
    ReceiveSteps(Run(FRESH, before), e);
    hide After;
    k := HeavyStretch(before, e, Receiving, Run(FRESH, before).rec);
    assert (before + [e])[k..] == events[k..i];
  }

  lemma OneMoreEvent(before: seq<ErrorEvent>, e: ErrorEvent)
    ensures Run(FRESH, before + [e]) == After(Run(FRESH, before), e)
  {
    assert (before + [e])[..|before|] == before;
  }

  /** The worst stretch so far, with one more event. */
  lemma HeavyStretch(before: seq<ErrorEvent>, e: ErrorEvent, side: Side, n: nat) returns (k: nat)
    requires IsWorst(before, side, n)
    ensures k <= |before| && Balance((before + [e])[k..], side) == n + Charge(e, side)
  {
    k :| 0 <= k <= |before| && Balance(before[k..], side) == n;
    SuffixStep(before, e, side, k);
  }

  /** What one event does to the receive counter of a node on the bus, whatever its value: an error costs
      1, or 8 after the node's own error flag, up to 256; a frame that goes well gives 1 back, and all
      beyond 127 at once. */
  lemma ReceiveSteps(c: Counters, e: ErrorEvent)
    requires InRange(c) && !c.busOff
    ensures var rec := After(c, e).rec;
            && (e == ReceiveError ==> rec == if c.rec == 256 then 256 else c.rec + 1)
            && (e == ReceiveErrorAfterFlag ==> rec == if c.rec > 248 then 256 else c.rec + 8)
            && (e == ReceiveSuccess ==> rec == if c.rec > 127 then 127 else if c.rec == 0 then 0 else c.rec - 1)
            && (e != ReceiveError && e != ReceiveErrorAfterFlag && e != ReceiveSuccess ==> rec == c.rec)
  {
  }

  /** A node that only listens never gets off the bus, however bad the bus. */
  lemma ListenersStayOn(events: seq<ErrorEvent>)
    requires TransmitError !in events
    ensures StaysOn(events)
  {
    BusOffExactly(events);
    forall k, i | 0 <= k <= i <= |events| ensures !Reaches(events, Sending, k, i, 256) {
      NoErrorNoCharge(events[k..i]);
    }
  }

  lemma {:induction false} NoErrorNoCharge(events: seq<ErrorEvent>)
    requires TransmitError !in events
    ensures Balance(events, Sending) <= 0
    decreases |events|
  {
    if events == [] {
    } else {
      NoErrorNoCharge(events[..|events| - 1]);
    }
  }

  // ---- getting back ------------------------------------------------------------------------

  function Windows(events: seq<ErrorEvent>): nat {
    if events == [] then 0
    else Windows(events[..|events| - 1]) + if events[|events| - 1] == RecessiveWindow then 1 else 0
  }

  /** Off the bus nothing but recessive windows counts, and the 128th one starts the node afresh. */
  lemma {:induction false} RecoveryTakes128Windows(c: Counters, events: seq<ErrorEvent>)
    requires InRange(c) && c.busOff && c.windows + Windows(events) <= 128
    ensures c.windows + Windows(events) < 128 ==> Run(c, events) == c.(windows := c.windows + Windows(events))
    ensures c.windows + Windows(events) == 128 && events[|events| - 1] == RecessiveWindow ==> Run(c, events) == Counters(0, 0, 0, false)
    decreases |events|
  {
    if events == [] {
    } else {
      RecoveryTakes128Windows(c, events[..|events| - 1]);
    }
  }

  class ErrorCounters {
    var tec: nat
    var rec: nat
    var windows: nat
    var busOff: bool

    function View(): Counters
      reads this
    {
      Counters(tec, rec, windows, busOff)
    }

    constructor ()
      ensures View() == FRESH
    {
      tec, rec, windows, busOff := 0, 0, 0, false;
    }

    method On(event: ErrorEvent)
      requires InRange(View())
      modifies this
      ensures View() == After(old(View()), event) && InRange(View())
    {
      if busOff {
        if event == RecessiveWindow && windows < RECOVERY_WINDOWS {
          windows := windows + 1;
          if windows == RECOVERY_WINDOWS {
            Reset();
          }
        }
        return;
      }
      match event {
        case TransmitSuccess =>
          if tec > 0 {
            tec := tec - 1;
          }
        case ReceiveSuccess =>
          if rec > PASSIVE_LIMIT {
            rec := PASSIVE_LIMIT;
          } else if rec > 0 {
            rec := rec - 1;
          }
        case TransmitError => tec := tec + PENALTY;
        case ReceiveError => rec := rec + 1;
        case ReceiveErrorAfterFlag => rec := rec + PENALTY;
        case RecessiveWindow =>
      }
      if rec > BUS_OFF_LIMIT {
        rec := BUS_OFF_LIMIT;
      }
      if tec >= BUS_OFF_LIMIT {
        tec := BUS_OFF_LIMIT;
        busOff := true;
        windows := 0;
      }
    }

    method Reset()
      modifies this
      ensures View() == FRESH
    {
      tec, rec, windows, busOff := 0, 0, 0, false;
    }

    method State() returns (state: ErrorState)
      requires InRange(View())
      ensures state == BusOff <==> tec >= 256
      ensures state == Passive <==> tec < 256 && (tec > 127 || rec > 127)
    {
      if busOff {
        return BusOff;
      }
      if tec > PASSIVE_LIMIT || rec > PASSIVE_LIMIT {
        return Passive;
      }
      return Active;
    }
  }
}

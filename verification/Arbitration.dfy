/** One round of arbitration, bit by bit, and who is left when it ends. */
module Arbitration {
  import opened Wrappers
  import opened ArbitrationBits

  datatype RoundStep = RoundStep(index: nat, name: string, bus: BitValue, lost: seq<nat>)

  datatype Round = Round(winners: seq<nat>, trace: seq<RoundStep>)

  const BIT_NAMES: seq<string> := [
    "ID28", "ID27", "ID26", "ID25", "ID24", "ID23", "ID22", "ID21", "ID20", "ID19", "ID18", "RTR/SRR", "IDE",
    "ID17", "ID16", "ID15", "ID14", "ID13", "ID12", "ID11", "ID10", "ID9", "ID8", "ID7",
    "ID6", "ID5", "ID4", "ID3", "ID2", "ID1", "ID0", "RTR"]

  function BitName(index: nat): string { if index >= |BIT_NAMES| then "" else BIT_NAMES[index] }

  type Fields = seq<seq<BitValue>>

  predicate LongEnough(fields: Fields, k: nat) { forall i :: 0 <= i < |fields| ==> k <= |fields[i]| }

  /** Bit `k` of node `i`. */
  function Bit(fields: Fields, i: nat, k: nat): BitValue {
    if i < |fields| && k < |fields[i]| then fields[i][k] else Recessive
  }

  function Prefix(bits: seq<BitValue>, k: nat): seq<BitValue> { if k <= |bits| then bits[..k] else bits }

  /** What node `i` has driven after `k` bits, as a number. */
  function Driven(fields: Fields, k: nat, i: nat): nat
    requires i < |fields|
  {
    Value(Prefix(fields[i], k))
  }

  /** No other node drove less. */
  predicate Least(fields: Fields, k: nat, i: nat) {
    i < |fields| && forall j :: 0 <= j < |fields| ==> Driven(fields, k, i) <= Driven(fields, k, j)
  }

  predicate Ascending(s: seq<nat>) { forall i, j :: 0 <= i < j < |s| ==> s[i] < s[j] }

  ghost predicate AreLeast(fields: Fields, k: nat, nodes: seq<nat>) {
    Ascending(nodes) && nodes != [] && forall i: nat :: i in nodes <==> Least(fields, k, i)
  }

  // ---- one bit -----------------------------------------------------------------------------

  lemma OneMoreBit(fields: Fields, k: nat, i: nat)
    requires LongEnough(fields, k + 1) && i < |fields|
    ensures Driven(fields, k + 1, i) == 2 * Driven(fields, k, i) + Worth(Bit(fields, i, k))
  {
    assert fields[i][..k + 1][..k] == fields[i][..k];
  }

  /** The wired-AND of those still in the round. */
  ghost predicate IsBus(fields: Fields, nodes: seq<nat>, k: nat, bus: BitValue) {
    bus == Dominant <==> exists i :: i in nodes && Bit(fields, i, k) == Dominant
  }

  lemma SomeDriver(fields: Fields, nodes: seq<nat>, k: nat, bus: BitValue) returns (w: nat)
    requires nodes != [] && IsBus(fields, nodes, k, bus)
    ensures w in nodes && Bit(fields, w, k) == bus
  {
    if bus == Dominant {
      w :| w in nodes && Bit(fields, w, k) == Dominant;
    } else {
      w := nodes[0];
    }
  }

  /** A node that drove least and now reads back its own bit has still driven least ... */
  lemma StillLeast(fields: Fields, k: nat, nodes: seq<nat>, bus: BitValue, i: nat)
    requires LongEnough(fields, k + 1) && AreLeast(fields, k, nodes) && IsBus(fields, nodes, k, bus)
    requires i in nodes && Bit(fields, i, k) == bus
    ensures Least(fields, k + 1, i)
  {
    hide Driven, Ascending;
    var next := k + 1;
    assert Least(fields, k, i);
    OneMoreBit(fields, k, i);
    forall j | 0 <= j < |fields| ensures Driven(fields, next, i) <= Driven(fields, next, j) {
      OneMoreBit(fields, k, j);
      assert Driven(fields, k, i) <= Driven(fields, k, j);
      if Driven(fields, k, i) == Driven(fields, k, j) {
        SameIsLeast(fields, k, i, j);
      }
    }
  }

  lemma SameIsLeast(fields: Fields, k: nat, i: nat, j: nat)
    requires Least(fields, k, i) && j < |fields| && Driven(fields, k, i) == Driven(fields, k, j)
    ensures Least(fields, k, j)
  {
  }

  /** ... and any other node has not. */
  lemma NotLeast(fields: Fields, k: nat, nodes: seq<nat>, bus: BitValue, i: nat)
    requires LongEnough(fields, k + 1) && AreLeast(fields, k, nodes) && IsBus(fields, nodes, k, bus)
    requires !(i in nodes && Bit(fields, i, k) == bus)
    ensures !Least(fields, k + 1, i)
  {
    hide Driven, Ascending;
    if i < |fields| {
      var w := SomeDriver(fields, nodes, k, bus);
      assert Least(fields, k, w);
      OneMoreBit(fields, k, i);
      OneMoreBit(fields, k, w);
      assert Driven(fields, k, w) <= Driven(fields, k, i);
      if Driven(fields, k, w) == Driven(fields, k, i) {
        SameIsLeast(fields, k, w, i);
        assert bus == Dominant;
      }
      assert Driven(fields, k + 1, w) < Driven(fields, k + 1, i);
    }
  }

  lemma BitDecides(fields: Fields, k: nat, nodes: seq<nat>, bus: BitValue, i: nat)
    requires LongEnough(fields, k + 1) && AreLeast(fields, k, nodes) && IsBus(fields, nodes, k, bus)
    ensures Least(fields, k + 1, i) <==> i in nodes && Bit(fields, i, k) == bus
  {
    hide Least, AreLeast, IsBus;
    if i in nodes && Bit(fields, i, k) == bus {
      StillLeast(fields, k, nodes, bus, i);
    } else {
      NotLeast(fields, k, nodes, bus, i);
    }
  }

  lemma LeastBefore(fields: Fields, k: nat, i: nat)
    requires LongEnough(fields, k + 1) && Least(fields, k + 1, i)
    ensures Least(fields, k, i)
  {
    var next := k + 1;
    OneMoreBit(fields, k, i);
    forall j | 0 <= j < |fields| ensures Driven(fields, k, i) <= Driven(fields, k, j) {
      OneMoreBit(fields, k, j);
      assert Driven(fields, next, i) <= Driven(fields, next, j);
    }
  }

  /** Once a single node is left, the bits still to come change nothing. */
  lemma {:induction false} LoneWinnerStays(fields: Fields, k: nat, limit: nat, nodes: seq<nat>)
    requires k <= limit && LongEnough(fields, limit) && AreLeast(fields, k, nodes) && |nodes| == 1
    ensures AreLeast(fields, limit, nodes)
    decreases limit - k
  {
    if k >= limit {
    } else {
      var next := k + 1;
      hide Least;
      forall i: nat ensures i in nodes <==> Least(fields, next, i) {
        BitDecides(fields, k, nodes, Bit(fields, nodes[0], k), i);
      }
      LoneWinnerStays(fields, next, limit, nodes);
    }
  }

  // ---- the round ---------------------------------------------------------------------------

  function AllFields(contenders: seq<Contender>): (fields: Fields)
    ensures |fields| == |contenders|
    ensures forall i :: 0 <= i < |fields| ==> fields[i] == Field(contenders[i])
  {
    seq(|contenders|, i requires 0 <= i < |contenders| => Field(contenders[i]))
  }

  predicate HasStandard(contenders: seq<Contender>) { exists i :: 0 <= i < |contenders| && !contenders[i].extended }

  /** The bits that every contender drives. */
  function Limit(contenders: seq<Contender>): nat { if HasStandard(contenders) then STANDARD_BITS else EXTENDED_BITS }

  lemma LimitFits(contenders: seq<Contender>)
    ensures LongEnough(AllFields(contenders), Limit(contenders))
  {
  }

  predicate Wins(contenders: seq<Contender>, i: nat) { Least(AllFields(contenders), Limit(contenders), i) }

  /** Step `k` records the bus level, and as lost exactly those that withdraw on bit `k`. */
  ghost predicate StepIs(fields: Fields, k: nat, step: RoundStep) {
    && step.index == k && step.name == BitName(k) && Ascending(step.lost)
    && (forall i: nat :: i in step.lost <==> Least(fields, k, i) && !Least(fields, k + 1, i))
    && (forall i: nat :: Least(fields, k + 1, i) ==> Bit(fields, i, k) == step.bus)
    && (forall i: nat :: i in step.lost ==> step.bus == Dominant && Bit(fields, i, k) == Recessive)
  }

  ghost predicate TraceIs(fields: Fields, trace: seq<RoundStep>) {
    forall k :: 0 <= k < |trace| ==> StepIs(fields, k, trace[k])
  }

  method BusLevel(fields: Fields, nodes: seq<nat>, k: nat) returns (bus: BitValue)
    ensures IsBus(fields, nodes, k, bus)
  {
    for n := 0 to |nodes|
      invariant forall m :: 0 <= m < n ==> Bit(fields, nodes[m], k) == Recessive
    {
      if Bit(fields, nodes[n], k) == Dominant {
        return Dominant;
      }
    }
    bus := Recessive;
  }

  method ReadBack(fields: Fields, nodes: seq<nat>, k: nat, bus: BitValue) returns (stillIn: seq<nat>, lost: seq<nat>)
    requires Ascending(nodes)
    ensures Ascending(stillIn) && Ascending(lost)
    ensures forall i :: i in stillIn <==> i in nodes && Bit(fields, i, k) == bus
    ensures forall i :: i in lost <==> i in nodes && Bit(fields, i, k) != bus
  {
    hide Bit;
    stillIn, lost := [], [];
    for n := 0 to |nodes|
      invariant Ascending(stillIn) && Ascending(lost)
      invariant forall i :: i in stillIn <==> i in nodes[..n] && Bit(fields, i, k) == bus
      invariant forall i :: i in lost <==> i in nodes[..n] && Bit(fields, i, k) != bus
    {
      var node := nodes[n];
      assert nodes[..n + 1] == nodes[..n] + [node];
      assert forall m :: 0 <= m < |stillIn| ==> stillIn[m] in nodes[..n];
      assert forall m :: 0 <= m < |lost| ==> lost[m] in nodes[..n];
      if Bit(fields, node, k) == bus {
        stillIn := stillIn + [node];
      } else {
        lost := lost + [node];
      }
    }
    assert nodes[..|nodes|] == nodes;
  }

  lemma StepHolds(fields: Fields, k: nat, nodes: seq<nat>, bus: BitValue, stillIn: seq<nat>, lost: seq<nat>)
    requires LongEnough(fields, k + 1) && AreLeast(fields, k, nodes) && IsBus(fields, nodes, k, bus)
    requires Ascending(stillIn) && Ascending(lost)
    requires forall i :: i in stillIn <==> i in nodes && Bit(fields, i, k) == bus
    requires forall i :: i in lost <==> i in nodes && Bit(fields, i, k) != bus
    ensures AreLeast(fields, k + 1, stillIn) && StepIs(fields, k, RoundStep(k, BitName(k), bus, lost))
  {
    hide Least, Ascending, Bit, BitName;
    var next := k + 1;
    forall i: nat ensures Least(fields, next, i) <==> i in nodes && Bit(fields, i, k) == bus {
      BitDecides(fields, k, nodes, bus, i);
    }
    var w := SomeDriver(fields, nodes, k, bus);
    assert w in stillIn;
  }

  method RunRound(fields: Fields, limit: nat) returns (winners: seq<nat>, trace: seq<RoundStep>)
    requires fields != [] && LongEnough(fields, limit)
    ensures AreLeast(fields, limit, winners)
    ensures |trace| <= limit && TraceIs(fields, trace) && AreLeast(fields, |trace|, winners)
  {
    winners := seq(|fields|, i => i);
    trace := [];
    assert TraceIs(fields, []);
    AllStart(fields, winners);
    hide Least, Bit, IsBus, StepIs, BitName, Ascending, AreLeast, TraceIs;
    var k := 0;
    while k < limit && |winners| > 1
      invariant k <= limit && |trace| == k && AreLeast(fields, k, winners) && TraceIs(fields, trace)
    {
      LeastAscend(fields, k, winners);
      var bus := BusLevel(fields, winners, k);
      var stillIn, lost := ReadBack(fields, winners, k, bus);
      StepHolds(fields, k, winners, bus, stillIn, lost);
      winners := stillIn;
      TraceGrows(fields, trace, RoundStep(k, BitName(k), bus, lost));
      trace := trace + [RoundStep(k, BitName(k), bus, lost)];
      k := k + 1;
    }
    if k < limit {
      LeastAscend(fields, k, winners);
      LoneWinnerStays(fields, k, limit, winners);
    }
  }

  lemma LeastAscend(fields: Fields, k: nat, nodes: seq<nat>)
    requires AreLeast(fields, k, nodes)
    ensures Ascending(nodes) && nodes != []
  {
  }

  lemma TraceGrows(fields: Fields, trace: seq<RoundStep>, step: RoundStep)
    requires TraceIs(fields, trace) && StepIs(fields, |trace|, step)
    ensures TraceIs(fields, trace + [step])
  {
    hide StepIs;
  }

  lemma AllStart(fields: Fields, nodes: seq<nat>)
    requires fields != [] && |nodes| == |fields| && forall i :: 0 <= i < |nodes| ==> nodes[i] == i
    ensures AreLeast(fields, 0, nodes)
  {
    forall i: nat ensures i in nodes <==> Least(fields, 0, i) {
      if i < |fields| {
        assert nodes[i] == i;
        assert forall j :: 0 <= j < |fields| ==> Prefix(fields[j], 0) == [];
      }
    }
  }

  /** All fields, and the length of the shortest. */
  method Collect(contenders: seq<Contender>) returns (fields: Option<Fields>, limit: nat)
    ensures fields.None? <==> exists i :: 0 <= i < |contenders| && BadId(contenders[i])
    ensures fields.Some? ==> fields.value == AllFields(contenders) && limit == Limit(contenders)
  {
    hide Field, BadId;
    var all: Fields := [];
    limit := EXTENDED_BITS;
    for i := 0 to |contenders|
      invariant forall j :: 0 <= j < i ==> !BadId(contenders[j])
      invariant |all| == i && forall j :: 0 <= j < i ==> all[j] == Field(contenders[j])
      invariant limit == if exists j :: 0 <= j < i && !contenders[j].extended then STANDARD_BITS else EXTENDED_BITS
    {
      if BadId(contenders[i]) {
        return None, limit;
      }
      var bits := ArbitrationField(contenders[i]);
      all := all + [bits];
      limit := if |bits| < limit then |bits| else limit;
    }
    assert all == AllFields(contenders);
    fields := Some(all);
  }

  method Arbitrate(contenders: seq<Contender>) returns (round: Option<Round>)
    ensures round.None? <==> contenders == [] || exists i :: 0 <= i < |contenders| && BadId(contenders[i])
    ensures round.Some? ==> round.value.winners != [] && Ascending(round.value.winners)
    ensures round.Some? ==> forall i: nat :: i in round.value.winners <==> Wins(contenders, i)
    ensures round.Some? ==> |round.value.trace| <= Limit(contenders) && TraceIs(AllFields(contenders), round.value.trace)
    ensures round.Some? ==> AreLeast(AllFields(contenders), |round.value.trace|, round.value.winners)
  {
    if contenders == [] {
      return None;
    }
    hide *;
    var fields, limit := Collect(contenders);
    if fields.None? {
      return None;
    }
    LimitFits(contenders);
    var winners, trace := RunRound(fields.value, limit);
    WinnersWin(contenders, winners);
    return Some(Round(winners, trace));
  }

  lemma WinnersWin(contenders: seq<Contender>, winners: seq<nat>)
    requires AreLeast(AllFields(contenders), Limit(contenders), winners)
    ensures winners != [] && Ascending(winners) && forall i: nat :: i in winners <==> Wins(contenders, i)
  {
  }
}

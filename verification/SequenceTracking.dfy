/** Telling lost, late and repeated datagrams apart by a number that wraps at 2^32. */
module SequenceTracking {
  import opened Bytes

  const WRAP: nat := 0x1_0000_0000
  const HALF: nat := 0x8000_0000

  datatype PacketOrder = First | InOrder | Gap | Stale | Duplicate

  datatype Tracker = Tracker(highest: u32, started: bool, accepted: nat, lost: nat, stale: nat)

  const NEW: Tracker := Tracker(0, false, 0, 0, 0)

  function Wrapped(n: int): u32 { n % WRAP }

  /** The wrapped difference, read as a signed 32-bit number. */
  function Delta(sequence: u32, highest: u32): int {
    var d := Wrapped(sequence - highest);
    if d as int >= HALF then d - WRAP else d
  }

  function Observed(t: Tracker, sequence: u32): (Tracker, PacketOrder) {
    if !t.started then (Tracker(sequence, true, t.accepted + 1, t.lost, t.stale), First)
    else
      var d := Delta(sequence, t.highest);
      if d == 0 then (t.(stale := t.stale + 1), Duplicate)
      else if d < 0 then (t.(stale := t.stale + 1), Stale)
      else if d > 1 then (t.(highest := sequence, accepted := t.accepted + 1, lost := t.lost + (d - 1)), Gap)
      else (t.(highest := sequence, accepted := t.accepted + 1), InOrder)
  }

  function Run(sequences: seq<u32>): Tracker {
    if sequences == [] then NEW else Observed(Run(sequences[..|sequences| - 1]), sequences[|sequences| - 1]).0
  }

  class SequenceTracker {
    var highest: u32
    var started: bool
    var accepted: nat
    var lost: nat
    var stale: nat

    function View(): Tracker
      reads this
    {
      Tracker(highest, started, accepted, lost, stale)
    }

    constructor ()
      ensures View() == NEW
    {
      highest, started, accepted, lost, stale := 0, false, 0, 0, 0;
    }

    method Observe(sequence: u32) returns (order: PacketOrder)
      modifies this
      ensures (View(), order) == Observed(old(View()), sequence)
    {
      if !started {
        started := true;
        highest := sequence;
        accepted := accepted + 1;
        return First;
      }
      var delta := Delta(sequence, highest);
      if delta == 0 {
        stale := stale + 1;
        return Duplicate;
      }
      if delta < 0 {
        stale := stale + 1;
        return Stale;
      }
      highest := sequence;
      accepted := accepted + 1;
      if delta > 1 {
        lost := lost + (delta - 1);
        return Gap;
      }
      return InOrder;
    }
  }

  // ---- the books always balance ------------------------------------------------------------

  lemma WrapSum(a: int, b: int)
    ensures Wrapped(Wrapped(a) + b) == Wrapped(a + b)
  {
    assert a == a / WRAP * WRAP + Wrapped(a);
    AddWraps(Wrapped(a) + b, a / WRAP);
  }

  lemma AddWraps(x: int, k: int)
    ensures Wrapped(x + k * WRAP) == Wrapped(x)
  {
  }

  lemma DeltaReaches(sequence: u32, highest: u32)
    ensures Wrapped(highest + Delta(sequence, highest)) == sequence
    ensures -(HALF as int) <= Delta(sequence, highest) < HALF
  {
    var d := Wrapped(sequence - highest);
    WrapSum(sequence - highest, highest);
    AddWraps(highest + d, -1);
  }

  /** Whatever arrives: every datagram is accepted or stale, and the highest number is as far from the
      first one as the accepted and the lost ones together. */
  lemma {:induction false} BooksBalance(sequences: seq<u32>)
    requires sequences != []
    ensures var t := Run(sequences);
            && t.started && t.accepted > 0 && t.accepted + t.stale == |sequences|
            && t.highest == Wrapped(sequences[0] + (t.accepted - 1) + t.lost)
    decreases |sequences|
  {
    hide Delta;
    var before, last := sequences[..|sequences| - 1], sequences[|sequences| - 1];
    if before == [] {
      assert Run(before) == NEW;
    } else {
      BooksBalance(before);
      var t := Run(before);
      DeltaReaches(last, t.highest);
      WrapSum(sequences[0] + (t.accepted - 1) + t.lost, Delta(last, t.highest));
    }
  }

  // ---- through any number of wraps ---------------------------------------------------------

  function Numbers(sent: seq<int>): (s: seq<u32>)
    ensures |s| == |sent| && forall i :: 0 <= i < |s| ==> s[i] == Wrapped(sent[i])
  {
    seq(|sent|, i requires 0 <= i < |sent| => Wrapped(sent[i]))
  }

  function Highest(sent: seq<int>): int
    requires sent != []
  {
    var last := sent[|sent| - 1];
    if |sent| == 1 then last
    else
      var before := Highest(sent[..|sent| - 1]);
      if last > before then last else before
  }

  /** No datagram is ahead of or behind the highest one before it by half the number space. */
  predicate Near(sent: seq<int>) {
    forall i :: 0 < i < |sent| ==> IsNear(sent, i)
  }

  predicate IsNear(sent: seq<int>, i: nat)
    requires 0 < i < |sent|
  {
    -(HALF as int) <= sent[i] - Highest(sent[..i]) < HALF
  }

  lemma DeltaIsTrue(n: int, highest: int)
    requires -(HALF as int) <= n - highest < HALF
    ensures Delta(Wrapped(n), Wrapped(highest)) == n - highest
  {
    var d := n - highest;
    assert n == n / WRAP * WRAP + Wrapped(n) && highest == highest / WRAP * WRAP + Wrapped(highest);
    assert Wrapped(n) - Wrapped(highest) == d + (highest / WRAP - n / WRAP) * WRAP;
    AddWraps(d, highest / WRAP - n / WRAP);
    if d < 0 { AddWraps(d, 1); }
  }

  /** Then the tracker judges every datagram as if the numbers never wrapped: it accepts exactly those
      above all before, and counts exactly the numbers that it skipped. */
  lemma {:induction false} TracksTheTrueNumbers(sent: seq<int>)
    requires sent != [] && Near(sent)
    ensures var t := Run(Numbers(sent));
            t.started && t.highest == Wrapped(Highest(sent)) && t.accepted + t.lost == Highest(sent) - sent[0] + 1
    decreases |sent|
  {
    hide Delta, Wrapped;
    var before, last := sent[..|sent| - 1], sent[|sent| - 1];
    assert Numbers(sent)[..|sent| - 1] == Numbers(before);
    if before == [] {
      assert Run(Numbers(before)) == NEW;
    } else {
      NearBefore(sent);
      TracksTheTrueNumbers(before);
      assert IsNear(sent, |sent| - 1);
      DeltaIsTrue(last, Highest(before));
    }
  }

  lemma NearBefore(sent: seq<int>)
    requires |sent| > 1 && Near(sent)
    ensures Near(sent[..|sent| - 1])
  {
    var before := sent[..|sent| - 1];
    forall i | 0 < i < |before| ensures IsNear(before, i) {
      assert IsNear(sent, i);
      assert before[..i] == sent[..i];
    }
  }

  lemma AcceptsExactlyTheNewer(sent: seq<int>, next: int)
    requires sent != [] && Near(sent) && -(HALF as int) <= next - Highest(sent) < HALF
    ensures var order := Observed(Run(Numbers(sent)), Wrapped(next)).1;
            && (order == InOrder <==> next == Highest(sent) + 1) && (order == Gap <==> next > Highest(sent) + 1)
            && (order == Duplicate <==> next == Highest(sent)) && (order == Stale <==> next < Highest(sent))
  {
    hide Delta, Wrapped;
    TracksTheTrueNumbers(sent);
    DeltaIsTrue(next, Highest(sent));
  }

  /** The bound is sharp: half the number space ahead already counts as stale. */
  lemma HalfAheadIsStale(highest: int, t: Tracker)
    requires t.started && t.highest == Wrapped(highest)
    ensures Observed(t, Wrapped(highest + HALF)).1 == Stale
  {
    WrapSum(highest, HALF);
    var h := Wrapped(highest);
    assert Wrapped(Wrapped(h + HALF) - h) == HALF;
  }
}

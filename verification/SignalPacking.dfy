/** Reading and writing signals in a payload. */
module SignalPacking {
  import opened Wrappers
  import opened PowersOfTwo
  import opened ValueBits
  import opened SignalBits

  /** `raw` has the signal's bits, and no others. */
  ghost predicate IsRaw(data: seq<bv8>, start: nat, length: nat, order: ByteOrder, raw: nat) {
    && raw < Pow2(length)
    && forall i :: 0 <= i < length ==> Walk(start, order, i) < 8 * |data| && Carries(data, start, length, order, raw, i)
  }

  predicate Carries(data: seq<bv8>, start: nat, length: nat, order: ByteOrder, value: nat, i: nat)
    requires i < length && Walk(start, order, i) < 8 * |data|
  {
    DataBit(data, Walk(start, order, i)) == Bit(value, ValueShift(i, length, order))
  }

  predicate OnWalk(start: nat, order: ByteOrder, n: nat, bit: nat) { exists i :: 0 <= i < n && Walk(start, order, i) == bit }

  /** `after` carries the first `n` bits of the signal, and is otherwise like `before`. */
  ghost predicate Written(before: seq<bv8>, after: seq<bv8>, start: nat, length: nat, order: ByteOrder, value: nat, n: nat) {
    && |after| == |before| && n <= length
    && (forall i :: 0 <= i < n ==> Walk(start, order, i) < 8 * |after| && Carries(after, start, length, order, value, i))
    && (forall bit :: 0 <= bit < 8 * |before| && !OnWalk(start, order, n, bit) ==> DataBit(after, bit) == DataBit(before, bit))
  }

  ghost predicate Inserted(before: seq<bv8>, after: seq<bv8>, start: nat, length: nat, order: ByteOrder, value: nat) {
    Written(before, after, start, length, order, value, length)
  }

  /** `next` is `data` with one bit set to `on`. */
  ghost predicate OneBitSet(data: seq<bv8>, next: seq<bv8>, bit: nat, on: bool) {
    |next| == |data| && forall b :: 0 <= b < 8 * |data| ==> DataBit(next, b) == if b == bit then on else DataBit(data, b)
  }

  lemma StoreSetsOneBit(data: seq<bv8>, bit: nat, on: bool)
    requires bit < 8 * |data|
    ensures OneBitSet(data, data[bit / 8 := WithBit(data[bit / 8], bit, on)], bit, on)
  {
    var next := data[bit / 8 := WithBit(data[bit / 8], bit, on)];
    forall b | 0 <= b < 8 * |data| ensures DataBit(next, b) == if b == bit then on else DataBit(data, b) {
      SetsOneBit(data[bit / 8], bit, b, on);
      hide ByteBit, WithBit;
    }
  }

  lemma WriteStep(before: seq<bv8>, after: seq<bv8>, next: seq<bv8>, start: nat, length: nat, order: ByteOrder, value: nat, n: nat)
    requires Written(before, after, start, length, order, value, n) && n < length
    requires Walk(start, order, n) < 8 * |after|
    requires OneBitSet(after, next, Walk(start, order, n), Bit(value, ValueShift(n, length, order)))
    ensures Written(before, next, start, length, order, value, n + 1)
  {
    var bit := Walk(start, order, n);
    hide DataBit, Bit, Walk;
    forall i | 0 <= i < n + 1 ensures Walk(start, order, i) < 8 * |next| && Carries(next, start, length, order, value, i) {
      if i < n {
        assert Carries(after, start, length, order, value, i);
        if Walk(start, order, i) == bit { WalkIsInjective(start, order, i, n); }
      }
    }
    forall b | 0 <= b < 8 * |before| && !OnWalk(start, order, n + 1, b) ensures DataBit(next, b) == DataBit(before, b) {
      OffTheWalk(start, order, n, b);
    }
  }

  lemma OffTheWalk(start: nat, order: ByteOrder, n: nat, b: nat)
    ensures OnWalk(start, order, n + 1, b) <==> OnWalk(start, order, n, b) || b == Walk(start, order, n)
  {
    hide Walk;
    if OnWalk(start, order, n, b) {
      var i :| 0 <= i < n && Walk(start, order, i) == b;
    }
  }

  /** `raw` has the first `n` bits of the walk, and no others. */
  ghost predicate Gathered(data: seq<bv8>, start: nat, length: nat, order: ByteOrder, raw: nat, n: nat) {
    && n <= length && raw < Pow2(length)
    && (forall i :: 0 <= i < n ==> Walk(start, order, i) < 8 * |data| && Carries(data, start, length, order, raw, i))
    && (forall i :: n <= i < length ==> !Bit(raw, ValueShift(i, length, order)))
  }

  lemma NothingGathered(data: seq<bv8>, start: nat, length: nat, order: ByteOrder)
    ensures Gathered(data, start, length, order, 0, 0)
  {
    forall i | 0 <= i < length ensures !Bit(0, ValueShift(i, length, order)) {
      ZeroHasNoBits(ValueShift(i, length, order));
    }
  }

  lemma GatherStep(data: seq<bv8>, start: nat, length: nat, order: ByteOrder, raw: nat, n: nat)
    requires Gathered(data, start, length, order, raw, n) && n < length && Walk(start, order, n) < 8 * |data|
    ensures Gathered(data, start, length, order,
                     if DataBit(data, Walk(start, order, n)) then OrBit(raw, ValueShift(n, length, order)) else raw, n + 1)
  {
    hide DataBit, Bit, Walk, OrBit;
    var on := DataBit(data, Walk(start, order, n));
    var next := if on then OrBit(raw, ValueShift(n, length, order)) else raw;
    OrBitStaysBelow(raw, ValueShift(n, length, order), length);
    forall i | 0 <= i < length
      ensures Bit(next, ValueShift(i, length, order)) == if i == n then on else Bit(raw, ValueShift(i, length, order))
    {
      OrBitSets(raw, ValueShift(n, length, order), ValueShift(i, length, order));
    }
    forall i | 0 <= i < n + 1 ensures Walk(start, order, i) < 8 * |data| && Carries(data, start, length, order, next, i) {
      if i < n { assert Carries(data, start, length, order, raw, i); }
    }
  }

  method ExtractBits(data: array?<bv8>, start: nat, length: nat, order: ByteOrder) returns (raw: Option<nat>)
    ensures raw.None? <==> data == null || !Sane(data.Length, length) || !Fits(data.Length, start, length, order)
    ensures raw.Some? ==> IsRaw(data[..], start, length, order, raw.value)
  {
    if data == null || !Sane(data.Length, length) {
      return None;
    }
    hide DataBit, OrBit, NextBit, Gathered;
    var value: nat := 0;
    var bit := start;
    NothingGathered(data[..], start, length, order);
    for i := 0 to length
      invariant bit == Walk(start, order, i) && Gathered(data[..], start, length, order, value, i)
      invariant forall j :: 0 <= j < i ==> Walk(start, order, j) < 8 * data.Length
    {
      if bit >= 8 * data.Length {
        return None;
      }
      GatherStep(data[..], start, length, order, value, i);
      if DataBit(data[..], bit) {
        value := OrBit(value, ValueShift(i, length, order));
      }
      bit := NextBit(bit, order);
    }
    AllGathered(data[..], start, length, order, value);
    return Some(value);
  }

  lemma AllGathered(data: seq<bv8>, start: nat, length: nat, order: ByteOrder, raw: nat)
    requires Gathered(data, start, length, order, raw, length)
    ensures IsRaw(data, start, length, order, raw)
  {
  }

  method InsertBits(data: array?<bv8>, start: nat, length: nat, order: ByteOrder, value: nat) returns (ok: bool)
    modifies data
    ensures ok <==> data != null && Sane(data.Length, length) && Fits(data.Length, start, length, order)
    ensures !ok && data != null ==> data[..] == old(data[..])
    ensures ok ==> Inserted(old(data[..]), data[..], start, length, order, value)
  {
    if data == null || !Sane(data.Length, length) {
      return false;
    }
    ok := WalkFits(data.Length, start, length, order);
    if !ok {
      return;
    }
    hide *;
    WriteWalk(data, start, length, order, value);
  }

  /** The first pass: nothing is written unless every bit of the walk lies inside. */
  method WalkFits(size: nat, start: nat, length: nat, order: ByteOrder) returns (fits: bool)
    ensures fits == Fits(size, start, length, order)
  {
    hide NextBit;
    var bit := start;
    for i := 0 to length
      invariant bit == Walk(start, order, i)
      invariant forall j :: 0 <= j < i ==> Walk(start, order, j) < 8 * size
    {
      if bit >= 8 * size {
        return false;
      }
      bit := NextBit(bit, order);
    }
    return true;
  }

  /** The second pass. */
  method WriteWalk(data: array<bv8>, start: nat, length: nat, order: ByteOrder, value: nat)
    requires Sane(data.Length, length) && Fits(data.Length, start, length, order)
    modifies data
    ensures Inserted(old(data[..]), data[..], start, length, order, value)
  {
    hide DataBit, Bit, WithBit, NextBit, OnWalk, Carries, Written, OneBitSet;
    var bit := start;
    NothingWritten(data[..], start, length, order, value);
    for i := 0 to length
      invariant bit == Walk(start, order, i)
      invariant Written(old(data[..]), data[..], start, length, order, value, i)
    {
      ghost var was := data[..];
      ghost var on := Bit(value, ValueShift(i, length, order));
      StoreSetsOneBit(was, bit, on);
      data[bit / 8] := WithBit(data[bit / 8], bit, Bit(value, ValueShift(i, length, order)));
      assert data[..] == was[bit / 8 := WithBit(was[bit / 8], bit, on)];
      WriteStep(old(data[..]), was, data[..], start, length, order, value, i);
      bit := NextBit(bit, order);
    }
  }

  lemma NothingWritten(data: seq<bv8>, start: nat, length: nat, order: ByteOrder, value: nat)
    ensures Written(data, data, start, length, order, value, 0)
  {
  }

  // ---- what packing guarantees -------------------------------------------------------------

  /** Reading back gives the value, cut to the signal's length. */
  lemma ReadsBack(before: seq<bv8>, after: seq<bv8>, start: nat, length: nat, order: ByteOrder, value: nat, raw: nat)
    requires Inserted(before, after, start, length, order, value) && IsRaw(after, start, length, order, raw)
    ensures raw == value % Pow2(length)
  {
    hide DataBit, Bit, Walk;
    forall k | 0 <= k < length ensures Bit(raw, k) == Bit(value % Pow2(length), k) {
      var i := if order == Intel then k else length - 1 - k;
      assert Carries(after, start, length, order, value, i) && Carries(after, start, length, order, raw, i);
      BitOfModulo(value, length, k);
    }
    SameValue(raw, value % Pow2(length), length);
  }

  ghost predicate Disjoint(start: nat, length: nat, order: ByteOrder, start': nat, length': nat, order': ByteOrder) {
    forall bit :: !(OnWalk(start, order, length, bit) && OnWalk(start', order', length', bit))
  }

  /** A signal is not disturbed by writing another one elsewhere. */
  lemma OthersAreKept(before: seq<bv8>, after: seq<bv8>, start: nat, length: nat, order: ByteOrder, value: nat,
                      start': nat, length': nat, order': ByteOrder, raw: nat)
    requires Inserted(before, after, start, length, order, value) && Disjoint(start, length, order, start', length', order')
    ensures IsRaw(before, start', length', order', raw) <==> IsRaw(after, start', length', order', raw)
  {
    hide DataBit, Bit, Walk;
    forall i | 0 <= i < length' && Walk(start', order', i) < 8 * |before|
      ensures Carries(before, start', length', order', raw, i) == Carries(after, start', length', order', raw, i)
    {
      var bit := Walk(start', order', i);
      assert OnWalk(start', order', length', bit);
    }
  }

  /** Signals with disjoint walks may be packed in any order. */
  lemma PackInAnyOrder(data: seq<bv8>, x1: seq<bv8>, x2: seq<bv8>, y1: seq<bv8>, y2: seq<bv8>,
                       s: nat, l: nat, o: ByteOrder, v: nat, s': nat, l': nat, o': ByteOrder, v': nat)
    requires Inserted(data, x1, s, l, o, v) && Inserted(x1, x2, s', l', o', v')
    requires Inserted(data, y1, s', l', o', v') && Inserted(y1, y2, s, l, o, v)
    requires Disjoint(s, l, o, s', l', o')
    ensures x2 == y2
  {
    hide DataBit, Bit, Walk;
    forall bit | 0 <= bit < 8 * |data| ensures DataBit(x2, bit) == DataBit(y2, bit) {
      if OnWalk(s, o, l, bit) {
        var i :| 0 <= i < l && Walk(s, o, i) == bit;
        assert Carries(x1, s, l, o, v, i) && Carries(y2, s, l, o, v, i);
      } else if OnWalk(s', o', l', bit) {
        var i :| 0 <= i < l' && Walk(s', o', i) == bit;
        assert Carries(x2, s', l', o', v', i) && Carries(y1, s', l', o', v', i);
      }
    }
    SamePayload(x2, y2);
  }
}

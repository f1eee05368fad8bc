/** Signals as walks through the bits of a payload, in Intel or Motorola order. */
module SignalBits {
  datatype ByteOrder = Intel | Motorola

  const MAX_BITS: nat := 64

  // ---- the walk ----------------------------------------------------------------------------

  function NextBit(bit: nat, order: ByteOrder): nat {
    if order == Intel then bit + 1 else if bit % 8 == 0 then bit + 15 else bit - 1
  }

  /** The `i`-th bit of the walk. */
  function Walk(start: nat, order: ByteOrder, i: nat): nat {
    if i == 0 then start else NextBit(Walk(start, order, i - 1), order)
  }

  function ValueShift(i: nat, length: nat, order: ByteOrder): nat
    requires i < length
  {
    if order == Intel then i else length - 1 - i
  }

  predicate Sane(size: nat, length: nat) { length != 0 && length <= MAX_BITS && size <= MAX_BITS }

  predicate Fits(size: nat, start: nat, length: nat, order: ByteOrder) {
    forall i :: 0 <= i < length ==> Walk(start, order, i) < 8 * size
  }

  /** Bits numbered in the order in which the walk meets them. */
  function Rank(bit: nat, order: ByteOrder): nat {
    if order == Intel then bit else bit / 8 * 8 + (7 - bit % 8)
  }

  lemma {:induction false} WalkIsLinear(start: nat, order: ByteOrder, i: nat)
    ensures Rank(Walk(start, order, i), order) == Rank(start, order) + i
    decreases i
  {
    if i == 0 {
    } else {
      WalkIsLinear(start, order, i - 1);
      RankStep(Walk(start, order, i - 1), order);
    }
  }

  lemma RankStep(bit: nat, order: ByteOrder)
    ensures Rank(NextBit(bit, order), order) == Rank(bit, order) + 1
  {
  }

  /** A walk never meets a bit twice. */
  lemma WalkIsInjective(start: nat, order: ByteOrder, i: nat, j: nat)
    requires Walk(start, order, i) == Walk(start, order, j)
    ensures i == j
  {
    WalkIsLinear(start, order, i);
    WalkIsLinear(start, order, j);
  }

  // ---- one bit of a byte -------------------------------------------------------------------

  function BitMask(k: nat): bv8 {
    match k % 8
    case 0 => 1 case 1 => 2 case 2 => 4 case 3 => 8 case 4 => 16 case 5 => 32 case 6 => 64 case _ => 128
  }

  predicate ByteBit(b: bv8, k: nat) { b & BitMask(k) != 0 }

  /** Whether DBC bit `bit` of the payload is set. */
  predicate DataBit(data: seq<bv8>, bit: nat)
    requires bit < 8 * |data|
  {
    ByteBit(data[bit / 8], bit)
  }

  function WithBit(b: bv8, k: nat, on: bool): bv8 { if on then b | BitMask(k) else b & !BitMask(k) }

  lemma SetsOneBit(b: bv8, k: nat, j: nat, on: bool)
    ensures ByteBit(WithBit(b, k, on), j) == if j % 8 == k % 8 then on else ByteBit(b, j)
  {
    MasksDiffer(k, j);
    AreMasks(k);
    AreMasks(j);
    hide BitMask;
    SetsMask(b, BitMask(k), BitMask(j), on);
  }

  lemma AreMasks(k: nat)
    ensures IsMask(BitMask(k))
  {
  }

  predicate IsMask(m: bv8) { m == 1 || m == 2 || m == 4 || m == 8 || m == 16 || m == 32 || m == 64 || m == 128 }

  lemma SetsMask(b: bv8, m: bv8, n: bv8, on: bool)
    requires IsMask(m) && IsMask(n)
    ensures ((if on then b | m else b & !m) & n != 0) == if m == n then on else b & n != 0
  {
  }

  lemma MasksDiffer(k: nat, j: nat)
    ensures BitMask(k) == BitMask(j) <==> k % 8 == j % 8
  {
  }

  lemma SameBits(b: bv8, c: bv8)
    requires forall k :: 0 <= k < 8 ==> ByteBit(b, k) == ByteBit(c, k)
    ensures b == c
  {
    assert ByteBit(b, 0) == ByteBit(c, 0) && ByteBit(b, 1) == ByteBit(c, 1) && ByteBit(b, 2) == ByteBit(c, 2);
    assert ByteBit(b, 3) == ByteBit(c, 3) && ByteBit(b, 4) == ByteBit(c, 4) && ByteBit(b, 5) == ByteBit(c, 5);
    assert ByteBit(b, 6) == ByteBit(c, 6) && ByteBit(b, 7) == ByteBit(c, 7);
    AllMasks(b, c);
  }

  lemma AllMasks(b: bv8, c: bv8)
    requires (b & 1 != 0) == (c & 1 != 0) && (b & 2 != 0) == (c & 2 != 0) && (b & 4 != 0) == (c & 4 != 0)
    requires (b & 8 != 0) == (c & 8 != 0) && (b & 16 != 0) == (c & 16 != 0) && (b & 32 != 0) == (c & 32 != 0)
    requires (b & 64 != 0) == (c & 64 != 0) && (b & 128 != 0) == (c & 128 != 0)
    ensures b == c
  {
  }

  /** Payloads with the same bits are the same. */
  lemma SamePayload(x: seq<bv8>, y: seq<bv8>)
    requires |x| == |y| && forall bit :: 0 <= bit < 8 * |x| ==> DataBit(x, bit) == DataBit(y, bit)
    ensures x == y
  {
    forall n | 0 <= n < |x| ensures x[n] == y[n] {
      forall k | 0 <= k < 8 ensures ByteBit(x[n], k) == ByteBit(y[n], k) {
        assert DataBit(x, 8 * n + k) == DataBit(y, 8 * n + k);
        ByteBitOf(x, n, k);
        ByteBitOf(y, n, k);
      }
      SameBits(x[n], y[n]);
    }
  }

  lemma ByteBitOf(x: seq<bv8>, n: nat, k: nat)
    requires n < |x| && k < 8
    ensures DataBit(x, 8 * n + k) == ByteBit(x[n], k)
  {
    assert (8 * n + k) / 8 == n && (8 * n + k) % 8 == k;
    hide ByteBit;
    SameMask(x[n], 8 * n + k, k);
  }

  lemma SameMask(b: bv8, j: nat, k: nat)
    requires j % 8 == k % 8
    ensures ByteBit(b, j) == ByteBit(b, k)
  {
  }
}

/** What a signal of whole bytes is worth: in Motorola order its bytes are a number with the high byte
    first, in Intel order one with the low byte first. */
module SignalBytes {
  import opened PowersOfTwo
  import opened ValueBits
  import opened SignalBits
  import opened SignalPacking

  function HighFirst(bytes: seq<bv8>): nat {
    if bytes == [] then 0 else 256 * HighFirst(bytes[..|bytes| - 1]) + bytes[|bytes| - 1] as int
  }

  function LowFirst(bytes: seq<bv8>): nat {
    if bytes == [] then 0 else bytes[0] as int + 256 * LowFirst(bytes[1..])
  }

  // ---- bits of bytes and of numbers --------------------------------------------------------

  lemma LowPowers()
    ensures Pow2(0) == 1 && Pow2(1) == 2 && Pow2(2) == 4 && Pow2(3) == 8
    ensures Pow2(4) == 16 && Pow2(5) == 32 && Pow2(6) == 64 && Pow2(7) == 128 && Pow2(8) == 256
  {
    assert Pow2(2) == 2 * Pow2(1) && Pow2(4) == 2 * Pow2(3) && Pow2(6) == 2 * Pow2(5) && Pow2(8) == 2 * Pow2(7);
    assert Pow2(3) == 2 * Pow2(2) && Pow2(5) == 2 * Pow2(4) && Pow2(7) == 2 * Pow2(6);
  }

  lemma LowestBit(b: bv8)
    ensures (b & 1 != 0) == (b as int % 2 == 1)
  {
  }

  lemma ShiftHalves(b: bv8)
    ensures (b >> 1) as int == b as int / 2
  {
  }

  lemma MaskShifts(b: bv8, k: nat)
    requires 1 <= k < 8
    ensures ByteBit(b, k) == ByteBit(b >> 1, k - 1)
  {
  }

  /** The bits of a byte are those of its number. */
  lemma {:induction false} ByteIsNumber(b: bv8, k: nat)
    requires k < 8
    ensures ByteBit(b, k) == Bit(b as int, k)
    decreases k
  {
    if k == 0 {
      LowestBit(b);
      BitOfHalf(b as int, 0);
    } else {
      MaskShifts(b, k);
      ShiftHalves(b);
      hide ByteBit, Bit;
      ByteIsNumber(b >> 1, k - 1);
      BitOfHalf(b as int, k - 1);
    }
  }

  /** Below bit `m` the bits of `q`, from there on those of `p`. */
  lemma {:induction false} BitOfBoth(p: nat, q: nat, m: nat, k: nat)
    requires q < Pow2(m)
    ensures Bit(Pow2(m) * p + q, k) == if k < m then Bit(q, k) else Bit(p, k - m)
    decreases m
  {
    if m == 0 {
    } else {
      var x := Pow2(m) * p + q;
      HalfOfBoth(p, q, m);
      if k == 0 {
        BitOfHalf(x, 0);
        BitOfHalf(q, 0);
      } else {
        BitOfHalf(x, k - 1);
        BitOfHalf(q, k - 1);
        BitOfBoth(p, q / 2, m - 1, k - 1);
      }
    }
  }

  lemma HalfOfBoth(p: nat, q: nat, m: nat)
    requires m > 0 && q < Pow2(m)
    ensures var x := Pow2(m) * p + q; x / 2 == Pow2(m - 1) * p + q / 2 && x % 2 == q % 2 && q / 2 < Pow2(m - 1)
  {
    Doubles(m);
    TwiceTimes(Pow2(m - 1), p);
    hide Pow2;
    ModuloIs(Pow2(m) * p + q, 2, Pow2(m - 1) * p + q / 2, q % 2);
  }

  lemma BitOfByteAndRest(p: nat, b: bv8, k: nat)
    ensures Bit(256 * p + b as int, k) == if k < 8 then ByteBit(b, k) else Bit(p, k - 8)
  {
    LowPowers();
    hide Pow2, Bit, ByteBit;
    BitOfBoth(p, b as int, 8, k);
    if k < 8 { ByteIsNumber(b, k); }
  }

  lemma {:induction false} HighFirstBit(bytes: seq<bv8>, k: nat)
    requires k < 8 * |bytes|
    ensures Bit(HighFirst(bytes), k) == ByteBit(bytes[|bytes| - 1 - k / 8], k % 8)
    decreases |bytes|
  {
    hide Bit, ByteBit;
    var n := |bytes| - 1;
    BitOfByteAndRest(HighFirst(bytes[..n]), bytes[n], k);
    if k < 8 {
    } else {
      HighFirstBit(bytes[..n], k - 8);
    }
  }

  lemma {:induction false} LowFirstBit(bytes: seq<bv8>, k: nat)
    requires k < 8 * |bytes|
    ensures Bit(LowFirst(bytes), k) == ByteBit(bytes[k / 8], k % 8)
    decreases |bytes|
  {
    hide Bit, ByteBit;
    BitOfByteAndRest(LowFirst(bytes[1..]), bytes[0], k);
    if k < 8 {
    } else {
      LowFirstBit(bytes[1..], k - 8);
      assert bytes[1..][(k - 8) / 8] == bytes[k / 8];
    }
  }

  lemma {:induction false} NumbersFit(bytes: seq<bv8>)
    ensures HighFirst(bytes) < Pow2(8 * |bytes|) && LowFirst(bytes) < Pow2(8 * |bytes|)
    decreases |bytes|
  {
    if bytes == [] {
    } else {
      NumbersFit(bytes[..|bytes| - 1]);
      NumbersFit(bytes[1..]);
      LowPowers();
      Pow2Sum(8, 8 * |bytes| - 8);
      hide Pow2;
    }
  }

  // ---- where the bits of an aligned signal stand -------------------------------------------

  lemma MotorolaWalk(k: nat, i: nat)
    ensures Walk(8 * k + 7, Motorola, i) == 8 * (k + i / 8) + (7 - i % 8)
  {
    WalkIsLinear(8 * k + 7, Motorola, i);
    hide Walk;
    RankIs(Walk(8 * k + 7, Motorola, i), k, i);
  }

  lemma RankIs(bit: nat, k: nat, i: nat)
    requires Rank(bit, Motorola) == 8 * k + i
    ensures bit == 8 * (k + i / 8) + (7 - i % 8)
  {
    var j, b := bit / 8, bit % 8;
    assert 8 * j + (7 - b) == 8 * k + i;
    ModuloIs(i, 8, j - k, 7 - b);
  }

  lemma IntelWalk(k: nat, i: nat)
    ensures Walk(8 * k, Intel, i) == 8 * k + i
  {
    WalkIsLinear(8 * k, Intel, i);
  }

  lemma BitInByte(data: seq<bv8>, j: nat, b: nat)
    requires j < |data| && b < 8
    ensures DataBit(data, 8 * j + b) == ByteBit(data[j], b)
  {
    assert (8 * j + b) / 8 == j && (8 * j + b) % 8 == b;
  }

  lemma MotorolaBit(data: seq<bv8>, k: nat, n: nat, i: nat)
    requires k + n <= |data| && i < 8 * n
    ensures Walk(8 * k + 7, Motorola, i) < 8 * |data|
    ensures Carries(data, 8 * k + 7, 8 * n, Motorola, HighFirst(data[k..k + n]), i)
  {
    hide Bit, ByteBit, DataBit, Walk, HighFirst;
    MotorolaWalk(k, i);
    BitInByte(data, k + i / 8, 7 - i % 8);
    HighFirstBit(data[k..k + n], 8 * n - 1 - i);
    assert (8 * n - 1 - i) / 8 == n - 1 - i / 8 && (8 * n - 1 - i) % 8 == 7 - i % 8;
  }

  lemma IntelBit(data: seq<bv8>, k: nat, n: nat, i: nat)
    requires k + n <= |data| && i < 8 * n
    ensures Walk(8 * k, Intel, i) < 8 * |data|
    ensures Carries(data, 8 * k, 8 * n, Intel, LowFirst(data[k..k + n]), i)
  {
    hide Bit, ByteBit, DataBit, Walk, LowFirst;
    IntelWalk(k, i);
    BitInByte(data, k + i / 8, i % 8);
    LowFirstBit(data[k..k + n], i);
  }

  // ---- what the signals are worth ----------------------------------------------------------

  /** A Motorola signal that starts at the top bit of byte `k` and covers `n` bytes is their number, high
      byte first. */
  lemma MotorolaIsHighFirst(data: seq<bv8>, k: nat, n: nat, raw: nat)
    requires n > 0 && k + n <= |data|
    ensures IsRaw(data, 8 * k + 7, 8 * n, Motorola, raw) <==> raw == HighFirst(data[k..k + n])
  {
    hide Bit, DataBit, Walk, HighFirst, Pow2;
    var start, length, number := 8 * k + 7, 8 * n, HighFirst(data[k..k + n]);
    NumbersFit(data[k..k + n]);
    forall i | 0 <= i < length ensures Walk(start, Motorola, i) < 8 * |data| && Carries(data, start, length, Motorola, number, i) {
      MotorolaBit(data, k, n, i);
    }
    if IsRaw(data, start, length, Motorola, raw) {
      forall j | 0 <= j < length ensures Bit(raw, j) == Bit(number, j) {
        var i := length - 1 - j;
        assert Carries(data, start, length, Motorola, raw, i) && Carries(data, start, length, Motorola, number, i);
      }
      SameValue(raw, number, length);
    }
  }

  /** An Intel signal that starts at the lowest bit of byte `k` is their number, low byte first. */
  lemma IntelIsLowFirst(data: seq<bv8>, k: nat, n: nat, raw: nat)
    requires n > 0 && k + n <= |data|
    ensures IsRaw(data, 8 * k, 8 * n, Intel, raw) <==> raw == LowFirst(data[k..k + n])
  {
    hide Bit, DataBit, Walk, LowFirst, Pow2;
    var start, length, number := 8 * k, 8 * n, LowFirst(data[k..k + n]);
    NumbersFit(data[k..k + n]);
    forall i | 0 <= i < length ensures Walk(start, Intel, i) < 8 * |data| && Carries(data, start, length, Intel, number, i) {
      IntelBit(data, k, n, i);
    }
    if IsRaw(data, start, length, Intel, raw) {
      forall j | 0 <= j < length ensures Bit(raw, j) == Bit(number, j) {
        assert Carries(data, start, length, Intel, raw, j) && Carries(data, start, length, Intel, number, j);
      }
      SameValue(raw, number, length);
    }
  }

  /** For two bytes, in figures. */
  lemma TwoBytes(data: seq<bv8>, k: nat, raw: nat)
    requires k + 2 <= |data|
    ensures IsRaw(data, 8 * k + 7, 16, Motorola, raw) <==> raw == 256 * (data[k] as int) + data[k + 1] as int
    ensures IsRaw(data, 8 * k, 16, Intel, raw) <==> raw == data[k] as int + 256 * (data[k + 1] as int)
  {
    MotorolaIsHighFirst(data, k, 2, raw);
    IntelIsLowFirst(data, k, 2, raw);
    hide IsRaw;
    var two := data[k..k + 2];
    assert two[..1] == [data[k]] && two[1..] == [data[k + 1]];
    assert [data[k]][..0] == [] && [data[k + 1]][1..] == [];
    assert HighFirst([data[k]]) == 256 * HighFirst([]) + data[k] as int;
    assert LowFirst([data[k + 1]]) == data[k + 1] as int + 256 * LowFirst([]);
  }
}

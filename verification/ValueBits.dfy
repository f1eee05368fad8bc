/** The bits of a value, and two's complement on any number of them. */
module ValueBits {
  import opened PowersOfTwo

  predicate Bit(value: nat, k: nat) { value / Pow2(k) % 2 == 1 }

  /** Bitwise or with one bit. */
  function OrBit(value: nat, k: nat): nat { if Bit(value, k) then value else value + Pow2(k) }

  lemma HalfOfQuotient(value: nat, p: nat)
    requires p > 0
    ensures value / (2 * p) == value / 2 / p
  {
    var h := value / 2;
    var q, r := h / p, h % p;
    assert h == q * p + r && value == 2 * h + value % 2;
    assert value == q * (2 * p) + (2 * r + value % 2) by {
      assert 2 * (q * p) == q * (2 * p);
    }
    ModuloIs(value, 2 * p, q, 2 * r + value % 2);
  }

  lemma BitOfHalf(value: nat, k: nat)
    ensures Bit(value, k + 1) == Bit(value / 2, k) && Bit(value, 0) == (value % 2 == 1)
  {
    HalfOfQuotient(value, Pow2(k));
    assert Pow2(k + 1) == 2 * Pow2(k) && value / Pow2(0) == value;
  }

  lemma {:induction false} OrBitSets(value: nat, k: nat, j: nat)
    ensures Bit(OrBit(value, k), j) <==> j == k || Bit(value, j)
    decreases k
  {
    OrBitHalves(value, k);
    BitOfHalf(value, if j > 0 then j - 1 else 0);
    BitOfHalf(OrBit(value, k), if j > 0 then j - 1 else 0);
    if k > 0 && j > 0 {
      OrBitSets(value / 2, k - 1, j - 1);
    }
    hide Bit, OrBit;
  }

  lemma OrBitHalves(value: nat, k: nat)
    ensures k > 0 ==> OrBit(value, k) == 2 * OrBit(value / 2, k - 1) + value % 2
    ensures k == 0 ==> OrBit(value, k) == value / 2 * 2 + 1
    ensures OrBit(value, k) / 2 == if k > 0 then OrBit(value / 2, k - 1) else value / 2
    ensures OrBit(value, k) % 2 == if k > 0 then value % 2 else 1
  {
    if k > 0 {
      BitOfHalf(value, k - 1);
    } else {
      BitOfHalf(value, 0);
    }
  }

  lemma {:induction false} OrBitStaysBelow(value: nat, k: nat, n: nat)
    requires k < n && value < Pow2(n)
    ensures OrBit(value, k) < Pow2(n)
    decreases n
  {
    Doubles(n);
    hide OrBit, Pow2;
    OrBitHalves(value, k);
    HalfIsBelow(value, OrBit(value, k), Pow2(n - 1));
    if k == 0 {
    } else {
      OrBitStaysBelow(value / 2, k - 1, n - 1);
    }
  }

  lemma HalfIsBelow(value: nat, more: nat, half: nat)
    ensures value < 2 * half ==> value / 2 < half
    ensures more / 2 < half ==> more < 2 * half
  {
  }

  /** Values of `n` bits with the same bits are the same. */
  lemma {:induction false} SameValue(v: nat, w: nat, n: nat)
    requires v < Pow2(n) && w < Pow2(n)
    requires forall k :: 0 <= k < n ==> Bit(v, k) == Bit(w, k)
    ensures v == w
    decreases n
  {
    if n == 0 {
    } else {
      forall k | 0 <= k < n - 1 ensures Bit(v / 2, k) == Bit(w / 2, k) {
        BitOfHalf(v, k);
        BitOfHalf(w, k);
        assert Bit(v, k + 1) == Bit(w, k + 1);
      }
      assert Bit(v, 0) == Bit(w, 0);
      BitOfHalf(v, 0);
      BitOfHalf(w, 0);
      SameValue(v / 2, w / 2, n - 1);
    }
  }

  lemma {:induction false} BitOfModulo(value: nat, n: nat, k: nat)
    requires k < n
    ensures Bit(value % Pow2(n), k) == Bit(value, k) && value % Pow2(n) < Pow2(n)
    decreases n
  {
    HalveModulo(value, Pow2(n - 1));
    var m := value % Pow2(n);
    assert m / 2 == value / 2 % Pow2(n - 1) && m % 2 == value % 2;
    BitOfHalf(value, if k > 0 then k - 1 else 0);
    BitOfHalf(m, if k > 0 then k - 1 else 0);
    if k == 0 {
    } else {
      BitOfModulo(value / 2, n - 1, k - 1);
    }
  }

  lemma {:induction false} ZeroHasNoBits(k: nat)
    ensures !Bit(0, k)
  {
  }

  // ---- two's complement --------------------------------------------------------------------

  /** Bitwise or. */
  function Or(x: nat, y: nat): nat
    decreases x + y
  {
    if x == 0 then y else if y == 0 then x
    else 2 * Or(x / 2, y / 2) + if x % 2 == 1 || y % 2 == 1 then 1 else 0
  }

  /** A word of `width` bits read as a signed one. */
  function SignedIn(word: nat, width: nat): int
    requires width > 0
  {
    if word >= Pow2(width - 1) then word - Pow2(width) else word
  }

  /** Ones everywhere above `length` bits of a word of `width`. */
  function FillIn(length: nat, width: nat): nat
    requires length < width
  {
    Pow2Grows(length, width);
    Pow2(width) - Pow2(length)
  }

  function SignExtendIn(raw: nat, length: nat, width: nat): int
    requires width > 0
  {
    if length == 0 || length >= width then SignedIn(raw, width)
    else if And(raw, Pow2(length - 1)) == 0 then SignedIn(raw, width)
    else SignedIn(Or(raw, FillIn(length, width)), width)
  }

  function SignExtend(raw: nat, length: nat): int { SignExtendIn(raw, length, 64) }

  lemma {:induction false} AndWithBit(x: nat, k: nat)
    ensures And(x, Pow2(k)) != 0 <==> Bit(x, k)
    decreases k
  {
    if x == 0 {
      ZeroHasNoBits(k);
    } else if k > 0 {
      BitOfHalf(x, k - 1);
      AndWithBit(x / 2, k - 1);
      assert Pow2(k) / 2 == Pow2(k - 1) && Pow2(k) % 2 == 0;
    } else {
      BitOfHalf(x, 0);
      assert And(x / 2, 0) == 0;
    }
  }

  /** Filling everything above `n` bits with ones. */
  lemma {:induction false} OrWithFill(x: nat, n: nat, m: nat)
    requires x < Pow2(n) && n <= m
    ensures Pow2(n) <= Pow2(m) && Or(x, Pow2(m) - Pow2(n)) == x + (Pow2(m) - Pow2(n))
    decreases n
  {
    if n < m { Pow2Grows(n, m); }
    if n == 0 {
    } else {
      OrWithFill(x / 2, n - 1, m - 1);
      var y := Pow2(m) - Pow2(n);
      assert y / 2 == Pow2(m - 1) - Pow2(n - 1) && y % 2 == 0;
    }
  }

  lemma TopBit(raw: nat, n: nat)
    requires 0 < n && raw < Pow2(n)
    ensures Bit(raw, n - 1) <==> raw >= Pow2(n - 1)
  {
    var p := Pow2(n - 1);
    if raw >= p {
      ModuloIs(raw, p, 1, raw - p);
    } else {
      ModuloIs(raw, p, 0, raw);
    }
  }

  lemma PowersBelow(n: nat, width: nat)
    requires 1 <= n < width
    ensures Pow2(n) <= Pow2(width - 1) && Pow2(width) == 2 * Pow2(width - 1) && Pow2(n) == 2 * Pow2(n - 1)
  {
    if n < width - 1 { Pow2Grows(n, width - 1); }
    Doubles(width);
  }

  lemma SignExtendInIs(raw: nat, n: nat, width: nat)
    requires 1 <= n <= width && raw < Pow2(n)
    ensures SignExtendIn(raw, n, width) == if raw >= Pow2(n - 1) then raw - Pow2(n) else raw
  {
    if n == width {
    } else {
      PowersBelow(n, width);
      hide Pow2, And, Or, Bit;
      AndWithBit(raw, n - 1);
      TopBit(raw, n);
      OrWithFill(raw, n, width);
    }
  }

  /** A raw value of `n` bits stands for the signed one that is congruent to it. */
  lemma SignExtendIs(raw: nat, n: nat)
    requires 1 <= n <= 64 && raw < Pow2(n)
    ensures SignExtend(raw, n) == if raw >= Pow2(n - 1) then raw - Pow2(n) else raw
  {
    hide SignExtendIn, Pow2;
    SignExtendInIs(raw, n, 64);
  }

  /** Masking a signed value to `n` bits and extending it again gives it back, and no other value that
      fits would: the two are inverse to each other. */
  lemma SignExtendInvertsMask(value: int, n: nat)
    requires 1 <= n <= 64 && -(Pow2(n - 1) as int) <= value < Pow2(n - 1)
    ensures SignExtend(value % Pow2(n), n) == value
  {
    if value >= 0 {
      ModuloIs(value, Pow2(n), 0, value);
    } else {
      ModuloIs(value, Pow2(n), -1, value + Pow2(n));
    }
    SignExtendIs(value % Pow2(n), n);
  }

  lemma MaskInvertsSignExtend(raw: nat, n: nat)
    requires 1 <= n <= 64 && raw < Pow2(n)
    ensures -(Pow2(n - 1) as int) <= SignExtend(raw, n) < Pow2(n - 1) && SignExtend(raw, n) % Pow2(n) == raw
  {
    SignExtendIs(raw, n);
    Doubles(n);
    hide SignExtend, Pow2;
    if raw >= Pow2(n - 1) {
      ModuloIs(raw - Pow2(n), Pow2(n), -1, raw);
    } else {
      ModuloIs(raw, Pow2(n), 0, raw);
    }
  }
}

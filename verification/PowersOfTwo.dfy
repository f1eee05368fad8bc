/** Powers of two and bitwise conjunction, on unbounded naturals. */
module PowersOfTwo {
  function Pow2(k: nat): (p: nat)
    ensures p > 0
  {
    if k == 0 then 1 else 2 * Pow2(k - 1)
  }

  ghost predicate IsPowerOfTwo(c: nat) { exists k: nat :: c == Pow2(k) }

  /** Bitwise and. */
  function And(x: nat, y: nat): nat
    decreases x
  {
    if x == 0 || y == 0 then 0
    else 2 * And(x / 2, y / 2) + if x % 2 == 1 && y % 2 == 1 then 1 else 0
  }

  lemma MaskIsModulo(x: nat, k: nat)
    ensures And(x, Pow2(k) - 1) == x % Pow2(k)
  {
    MaskIsRest(x, k);
  }

  /** The remainder, under a name that a proof can hide. */
  function Rest(x: nat, m: nat): nat
    requires m > 0
  {
    x % m
  }

  lemma {:induction false} MaskIsRest(x: nat, k: nat)
    ensures And(x, Pow2(k) - 1) == Rest(x, Pow2(k))
    decreases k
  {
    if k == 0 {
      EmptyMask(x);
    } else {
      var half := Pow2(k - 1);
      Doubles(k);
      hide *;
      MaskIsRest(x / 2, k - 1);
      AndOdd(x, half);
      HalveModulo(x, half);
      assert Rest(x, Pow2(k)) == Rest(x, 2 * half) && And(x, Pow2(k) - 1) == And(x, 2 * half - 1);
    }
  }

  lemma EmptyMask(x: nat)
    ensures And(x, 0) == Rest(x, 1) == 0 && Pow2(0) == 1
  {
  }

  lemma AndOdd(x: nat, half: nat)
    requires half > 0
    ensures And(x, 2 * half - 1) == 2 * And(x / 2, half - 1) + x % 2
  {
    assert (2 * half - 1) / 2 == half - 1 && (2 * half - 1) % 2 == 1;
  }

  lemma HalveModulo(x: nat, half: nat)
    requires half > 0
    ensures Rest(x, 2 * half) == 2 * Rest(x / 2, half) + x % 2
  {
    var q, r := x / 2 / half, x / 2 % half;
    assert x == 2 * (q * half + r) + x % 2;
    assert x == q * (2 * half) + (2 * r + x % 2);
    ModuloIs(x, 2 * half, q, 2 * r + x % 2);
  }

  /** The remainder is the one number below the divisor that leaves a multiple. */
  lemma ModuloIs(x: int, m: nat, q: int, r: nat)
    requires x == q * m + r && r < m
    ensures x % m == r && x / m == q
  {
    var d := x / m - q;
    assert x == x / m * m + x % m;
    assert d * m == r - x % m;
    MultipleIsLarge(d, m);
  }

  lemma MultipleIsLarge(d: int, m: nat)
    ensures d >= 1 ==> d * m >= m
    ensures d <= -1 ==> d * m <= 0 - m
  {
  }

  lemma SmallModulo(x: nat, m: nat)
    requires x < m
    ensures x % m == x
  {
  }

  /** The test the program makes at compile time. */
  lemma {:induction false} PowerOfTwoTest(c: nat)
    requires c > 0
    ensures And(c, c - 1) == 0 <==> IsPowerOfTwo(c)
    decreases c
  {
    if c == 1 {
      assert c == Pow2(0);
    } else if c % 2 == 1 {
      assert And(c, c - 1) == 2 * And(c / 2, (c - 1) / 2);
      assert (c - 1) / 2 == c / 2;
      AndSelf(c / 2);
      OddIsNoPower(c);
    } else {
      assert (c - 1) / 2 == c / 2 - 1;
      PowerOfTwoTest(c / 2);
      EvenPower(c);
    }
  }

  lemma {:induction false} AndSelf(x: nat)
    ensures And(x, x) == x
  {
    if x == 0 {
    } else {
      AndSelf(x / 2);
      assert x == 2 * (x / 2) + x % 2;
    }
  }

  lemma OddIsNoPower(c: nat)
    requires c > 1 && c % 2 == 1
    ensures !IsPowerOfTwo(c)
  {
    forall k: nat ensures c != Pow2(k) {
      if k == 0 {
        assert Pow2(0) == 1;
      } else {
        Doubles(k);
        hide Pow2;
        OddIsNotDouble(c, Pow2(k - 1));
      }
    }
  }

  lemma OddIsNotDouble(c: nat, half: nat)
    requires c % 2 == 1
    ensures c != 2 * half
  {
  }

  lemma EvenPower(c: nat)
    requires c > 1 && c % 2 == 0
    ensures IsPowerOfTwo(c) <==> IsPowerOfTwo(c / 2)
  {
    if IsPowerOfTwo(c) {
      var k: nat :| c == Pow2(k);
      assert c / 2 == Pow2(k - 1);
    }
    if IsPowerOfTwo(c / 2) {
      var k: nat :| c / 2 == Pow2(k);
      assert c == Pow2(k + 1);
    }
  }

  lemma {:induction false} Pow2Sum(a: nat, b: nat)
    ensures Pow2(a + b) == Pow2(a) * Pow2(b)
    decreases a
  {
    if a == 0 {
      assert Pow2(0) == 1;
    } else {
      Doubles(a);
      Doubles(a + b);
      hide Pow2;
      Pow2Sum(a - 1, b);
      TwiceTimes(Pow2(a - 1), Pow2(b));
    }
  }

  lemma Doubles(k: nat)
    requires k > 0
    ensures Pow2(k) == 2 * Pow2(k - 1) && Pow2(k - 1) > 0
  {
  }

  lemma TwiceTimes(a: int, b: int)
    ensures (2 * a) * b == 2 * (a * b)
  {
  }

  lemma {:induction false} Pow2Grows(a: nat, b: nat)
    requires a < b
    ensures Pow2(a) < Pow2(b)
    decreases b
  {
    if a == b - 1 {
    } else {
      Pow2Grows(a, b - 1);
    }
  }
}

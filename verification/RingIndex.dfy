/** Ring indices: 64-bit counters that wrap, reduced to a slot by a mask or a modulo. */
module RingIndex {
  import opened PowersOfTwo

  const WORD: nat := 0x1_0000_0000_0000_0000

  /** How a ring reduces an index to a slot: with a mask, or with a modulo. */
  datatype Kind = Masked | Modular

  function Slot(kind: Kind, cap: nat, index: nat): nat
    requires cap > 0
  {
    match kind
    case Masked => And(index, cap - 1)
    case Modular => index % cap
  }

  /** What each ring demands of its capacity. */
  ghost predicate Allowed(kind: Kind, cap: nat) {
    match kind
    case Masked => 2 <= cap < WORD && IsPowerOfTwo(cap)
    case Modular => 0 < cap <= 0xFFFF_FFFF
  }

  /** The slot of the `n`-th element, counted from the first one ever pushed. */
  function Place(kind: Kind, cap: nat, n: nat): nat
    requires cap > 0
  {
    Slot(kind, cap, n % WORD)
  }

  lemma SlotIsModulo(kind: Kind, cap: nat, index: nat)
    requires Allowed(kind, cap)
    ensures Slot(kind, cap, index) == index % cap
  {
    if kind == Masked {
      var k: nat :| cap == Pow2(k);
      MaskIsModulo(index, k);
    }
  }

  predicate Divides(cap: nat)
    requires cap > 0
  {
    WORD % cap == 0
  }

  lemma MaskedDivides(cap: nat)
    requires Allowed(Masked, cap)
    ensures Divides(cap)
  {
    var k: nat :| cap == Pow2(k);
    assert WORD == Pow2(64) by { Word(); }
    if k >= 64 {
      if k > 64 { Pow2Grows(64, k); }
      assert false;
    }
    Pow2Sum(64 - k, k);
    ModuloIs(WORD, cap, Pow2(64 - k), 0);
  }

  lemma Word()
    ensures Pow2(64) == WORD
  {
    assert Pow2(4) == 16;
    hide Pow2;
    Pow2Sum(4, 4);
    Pow2Sum(8, 8);
    Pow2Sum(16, 16);
    Pow2Sum(32, 32);
  }

  /** Elements fewer than a capacity apart have different slots -- always when the capacity divides
      the word, otherwise until the counters wrap. */
  lemma PlacesApart(kind: Kind, cap: nat, n: nat, m: nat)
    requires Allowed(kind, cap) && n < m < n + cap
    requires Divides(cap) || m < WORD
    ensures Place(kind, cap, n) != Place(kind, cap, m)
  {
    PlaceIs(kind, cap, n);
    PlaceIs(kind, cap, m);
    RemaindersApart(n, m, cap);
  }

  lemma RemaindersApart(n: nat, m: nat, cap: nat)
    requires n < m < n + cap
    ensures n % cap != m % cap
  {
    if n % cap == m % cap {
      var a, b := n / cap, m / cap;
      assert n == a * cap + n % cap && m == b * cap + m % cap;
      assert m - n == b * cap - a * cap;
      Distribute(a, b, cap);
      MultipleIsLarge(b - a, cap);
      assert false;
    }
  }

  lemma Distribute(a: int, b: int, c: int)
    ensures b * c - a * c == (b - a) * c
  {
  }

  lemma ModuloOfModulo(n: nat, w: nat, cap: nat)
    requires cap > 0 && w > 0 && w % cap == 0
    ensures n % w % cap == n % cap
  {
    var q, k, r := n / w, w / cap, n % w;
    assert n == q * w + r && w == k * cap;
    assert q * w == q * k * cap by {
      Associate(q, k, cap);
    }
    assert r == r / cap * cap + r % cap;
    assert q * k * cap + r / cap * cap == (q * k + r / cap) * cap;
    ModuloIs(n, cap, q * k + r / cap, r % cap);
  }

  lemma Associate(a: int, b: int, c: int)
    ensures a * (b * c) == a * b * c
  {
  }

  lemma PlaceIs(kind: Kind, cap: nat, n: nat)
    requires Allowed(kind, cap) && (Divides(cap) || n < WORD)
    ensures Place(kind, cap, n) == n % cap < cap
  {
    SlotIsModulo(kind, cap, n % WORD);
    hide Slot;
    if n < WORD {
      SmallModulo(n, WORD);
    } else {
      ModuloOfModulo(n, WORD, cap);
    }
  }

  lemma LastRemainder(w: nat, cap: nat)
    requires cap > 0 && w % cap > 0
    ensures (w - 1) % cap == w % cap - 1
  {
    assert w == w / cap * cap + w % cap;
    ModuloIs(w - 1, cap, w / cap, w % cap - 1);
  }
}

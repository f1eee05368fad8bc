/** The bits that a frame drives while its identifier decides who may go on sending. */
module ArbitrationBits {
  import opened PowersOfTwo

  /** Dominant is 0 and wins. */
  datatype BitValue = Dominant | Recessive

  datatype Contender = Contender(name: string, id: nat, extended: bool, remote: bool)

  const STANDARD_ID_MASK: nat := 0x7FF
  const EXTENDED_ID_MASK: nat := 0x1FFF_FFFF
  const STANDARD_BITS: nat := 13
  const EXTENDED_BITS: nat := 32

  function Mask(c: Contender): nat { if c.extended then EXTENDED_ID_MASK else STANDARD_ID_MASK }

  /** Bits outside the mask of its format. */
  predicate BadId(c: Contender) { And(c.id, Mask(c)) != c.id }

  lemma BadIdIsTooLarge(c: Contender)
    ensures BadId(c) <==> c.id > Mask(c)
  {
    var k := if c.extended then 29 else 11;
    KnownPowers();
    MaskIsModulo(c.id, k);
    if c.id <= Mask(c) { SmallModulo(c.id, Pow2(k)); }
  }

  lemma KnownPowers()
    ensures Pow2(2) == 4 && Pow2(11) == 0x800 && Pow2(18) == 0x4_0000 && Pow2(19) == 0x8_0000 && Pow2(29) == 0x2000_0000
  {
    assert Pow2(2) == 4;
    assert Pow2(9) == 512;
    Pow2Sum(9, 9);
    Pow2Sum(9, 2);
    Pow2Sum(18, 11);
    assert Pow2(19) == 2 * Pow2(18);
  }

  function LevelOf(word: nat, bit: nat): BitValue {
    if word / Pow2(bit) % 2 != 0 then Recessive else Dominant
  }

  /** Bits `hi - 1` down to `lo`. */
  function Bits(word: nat, hi: nat, lo: nat): (bits: seq<BitValue>)
    requires lo <= hi
    ensures |bits| == hi - lo
    decreases hi - lo
  {
    if lo == hi then [] else Bits(word, hi, lo + 1) + [LevelOf(word, lo)]
  }

  function Rtr(c: Contender): BitValue { if c.remote then Recessive else Dominant }

  function Field(c: Contender): (bits: seq<BitValue>)
    ensures |bits| == if c.extended then EXTENDED_BITS else STANDARD_BITS
  {
    if !c.extended then Bits(c.id, 11, 0) + [Rtr(c), Dominant]
    else Bits(c.id, 29, 18) + [Recessive, Recessive] + Bits(c.id, 18, 0) + [Rtr(c)]
  }

  method BitsFrom(word: nat, hi: nat, lo: nat, before: seq<BitValue>) returns (bits: seq<BitValue>)
    requires lo <= hi
    ensures bits == before + Bits(word, hi, lo)
  {
    bits := before;
    var i := hi;
    while i > lo
      invariant lo <= i <= hi
      invariant bits == before + Bits(word, hi, i)
    {
      i := i - 1;
      bits := bits + [LevelOf(word, i)];
    }
  }

  method ArbitrationField(c: Contender) returns (bits: seq<BitValue>)
    ensures bits == Field(c)
  {
    hide Bits;
    if !c.extended {
      bits := BitsFrom(c.id, 11, 0, []);
      bits := bits + [Rtr(c)];
      bits := bits + [Dominant];
      return;
    }
    bits := BitsFrom(c.id, 29, 18, []);
    bits := bits + [Recessive];
    bits := bits + [Recessive];
    bits := BitsFrom(c.id, 18, 0, bits);
    bits := bits + [Rtr(c)];
  }

  // ---- what the bits are worth -------------------------------------------------------------

  function Worth(b: BitValue): nat { if b == Recessive then 1 else 0 }

  /** A bit string read as a number, most significant bit first. */
  function Value(bits: seq<BitValue>): nat {
    if bits == [] then 0 else 2 * Value(bits[..|bits| - 1]) + Worth(bits[|bits| - 1])
  }

  lemma {:induction false} ValueOfBits(word: nat, hi: nat, lo: nat)
    requires lo <= hi
    ensures Value(Bits(word, hi, lo)) == word / Pow2(lo) % Pow2(hi - lo)
    decreases hi - lo
  {
    if lo == hi {
    } else {
      ValueOfBits(word, hi, lo + 1);
      var bits := Bits(word, hi, lo);
      assert bits[..|bits| - 1] == Bits(word, hi, lo + 1);
      ShiftOnce(word, lo, hi - lo - 1);
      hide Pow2, Bits;
    }
  }

  lemma ShiftOnce(word: nat, lo: nat, k: nat)
    ensures word / Pow2(lo) % Pow2(k + 1) == 2 * (word / Pow2(lo + 1) % Pow2(k)) + Worth(LevelOf(word, lo))
  {
    DivideTwice(word, lo);
    HalveModulo(word / Pow2(lo), Pow2(k));
  }

  lemma DivideTwice(word: nat, lo: nat)
    ensures word / Pow2(lo + 1) == word / Pow2(lo) / 2
  {
    var p := Pow2(lo);
    assert Pow2(lo + 1) == 2 * p;
    hide Pow2;
    var x, r := word / p, word % p;
    var y, s := x / 2, x % 2;
    assert word == x * p + r && x == 2 * y + s;
    Spread(y, s, p);
    assert s * p + r < 2 * p by {
      if s == 0 { assert s * p == 0; } else { assert s * p == p; }
    }
    ModuloIs(word, 2 * p, y, s * p + r);
  }

  lemma Spread(y: nat, s: nat, p: nat)
    ensures (2 * y + s) * p == y * (2 * p) + s * p
  {
  }

  lemma {:induction false} ValueOfJoin(a: seq<BitValue>, b: seq<BitValue>)
    ensures Value(a + b) == Value(a) * Pow2(|b|) + Value(b)
    decreases |b|
  {
    if b == [] {
      assert a + b == a;
    } else {
      var c := b[..|b| - 1];
      ValueOfJoin(a, c);
      assert (a + b)[..|a + b| - 1] == a + c;
      assert Value(a) * Pow2(|b|) == 2 * (Value(a) * Pow2(|c|));
    }
  }

  /** The first thirteen bits: eleven of the identifier, then what tells the formats apart. */
  function Head(c: Contender): nat {
    if c.extended then 4 * (c.id / 0x4_0000) + 3 else 4 * c.id + 2 * Worth(Rtr(c))
  }

  function Whole(c: Contender): nat {
    if c.extended then 0x8_0000 * (4 * (c.id / 0x4_0000) + 3) + 2 * (c.id % 0x4_0000) + Worth(Rtr(c)) else Head(c)
  }

  lemma TwoBits(a: BitValue, b: BitValue)
    ensures Value([a, b]) == 2 * Worth(a) + Worth(b) && Value([a]) == Worth(a)
  {
    assert [a, b][..1] == [a] && [b][..0] == [] && [a][..0] == [];
    assert Value([a]) == 2 * Value([a][..0]) + Worth(a);
  }

  lemma ValueOfBase(word: nat, lo: nat)
    requires word / Pow2(lo) < 0x800
    ensures Value(Bits(word, lo + 11, lo)) == word / Pow2(lo)
  {
    KnownPowers();
    hide Pow2, Value, Bits;
    ValueOfBits(word, lo + 11, lo);
    SmallModulo(word / Pow2(lo), Pow2(11));
  }

  /** The two bits after the base identifier: they tell the formats apart. */
  function HeadEnd(c: Contender): (bits: seq<BitValue>)
    ensures |bits| == 2
  {
    if c.extended then [Recessive, Recessive] else [Rtr(c), Dominant]
  }

  function Low(c: Contender): nat { if c.extended then 18 else 0 }

  lemma FieldBegins(c: Contender)
    ensures Field(c)[..STANDARD_BITS] == Bits(c.id, Low(c) + 11, Low(c)) + HeadEnd(c)
  {
  }

  lemma BaseOf(c: Contender)
    requires !BadId(c)
    ensures c.id / Pow2(Low(c)) == (if c.extended then c.id / 0x4_0000 else c.id) < 0x800
  {
    BadIdIsTooLarge(c);
    KnownPowers();
    assert Pow2(0) == 1;
    hide Pow2, BadId;
  }

  lemma ValueOfHead(c: Contender)
    requires !BadId(c)
    ensures Value(Field(c)[..STANDARD_BITS]) == Head(c)
  {
    var bits, end := Bits(c.id, Low(c) + 11, Low(c)), HeadEnd(c);
    KnownPowers();
    TwoBits(end[0], end[1]);
    assert end == [end[0], end[1]];
    hide Value, Bits, Field, BadId, Pow2, Low;
    FieldBegins(c);
    BaseOf(c);
    ValueOfBase(c.id, Low(c));
    ValueOfJoin(bits, end);
  }

  function Tail(c: Contender): (bits: seq<BitValue>)
    ensures |bits| == 19
  {
    Bits(c.id, 18, 0) + [Rtr(c)]
  }

  lemma FieldSplits(c: Contender)
    ensures Field(c) == Field(c)[..STANDARD_BITS] + if c.extended then Tail(c) else []
  {
  }

  lemma ValueOfField(c: Contender)
    requires !BadId(c)
    ensures Value(Field(c)) == Whole(c)
  {
    hide Value, Pow2, Bits, BadId, Field, Tail, Head;
    ValueOfHead(c);
    FieldSplits(c);
    if c.extended {
      ValueOfTail(c);
      KnownPowers();
      ValueOfJoin(Field(c)[..STANDARD_BITS], Tail(c));
      assert Value(Field(c)) == Head(c) * 0x8_0000 + Value(Tail(c));
      HeadOfExtended(c);
    } else {
      assert Field(c) == Field(c)[..STANDARD_BITS];
    }
  }

  lemma HeadOfExtended(c: Contender)
    requires c.extended
    ensures Head(c) == 4 * (c.id / 0x4_0000) + 3
  {
  }

  lemma ValueOfTail(c: Contender)
    ensures Value(Tail(c)) == 2 * (c.id % 0x4_0000) + Worth(Rtr(c))
  {
    KnownPowers();
    ValueOfJoin(Bits(c.id, 18, 0), [Rtr(c)]);
    TwoBits(Rtr(c), Dominant);
    ValueOfBits(c.id, 18, 0);
    assert c.id / Pow2(0) == c.id;
  }

  /** Numeric order decides within one format: the identifier first, then data before remote. */
  lemma OrderWithinFormat(c: Contender, d: Contender)
    requires !BadId(c) && !BadId(d) && c.extended == d.extended
    ensures Value(Field(c)) <= Value(Field(d)) <==> c.id < d.id || (c.id == d.id && (c.remote ==> d.remote))
  {
    ValueOfField(c);
    ValueOfField(d);
    hide Value, Field, BadId;
    if c.extended {
      OrderOfParts(c.id / 0x4_0000, c.id % 0x4_0000, Worth(Rtr(c)), d.id / 0x4_0000, d.id % 0x4_0000, Worth(Rtr(d)));
    }
  }

  lemma OrderOfParts(p: nat, q: nat, w: nat, r: nat, s: nat, v: nat)
    requires q < 0x4_0000 && s < 0x4_0000 && w <= 1 && v <= 1
    ensures 0x8_0000 * (4 * p + 3) + 2 * q + w <= 0x8_0000 * (4 * r + 3) + 2 * s + v <==>
            0x4_0000 * p + q < 0x4_0000 * r + s || (0x4_0000 * p + q == 0x4_0000 * r + s && w <= v)
  {
    if p < r {
    } else if p > r {
    } else {
    }
  }

  /** Fields of equal value are equal, so only identical frames tie. */
  lemma {:induction false} ValueIsInjective(a: seq<BitValue>, b: seq<BitValue>)
    requires |a| == |b| && Value(a) == Value(b)
    ensures a == b
    decreases |a|
  {
    if a == [] {
    } else {
      var m := |a| - 1;
      ValueIsInjective(a[..m], b[..m]);
      assert a == a[..m] + [a[m]] && b == b[..m] + [b[m]];
    }
  }
}

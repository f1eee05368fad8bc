/** What a round of arbitration decides, in terms of identifiers. */
module ArbitrationOutcome {
  import opened ArbitrationBits
  import opened Arbitration

  predicate Sound(contenders: seq<Contender>) { forall i :: 0 <= i < |contenders| ==> !BadId(contenders[i]) }

  // ---- withdrawing -------------------------------------------------------------------------

  lemma {:induction false} LeastThroughout(fields: Fields, k: nat, n: nat, i: nat)
    requires k <= n && LongEnough(fields, n) && Least(fields, n, i)
    ensures Least(fields, k, i)
    decreases n - k
  {
    if k >= n {
    } else {
      LeastBefore(fields, n - 1, i);
      LeastThroughout(fields, k, n - 1, i);
    }
  }

  /** The bit, if any, at which node `i` stops being among the least. */
  lemma {:induction false} FallsOutAt(fields: Fields, n: nat, i: nat) returns (k: nat)
    requires LongEnough(fields, n) && Least(fields, 0, i)
    ensures k <= n && Least(fields, k, i) && (k < n ==> !Least(fields, k + 1, i))
  {
    hide Least;
    if Least(fields, n, i) {
      k := n;
    } else {
      k := FallsOutAt(fields, n - 1, i);
    }
  }

  lemma LostNowhereElse(fields: Fields, trace: seq<RoundStep>, k: nat, m: nat, i: nat)
    requires LongEnough(fields, |trace|) && TraceIs(fields, trace)
    requires k <= |trace| && Least(fields, k, i) && (k < |trace| ==> !Least(fields, k + 1, i))
    requires m < |trace| && m != k
    ensures i !in trace[m].lost
  {
    hide Least, TraceIs, StepIs;
    LostMeans(fields, trace, m, i);
    if m < k {
      LeastThroughout(fields, m + 1, k, i);
    } else if Least(fields, m, i) {
      LeastThroughout(fields, k + 1, m, i);
    }
  }

  /** Every contender either wins or withdraws at exactly one bit, recessive against dominant. */
  lemma EachLoserWithdrawsOnce(fields: Fields, winners: seq<nat>, trace: seq<RoundStep>, i: nat) returns (k: nat)
    requires LongEnough(fields, |trace|) && TraceIs(fields, trace) && AreLeast(fields, |trace|, winners) && i < |fields|
    ensures i in winners ==> forall m :: 0 <= m < |trace| ==> i !in trace[m].lost
    ensures i !in winners ==>
              && k < |trace| && i in trace[k].lost && trace[k].bus == Dominant && Bit(fields, i, k) == Recessive
              && forall m :: 0 <= m < |trace| && m != k ==> i !in trace[m].lost
  {
    AllAreLeast(fields, i);
    hide Least, TraceIs, StepIs, Bit;
    k := FallsOutAt(fields, |trace|, i);
    forall m | 0 <= m < |trace| && m != k ensures i !in trace[m].lost {
      LostNowhereElse(fields, trace, k, m, i);
    }
    if k < |trace| {
      LostMeans(fields, trace, k, i);
      if i in winners {
        LeastThroughout(fields, k + 1, |trace|, i);
      }
    }
  }

  /** Before the first bit nobody has lost. */
  lemma AllAreLeast(fields: Fields, i: nat)
    requires i < |fields|
    ensures Least(fields, 0, i)
  {
    assert forall j :: 0 <= j < |fields| ==> Prefix(fields[j], 0) == [];
  }

  lemma LostMeans(fields: Fields, trace: seq<RoundStep>, k: nat, i: nat)
    requires TraceIs(fields, trace) && k < |trace|
    ensures i in trace[k].lost <==> Least(fields, k, i) && !Least(fields, k + 1, i)
    ensures i in trace[k].lost ==> trace[k].bus == Dominant && Bit(fields, i, k) == Recessive
  {
    assert StepIs(fields, k, trace[k]);
  }

  /** Nothing on the bus was lost: it carried the winner's own bits. */
  lemma BusCarriesTheWinner(fields: Fields, winners: seq<nat>, trace: seq<RoundStep>, w: nat, k: nat)
    requires LongEnough(fields, |trace|) && TraceIs(fields, trace) && AreLeast(fields, |trace|, winners)
    requires w in winners && k < |trace|
    ensures trace[k].bus == fields[w][k]
  {
    LeastThroughout(fields, k + 1, |trace|, w);
    assert StepIs(fields, k, trace[k]);
    assert w < |fields|;
    hide Least;
    assert Bit(fields, w, k) == trace[k].bus;
  }

  // ---- one format --------------------------------------------------------------------------

  /** Data before remote, for the same identifier. */
  predicate Before(c: Contender, d: Contender) { c.id < d.id || (c.id == d.id && (c.remote ==> d.remote)) }

  lemma DrivenAtLimit(contenders: seq<Contender>, i: nat)
    requires Sound(contenders) && i < |contenders|
    ensures Driven(AllFields(contenders), Limit(contenders), i) ==
            if HasStandard(contenders) then Head(contenders[i]) else Value(Field(contenders[i]))
  {
    hide Value, Field, Head, BadId;
    ValueOfHead(contenders[i]);
    if !HasStandard(contenders) {
      assert contenders[i].extended;
      assert Field(contenders[i])[..EXTENDED_BITS] == Field(contenders[i]);
    }
  }

  /** With one frame format on the bus, the numerically least identifier wins. */
  lemma LeastIdWins(contenders: seq<Contender>, i: nat)
    requires Sound(contenders) && i < |contenders|
    requires forall j :: 0 <= j < |contenders| ==> contenders[j].extended == contenders[i].extended
    ensures Wins(contenders, i) <==> forall j :: 0 <= j < |contenders| ==> Before(contenders[i], contenders[j])
  {
    hide Value, Field, BadId, Driven, Head;
    forall j | 0 <= j < |contenders|
      ensures Driven(AllFields(contenders), Limit(contenders), i) <= Driven(AllFields(contenders), Limit(contenders), j)
              <==> Before(contenders[i], contenders[j])
    {
      DrivenAtLimit(contenders, i);
      DrivenAtLimit(contenders, j);
      OrderWithinFormat(contenders[i], contenders[j]);
      if !contenders[i].extended {
        HeadIsAll(contenders[i]);
        HeadIsAll(contenders[j]);
      }
    }
  }

  lemma HeadIsAll(c: Contender)
    requires !BadId(c) && !c.extended
    ensures Head(c) == Value(Field(c))
  {
    ValueOfHead(c);
    assert Field(c)[..STANDARD_BITS] == Field(c);
  }

  // ---- both formats ------------------------------------------------------------------------

  function Base(c: Contender): nat { if c.extended then c.id / 0x4_0000 else c.id }

  lemma HeadsDecide(contenders: seq<Contender>, i: nat)
    requires Sound(contenders) && HasStandard(contenders) && i < |contenders|
    ensures Wins(contenders, i) <==> forall j :: 0 <= j < |contenders| ==> Head(contenders[i]) <= Head(contenders[j])
  {
    hide Value, Field, BadId, Driven, Head;
    forall j | 0 <= j < |contenders|
      ensures Driven(AllFields(contenders), Limit(contenders), i) <= Driven(AllFields(contenders), Limit(contenders), j)
              <==> Head(contenders[i]) <= Head(contenders[j])
    {
      DrivenAtLimit(contenders, i);
      DrivenAtLimit(contenders, j);
    }
  }

  /** No extended frame survives a standard frame whose identifier is at most its base. */
  lemma StandardBeatsExtended(contenders: seq<Contender>, s: nat, e: nat)
    requires Sound(contenders) && s < |contenders| && e < |contenders|
    requires !contenders[s].extended && contenders[e].extended && contenders[s].id <= Base(contenders[e])
    ensures !Wins(contenders, e)
  {
    HeadsDecide(contenders, e);
    assert Head(contenders[s]) < Head(contenders[e]);
  }

  // ---- ties --------------------------------------------------------------------------------

  predicate Differ(c: Contender, d: Contender) { c.id != d.id || c.remote != d.remote }

  /** Two different extended frames share the least base of all, which no standard frame has, while
      some standard frame of a higher identifier cuts the comparison to thirteen bits. */
  predicate CutShort(contenders: seq<Contender>, i: nat, j: nat) {
    && i < |contenders| && j < |contenders| && HasStandard(contenders)
    && contenders[i].extended && contenders[j].extended && Differ(contenders[i], contenders[j])
    && Base(contenders[i]) == Base(contenders[j])
    && forall k :: 0 <= k < |contenders| ==> IsAbove(contenders[k], Base(contenders[i]))
  }

  predicate IsAbove(c: Contender, base: nat) { Base(c) >= base && (!c.extended ==> Base(c) > base) }

  lemma FieldsEqualExactly(c: Contender, d: Contender)
    requires !BadId(c) && !BadId(d) && c.extended == d.extended
    ensures Field(c) == Field(d) <==> !Differ(c, d)
  {
    OrderWithinFormat(c, d);
    OrderWithinFormat(d, c);
    if !Differ(c, d) { ValueIsInjective(Field(c), Field(d)); }
  }

  lemma CutShortPairsWin(contenders: seq<Contender>, i: nat, j: nat)
    requires Sound(contenders) && CutShort(contenders, i, j)
    ensures Wins(contenders, i) && Wins(contenders, j) && Field(contenders[i]) != Field(contenders[j])
  {
    FieldsEqualExactly(contenders[i], contenders[j]);
    HeadsDecide(contenders, i);
    HeadsDecide(contenders, j);
    hide Wins, Sound, Field;
    forall k | 0 <= k < |contenders| ensures Head(contenders[i]) <= Head(contenders[k]) && Head(contenders[j]) <= Head(contenders[k]) {
      assert IsAbove(contenders[k], Base(contenders[i]));
    }
  }

  lemma WinnersDriveTheSame(contenders: seq<Contender>, i: nat, j: nat)
    requires Sound(contenders) && Wins(contenders, i) && Wins(contenders, j)
    ensures Field(contenders[i]) == Field(contenders[j]) || CutShort(contenders, i, j)
  {
    WinnersTie(contenders, i, j);
    hide Driven, Value, Field, Least, Head, Base, BadId;
    if HasStandard(contenders) {
      HeadsDecide(contenders, i);
      hide Wins;
      SameHead(contenders[i], contenders[j]);
      FieldsEqualExactly(contenders[i], contenders[j]);
      if Differ(contenders[i], contenders[j]) {
        forall k | 0 <= k < |contenders| ensures IsAbove(contenders[k], Base(contenders[i])) {
          HeadAbove(contenders[i], contenders[k]);
        }
      }
    } else {
      ValueIsInjective(Field(contenders[i]), Field(contenders[j]));
    }
  }

  lemma WinnersTie(contenders: seq<Contender>, i: nat, j: nat)
    requires Sound(contenders) && Wins(contenders, i) && Wins(contenders, j)
    ensures i < |contenders| && j < |contenders|
    ensures if HasStandard(contenders) then Head(contenders[i]) == Head(contenders[j])
            else contenders[i].extended && contenders[j].extended && Value(Field(contenders[i])) == Value(Field(contenders[j]))
  {
    hide Driven, Value, Field, Head, BadId;
    DrivenAtLimit(contenders, i);
    DrivenAtLimit(contenders, j);
    assert Driven(AllFields(contenders), Limit(contenders), i) == Driven(AllFields(contenders), Limit(contenders), j);
  }

  lemma SameHead(c: Contender, d: Contender)
    requires Head(c) == Head(d)
    ensures c.extended == d.extended && Base(c) == Base(d) && (Differ(c, d) ==> c.extended)
  {
  }

  lemma HeadAbove(c: Contender, d: Contender)
    requires c.extended && Head(c) <= Head(d)
    ensures IsAbove(d, Base(c))
  {
  }

  /** All winners drive one and the same field -- as the program's comment claims -- exactly when the
      comparison was not cut short. */
  lemma TiesAreIdenticalExactly(contenders: seq<Contender>)
    requires Sound(contenders)
    ensures (forall i: nat, j: nat :: Wins(contenders, i) && Wins(contenders, j) ==> Field(contenders[i]) == Field(contenders[j]))
            <==> !exists i: nat, j: nat :: CutShort(contenders, i, j)
  {
    hide Wins, CutShort, Field, Sound;
    forall i: nat, j: nat | Wins(contenders, i) && Wins(contenders, j) ensures i < |contenders| && j < |contenders| {
      WinsIsIndex(contenders, i);
      WinsIsIndex(contenders, j);
    }
    forall i: nat, j: nat | Wins(contenders, i) && Wins(contenders, j)
      ensures Field(contenders[i]) == Field(contenders[j]) || CutShort(contenders, i, j)
    {
      WinnersDriveTheSame(contenders, i, j);
    }
    forall i: nat, j: nat | CutShort(contenders, i, j)
      ensures Wins(contenders, i) && Wins(contenders, j) && Field(contenders[i]) != Field(contenders[j])
    {
      CutShortPairsWin(contenders, i, j);
    }
  }

  lemma WinsIsIndex(contenders: seq<Contender>, i: nat)
    requires Wins(contenders, i)
    ensures i < |contenders|
  {
  }

  /** It does get cut short: whenever two different extended frames of one base meet a standard frame
      of a higher identifier, as 0x400_0000 and 0x400_0001 meet 0x700. */
  lemma TwoWinnersThatDiffer(standard: nat, first: nat, second: nat)
    requires first / 0x4_0000 == second / 0x4_0000 < standard <= 0x7FF && first != second
    ensures var contenders := [Contender("A", standard, false, false), Contender("B", first, true, false),
                               Contender("C", second, true, false)];
            && Sound(contenders) && Wins(contenders, 1) && Wins(contenders, 2)
            && Field(contenders[1]) != Field(contenders[2])
  {
    var contenders := [Contender("A", standard, false, false), Contender("B", first, true, false),
                       Contender("C", second, true, false)];
    BadIdIsTooLarge(contenders[0]);
    BadIdIsTooLarge(contenders[1]);
    BadIdIsTooLarge(contenders[2]);
    hide BadId;
    assert !contenders[0].extended;
    assert CutShort(contenders, 1, 2);
    CutShortPairsWin(contenders, 1, 2);
  }
}

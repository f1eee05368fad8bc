/** Which method endpoint a client uses, read off the option bytes of an offer as they arrive. */
module OfferedEndpoint {
  import opened Wrappers
  import opened Bytes
  import opened Sd
  import opened SdRoundTrip
  import Registry

  const ENDPOINT_TYPE: u8 := 0x04
  const MULTICAST_TYPE: u8 := 0x14

  function FirstIndex(d: seq<u8>): nat
    requires |d| == ENTRY_SIZE
  {
    d[1] as int
  }

  function Count(d: seq<u8>): nat
    requires |d| == ENTRY_SIZE
  {
    d[3] as int / 0x10
  }

  predicate InRange(first: nat, count: nat, size: nat) { count == 0 || first + count <= size }

  function Part<T>(s: seq<T>, first: nat, count: nat): seq<T>
    requires InRange(first, count, |s|)
  {
    if count == 0 then [] else s[first..first + count]
  }

  /** The last option that is not a multicast group. */
  function LastNoGroup(raws: seq<RawOption>): Option<RawOption> {
    if raws == [] then None
    else if raws[|raws| - 1].kind != MULTICAST_TYPE then Some(raws[|raws| - 1])
    else LastNoGroup(raws[..|raws| - 1])
  }

  lemma {:induction false} LastNoGroupIs(raws: seq<RawOption>, i: nat)
    requires i < |raws| && raws[i].kind != MULTICAST_TYPE
    requires forall j :: i < j < |raws| ==> raws[j].kind == MULTICAST_TYPE
    ensures LastNoGroup(raws) == Some(raws[i])
    decreases |raws|
  {
    if i == |raws| - 1 {
    } else {
      LastNoGroupIs(raws[..|raws| - 1], i);
    }
  }

  lemma {:induction false} PickIsTheLastNoGroup(raws: seq<RawOption>)
    requires AllWellFormed(raws)
    ensures LastNoGroup(raws).Some? ==> WellFormed(LastNoGroup(raws).value) && LastNoGroup(raws).value.kind != MULTICAST_TYPE
    ensures Registry.Pick(Meanings(raws), Ipv4Endpoint)
         == if LastNoGroup(raws).None? then None else Some(Meaning(LastNoGroup(raws).value))
    decreases |raws|
  {
    if raws == [] {
    } else {
      var m := |raws| - 1;
      assert Meanings(raws)[..m] == Meanings(raws[..m]);
      PickIsTheLastNoGroup(raws[..m]);
    }
  }

  lemma MeaningsOfPart(raws: seq<RawOption>, first: nat, count: nat)
    requires AllWellFormed(raws) && InRange(first, count, |raws|)
    ensures AllWellFormed(Part(raws, first, count))
    ensures Part(Meanings(raws), first, count) == Meanings(Part(raws, first, count))
  {
    hide Meaning, WellFormed;
    if count != 0 {
      var part := raws[first..first + count];
      assert forall i :: 0 <= i < count ==> part[i] == raws[first + i];
      assert AllWellFormed(part);
      var a, b := Meanings(raws)[first..first + count], Meanings(part);
      assert |a| == |b|;
      forall i | 0 <= i < |a| ensures a[i] == b[i] {
        assert part[i] == raws[first + i];
      }
    }
  }

  lemma OptionsOfEntry(d: seq<u8>, options: seq<SdOption>, e: Entry)
    requires |d| == ENTRY_SIZE && ParseEntry(d, options) == Some(e)
    ensures InRange(FirstIndex(d), Count(d), |options|)
    ensures e.options == Part(options, FirstIndex(d), Count(d))
  {
    hide U16At, U24At, U32At;
  }

  predicate Usable(endpoint: Option<SdOption>) { endpoint.Some? && endpoint.value.address.Some? }

  /** What the registry keeps, by the last option that is not a multicast group. */
  predicate KeptFor(last: Option<RawOption>, endpoint: Option<SdOption>) {
    match last
    case None => endpoint == None
    case Some(r) =>
      && WellFormed(r) && endpoint == Some(Meaning(r))
      && (r.kind != ENDPOINT_TYPE ==> endpoint == Some(PLACEHOLDER))
  }

  lemma KeptForOptions(e: Entry, mine: seq<RawOption>, now: int)
    requires AllWellFormed(mine) && e.options == Meanings(mine)
    ensures var last, endpoint := LastNoGroup(mine), Registry.RecordOf(e, now).endpoint;
            KeptFor(last, endpoint) && (Usable(endpoint) <==> last.Some? && last.value.kind == ENDPOINT_TYPE)
  {
    PickIsTheLastNoGroup(mine);
    hide Meanings, LastNoGroup, Registry.Pick, U32At, U16At;
  }

  /** A received offer names a usable method endpoint if and only if the last option it refers to that
      is not a multicast group is an IPv4 endpoint; that one is then the endpoint. If that last option
      is one this stack does not know, its placeholder is taken for the endpoint instead. */
  lemma UsableExactly(d: seq<u8>, raws: seq<RawOption>, e: Entry, now: int)
    requires |d| == ENTRY_SIZE && AllWellFormed(raws)
    requires ParseOptions(RawArray(raws)).Some?
    requires ParseEntry(d, ParseOptions(RawArray(raws)).value) == Some(e)
    ensures InRange(FirstIndex(d), Count(d), |raws|)
    ensures var last := LastNoGroup(Part(raws, FirstIndex(d), Count(d)));
            var endpoint := Registry.RecordOf(e, now).endpoint;
            KeptFor(last, endpoint) && (Usable(endpoint) <==> last.Some? && last.value.kind == ENDPOINT_TYPE)
  {
    hide *;
    UnknownOptionsKeepTheirPlace(raws);
    OptionsOfEntry(d, Meanings(raws), e);
    MeaningsAreAsMany(raws);
    MeaningsOfPart(raws, FirstIndex(d), Count(d));
    KeptForOptions(e, Part(raws, FirstIndex(d), Count(d)), now);
  }

  lemma MeaningsAreAsMany(raws: seq<RawOption>)
    requires AllWellFormed(raws)
    ensures |Meanings(raws)| == |raws|
  {
  }
}

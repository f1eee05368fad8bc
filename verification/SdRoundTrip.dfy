/** What the Service Discovery codec promises: decoding inverts encoding, and an option this stack
    does not know never moves the options behind it. */
module SdRoundTrip {
  import opened Wrappers
  import opened Bytes
  import opened Sd
  import SomeIp

  // ---- the options array -------------------------------------------------------------------

  /** An option as another stack may have written it: any type, any body. */
  datatype RawOption = RawOption(kind: u8, body: seq<u8>)

  predicate WellFormed(r: RawOption) {
    && 1 <= |r.body| <= 0xFFFF
    && (Ipv4Type(r.kind) ==> |r.body| == IPV4_OPTION_LENGTH)
  }

  function RawBytes(r: RawOption): (s: seq<u8>)
    requires WellFormed(r)
    ensures |s| == |r.body| + 3
  {
    PutU16(|r.body|) + [r.kind] + r.body
  }

  /** What it says to this stack; one option in the list, known or not. */
  function Meaning(r: RawOption): SdOption
    requires WellFormed(r)
  {
    if Ipv4Type(r.kind) then
      SdOption(if r.kind == 0x04 then Ipv4Endpoint else Ipv4Multicast,
               Some(U32At(r.body, 1)), r.body[6], U16At(r.body, 7))
    else PLACEHOLDER
  }

  predicate AllWellFormed(raws: seq<RawOption>) {
    forall i :: 0 <= i < |raws| ==> WellFormed(raws[i])
  }

  function RawArray(raws: seq<RawOption>): seq<u8>
    requires AllWellFormed(raws)
  {
    if raws == [] then [] else RawBytes(raws[0]) + RawArray(raws[1..])
  }

  function Meanings(raws: seq<RawOption>): (os: seq<SdOption>)
    requires AllWellFormed(raws)
    ensures |os| == |raws|
    ensures forall i :: 0 <= i < |raws| ==> os[i] == Meaning(raws[i])
  {
    if raws == [] then [] else [Meaning(raws[0])] + Meanings(raws[1..])
  }

  lemma FrontOfRaw(r: RawOption, rest: seq<u8>)
    requires WellFormed(r)
    ensures FrontOption(RawBytes(r) + rest) == Some((Meaning(r), |RawBytes(r)|))
  {
    var d := RawBytes(r) + rest;
    assert d[0..2] == PutU16(|r.body|);
    U16Inverse(d, 0, |r.body|);
    assert d[2] == r.kind;
    assert forall i :: 0 <= i < |r.body| ==> d[3 + i] == r.body[i];
  }

  /** Position `i` of the decoded list is the meaning of option `i`, whatever stands before it. */
  lemma {:induction false} UnknownOptionsKeepTheirPlace(raws: seq<RawOption>)
    requires AllWellFormed(raws)
    ensures ParseOptions(RawArray(raws)) == Some(Meanings(raws))
  {
    if raws == [] {
    } else {
      var first, d := RawBytes(raws[0]), RawArray(raws);
      FrontOfRaw(raws[0], RawArray(raws[1..]));
      assert d[|first|..] == RawArray(raws[1..]);
      UnknownOptionsKeepTheirPlace(raws[1..]);
    }
  }

  /** The front option of an accepted array, as the bytes it was made of. */
  function FrontRaw(d: seq<u8>): (r: RawOption)
    requires FrontOption(d).Some?
  {
    RawOption(d[2], d[3..FrontOption(d).value.1])
  }

  lemma FrontRawIsFront(d: seq<u8>)
    requires FrontOption(d).Some?
    ensures WellFormed(FrontRaw(d)) && RawBytes(FrontRaw(d)) == d[..FrontOption(d).value.1]
  {
    var used := FrontOption(d).value.1;
    U16Inverse(d, 0, used - 3);
    assert d[..used] == d[0..2] + [d[2]] + d[3..used];
  }

  /** Exactly the concatenations of well-formed options are accepted. */
  lemma {:induction false} AcceptedArrays(d: seq<u8>) returns (raws: seq<RawOption>)
    ensures ParseOptions(d).Some? ==> AllWellFormed(raws) && RawArray(raws) == d && ParseOptions(d) == Some(Meanings(raws))
    ensures ParseOptions(d).None? ==> forall other | AllWellFormed(other) :: RawArray(other) != d
    decreases |d|
  {
    raws := [];
    if ParseOptions(d).None? {
      forall other | AllWellFormed(other) ensures RawArray(other) != d {
        UnknownOptionsKeepTheirPlace(other);
      }
    } else if d != [] {
      var used := FrontOption(d).value.1;
      var rest := AcceptedArrays(d[used..]);
      FrontRawIsFront(d);
      raws := [FrontRaw(d)] + rest;
      assert raws[1..] == rest;
      assert d == d[..used] + d[used..];
      UnknownOptionsKeepTheirPlace(raws);
    }
  }

  // ---- encoding, then decoding -------------------------------------------------------------

  function RawOf(o: SdOption): (r: RawOption)
    requires o.address.Some?
    ensures WellFormed(r) && RawBytes(r) == OptionBytes(o) && Meaning(r) == o
  {
    var r := RawOption(OptionTypeByte(o.kind), OptionBody(o));
    assert r.body[1..5] == PutU32(o.address.value) && r.body[7..9] == PutU16(o.port);
    U32Inverse(r.body, 1, o.address.value);
    U16Inverse(r.body, 7, o.port);
    r
  }

  function RawsOf(os: seq<SdOption>): (raws: seq<RawOption>)
    requires AllAddressed(os)
    ensures AllWellFormed(raws) && Meanings(raws) == os
  {
    if os == [] then [] else [RawOf(os[0])] + RawsOf(os[1..])
  }

  lemma RawArrayAppend(raws: seq<RawOption>, r: RawOption)
    requires AllWellFormed(raws) && WellFormed(r)
    ensures RawArray(raws + [r]) == RawArray(raws) + RawBytes(r)
  {
    if raws == [] {
      assert (raws + [r])[1..] == [];
    } else {
      assert (raws + [r])[1..] == raws[1..] + [r];
      RawArrayAppend(raws[1..], r);
    }
  }

  lemma {:induction false} RawsOfAppend(os: seq<SdOption>, o: SdOption)
    requires AllAddressed(os) && o.address.Some?
    ensures RawsOf(os + [o]) == RawsOf(os) + [RawOf(o)]
  {
    if os != [] {
      assert (os + [o])[1..] == os[1..] + [o];
      RawsOfAppend(os[1..], o);
    } else {
      assert (os + [o])[1..] == [];
    }
  }

  lemma {:induction false} OptionsBytesAreRaws(os: seq<SdOption>)
    requires AllAddressed(os)
    ensures OptionsBytes(os) == RawArray(RawsOf(os))
  {
    if os == [] {
    } else {
      hide OptionBytes, RawBytes, WellFormed, Meaning, RawOf, RawsOf, RawArray;
      var before, o := os[..|os| - 1], os[|os| - 1];
      assert before + [o] == os;
      OptionsBytesAreRaws(before);
      RawsOfAppend(before, o);
      RawArrayAppend(RawsOf(before), RawOf(o));
    }
  }

  lemma OptionsRoundTrip(os: seq<SdOption>)
    requires AllAddressed(os)
    ensures ParseOptions(OptionsBytes(os)) == Some(os)
  {
    OptionsBytesAreRaws(os);
    UnknownOptionsKeepTheirPlace(RawsOf(os));
  }

  /** The entry a receiver rebuilds: the TTL cut to 24 bits, the field that the entry's kind does
      not put on the wire at its default. */
  function Canonical(e: Entry): Entry {
    e.(ttl := e.ttl % 0x100_0000,
       minorVersion := if IsServiceEntry(e.kind) then e.minorVersion else 0,
       eventgroupId := if IsServiceEntry(e.kind) then 0 else e.eventgroupId)
  }

  function CanonicalAll(entries: seq<Entry>): (r: seq<Entry>)
    ensures |r| == |entries|
    ensures forall i :: 0 <= i < |r| ==> r[i] == Canonical(entries[i])
  {
    seq(|entries|, i requires 0 <= i < |entries| => Canonical(entries[i]))
  }

  lemma EntrySlices(e: Entry, index: nat, count: nat)
    ensures var d := EntryBytes(e, index, count);
            && d[0] == EntryTypeByte(e.kind) && d[1] == index % 0x100 && d[3] == count % 0x10 * 0x10
            && d[4..6] == PutU16(e.serviceId) && d[6..8] == PutU16(e.instanceId) && d[8] == e.majorVersion
            && d[9..12] == PutU24(e.ttl % 0x100_0000)
            && (IsServiceEntry(e.kind) ==> d[12..16] == PutU32(e.minorVersion))
            && (!IsServiceEntry(e.kind) ==> d[14..16] == PutU16(e.eventgroupId))
  {
  }

  lemma EntryRoundTrip(e: Entry, before: seq<SdOption>, after: seq<SdOption>)
    requires |e.options| <= MAX_OPTIONS_PER_ENTRY && |before| + |e.options| <= MAX_OPTIONS
    ensures ParseEntry(EntryBytes(e, |before|, |e.options|), before + e.options + after) == Some(Canonical(e))
  {
    hide EntryBytes, PutU16, PutU24, PutU32, U16At, U24At, U32At, ParseEntry, Canonical;
    EntrySlices(e, |before|, |e.options|);
    ParseSlices(e, EntryBytes(e, |before|, |e.options|), |before|, before + e.options + after);
  }

  /** Any sixteen bytes with the entry's fields in their places parse to it. */
  lemma ParseSlices(e: Entry, d: seq<u8>, index: nat, options: seq<SdOption>)
    requires |d| == ENTRY_SIZE && |e.options| <= MAX_OPTIONS_PER_ENTRY && index + |e.options| <= |options| && index <= MAX_OPTIONS
    requires options[index..index + |e.options|] == e.options
    requires d[0] == EntryTypeByte(e.kind) && d[1] == index % 0x100 && d[3] == |e.options| % 0x10 * 0x10
    requires d[4..6] == PutU16(e.serviceId) && d[6..8] == PutU16(e.instanceId) && d[8] == e.majorVersion
    requires d[9..12] == PutU24(e.ttl % 0x100_0000)
    requires IsServiceEntry(e.kind) ==> d[12..16] == PutU32(e.minorVersion)
    requires !IsServiceEntry(e.kind) ==> d[14..16] == PutU16(e.eventgroupId)
    ensures ParseEntry(d, options) == Some(Canonical(e))
  {
    hide PutU16, PutU24, PutU32, U16At, U24At, U32At;
    U16Inverse(d, 4, e.serviceId);
    U16Inverse(d, 6, e.instanceId);
    U24Inverse(d, 9, e.ttl % 0x100_0000);
    if IsServiceEntry(e.kind) {
      U32Inverse(d, 12, e.minorVersion);
    } else {
      U16Inverse(d, 14, e.eventgroupId);
    }
  }

  lemma {:induction false} ParseEntriesAppend(a: seq<u8>, b: seq<u8>, options: seq<SdOption>)
    requires |a| % ENTRY_SIZE == 0 && |b| == ENTRY_SIZE
    ensures ParseEntries(a + b, options) == ParseEntries(a, options) + Kept(ParseEntry(b, options))
    decreases |a|
  {
    hide ParseEntry;
    if a == [] {
      assert a + b == b && b[..ENTRY_SIZE] == b && b[ENTRY_SIZE..] == [];
      assert ParseEntries(b, options) == Kept(ParseEntry(b, options)) + ParseEntries([], options);
    } else {
      assert (a + b)[..ENTRY_SIZE] == a[..ENTRY_SIZE];
      assert (a + b)[ENTRY_SIZE..] == a[ENTRY_SIZE..] + b;
      ParseEntriesAppend(a[ENTRY_SIZE..], b, options);
    }
  }

  lemma {:induction false} EntriesRoundTrip(entries: seq<Entry>, after: seq<SdOption>)
    requires Indexable(entries)
    ensures ParseEntries(EntriesBytes(entries), FlatOptions(entries) + after) == CanonicalAll(entries)
    decreases |entries|
  {
    hide ParseEntry, EntryBytes, Canonical, Indexable;
    if entries == [] {
    } else {
      var n := |entries| - 1;
      var before, e := entries[..n], entries[n];
      IndexablePrefix(entries, n);
      IndexableStep(entries, n);
      assert entries[..n + 1] == entries;
      var flat := FlatOptions(before);
      OptionsJoin(before, e, entries, after);
      CanonicalJoin(before, e, entries);
      hide FlatOptions, CanonicalAll;
      EntriesRoundTrip(before, e.options + after);
      var b := EntryBytes(e, |flat|, |e.options|);
      ParseEntriesAppend(EntriesBytes(before), b, FlatOptions(entries) + after);
      EntryRoundTrip(e, flat, after);
    }
  }

  lemma OptionsJoin(before: seq<Entry>, e: Entry, all: seq<Entry>, after: seq<SdOption>)
    requires all != [] && all[..|all| - 1] == before && all[|all| - 1] == e
    ensures FlatOptions(all) + after == FlatOptions(before) + e.options + after == FlatOptions(before) + (e.options + after)
  {
  }

  lemma CanonicalJoin(before: seq<Entry>, e: Entry, all: seq<Entry>)
    requires all != [] && all[..|all| - 1] == before && all[|all| - 1] == e
    ensures CanonicalAll(all) == CanonicalAll(before) + [Canonical(e)]
  {
    hide Canonical;
  }

  lemma Slices(flags: u8, es: seq<u8>, os: seq<u8>)
    requires |Assemble(flags, es, os)| <= SomeIp.MAX_PAYLOAD
    ensures var d := Assemble(flags, es, os);
            && |d| == 12 + |es| + |os|
            && d[0] == flags && d[4..8] == PutU32(|es|) && d[8..8 + |es|] == es
            && d[8 + |es|..12 + |es|] == PutU32(|os|) && d[12 + |es|..] == os
  {
    hide PutU32;
    assert |es| % 0x1_0000_0000 == |es| && |os| % 0x1_0000_0000 == |os|;
  }

  lemma FlagsRoundTrip(m: SdMessage)
    ensures (Flags(m) >= 0x80 <==> m.reboot) && (Flags(m) % 0x80 >= 0x40 <==> m.unicast)
  {
  }

  /** Any payload cut like `Payload` parses to what its two arrays parse to. */
  lemma ParseCut(d: seq<u8>, es: seq<u8>, os: seq<u8>, options: seq<SdOption>)
    requires |d| == 12 + |es| + |os| && |es| % ENTRY_SIZE == 0 && |d| <= 0xFFFF_FFFF
    requires d[4..8] == PutU32(|es|) && d[8..8 + |es|] == es
    requires d[8 + |es|..12 + |es|] == PutU32(|os|) && d[12 + |es|..] == os
    requires ParseOptions(os) == Some(options)
    ensures ParsePayload(d) == Some(SdMessage(d[0] >= 0x80, d[0] % 0x80 >= 0x40, ParseEntries(es, options)))
  {
    hide ParseEntries, ParseOptions, PutU32, U32At;
    U32Inverse(d, 4, |es|);
    U32Inverse(d, 8 + |es|, |os|);
  }

  lemma PayloadRoundTrip(m: SdMessage)
    requires Indexable(m.entries) && |Payload(m)| <= SomeIp.MAX_PAYLOAD
    ensures ParsePayload(Payload(m)) == Some(m.(entries := CanonicalAll(m.entries)))
  {
    var flat := FlatOptions(m.entries);
    hide Assemble, Flags, EntriesBytes, OptionsBytes, ParseEntries, ParseOptions, PutU32, CanonicalAll, ParsePayload;
    Slices(Flags(m), EntriesBytes(m.entries), OptionsBytes(flat));
    OptionsRoundTrip(flat);
    EntriesRoundTrip(m.entries, []);
    assert flat + [] == flat;
    FlagsRoundTrip(m);
    ParseCut(Payload(m), EntriesBytes(m.entries), OptionsBytes(flat), flat);
  }

  /** The whole trip, for every message that can be sent at all: SOME/IP and SD decoding give back
      the canonical form, so exactly the canonical messages come back unchanged. */
  lemma MessageRoundTrip(m: SdMessage, sessionId: u16)
    requires Serialize(m, sessionId).Some?
    ensures var d := SomeIp.Deserialize(Serialize(m, sessionId).value);
            && d.Some? && IsSd(d.value.header) && d.value.header.sessionId == sessionId
            && ParsePayload(d.value.payload) == Some(m.(entries := CanonicalAll(m.entries)))
            && (ParsePayload(d.value.payload) == Some(m) <==> CanonicalAll(m.entries) == m.entries)
  {
    hide Payload, Canonical, SomeIp.Deserialize, ParsePayload;
    SomeIp.RoundTrip(SdHeader(sessionId), Payload(m));
    PayloadRoundTrip(m);
  }

  /** A message is refused exactly when it cannot be indexed or does not fit a datagram's length field. */
  lemma SerializeRefuses(m: SdMessage, sessionId: u16)
    ensures Serialize(m, sessionId).Some? <==>
              Indexable(m.entries)
              && MIN_PAYLOAD + ENTRY_SIZE * |m.entries| + OPTION_SIZE * |FlatOptions(m.entries)| <= SomeIp.MAX_PAYLOAD
  {
  }
}

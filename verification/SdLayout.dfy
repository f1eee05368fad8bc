/** Service Discovery by its bytes: where every field of a message stands, in plain arithmetic. */
module SdLayout {
  import opened Wrappers
  import opened Bytes
  import opened Sd
  import SomeIp

  /** The twelve bytes from `at` on are those of `o`. */
  predicate OptionOnWire(d: seq<u8>, at: nat, o: SdOption) {
    && at + 12 <= |d|
    && d[at] == 0 && d[at + 1] == 9
    && d[at + 2] == (match o.kind case Ipv4Endpoint => 0x04 case Ipv4Multicast => 0x14)
    && d[at + 3] == 0
    && o.address.Some? && d[at + 4] as int * 0x100_0000 + d[at + 5] as int * 0x1_0000 + d[at + 6] as int * 0x100 + d[at + 7] == o.address.value
    && d[at + 8] == 0 && d[at + 9] == o.protocol
    && d[at + 10] as int * 0x100 + d[at + 11] == o.port
  }

  /** The sixteen bytes from `at` on are those of `e`, whose options begin at number `index`. */
  predicate EntryOnWire(d: seq<u8>, at: nat, e: Entry, index: nat) {
    && at + 16 <= |d|
    && d[at] == (match e.kind case FindService => 0x00 case OfferService => 0x01
                              case SubscribeEventgroup => 0x06 case SubscribeEventgroupAck => 0x07)
    && d[at + 1] as int == index && d[at + 2] == 0 && d[at + 3] as int == |e.options| * 16
    && d[at + 4] as int * 0x100 + d[at + 5] == e.serviceId
    && d[at + 6] as int * 0x100 + d[at + 7] == e.instanceId
    && d[at + 8] == e.majorVersion
    && d[at + 9] as int * 0x1_0000 + d[at + 10] as int * 0x100 + d[at + 11] == e.ttl % 0x100_0000
    && if e.kind == FindService || e.kind == OfferService then
         d[at + 12] as int * 0x100_0000 + d[at + 13] as int * 0x1_0000 + d[at + 14] as int * 0x100 + d[at + 15] == e.minorVersion
       else
         d[at + 12] == 0 && d[at + 13] == 0 && d[at + 14] as int * 0x100 + d[at + 15] == e.eventgroupId
  }

  /** How many options the first `n` entries own. */
  function OptionsBefore(entries: seq<Entry>, n: nat): nat
    requires n <= |entries|
  {
    if n == 0 then 0 else OptionsBefore(entries, n - 1) + |entries[n - 1].options|
  }

  predicate EntriesOnWire(d: seq<u8>, at: nat, entries: seq<Entry>) {
    forall i :: 0 <= i < |entries| ==> EntryOnWire(d, at + 16 * i, entries[i], OptionsBefore(entries, i))
  }

  predicate OptionsOfEntryOnWire(d: seq<u8>, at: nat, options: seq<SdOption>) {
    forall j :: 0 <= j < |options| ==> OptionOnWire(d, at + 12 * j, options[j])
  }

  predicate OptionsOnWire(d: seq<u8>, at: nat, entries: seq<Entry>) {
    forall i :: 0 <= i < |entries| ==> OptionsOfEntryOnWire(d, at + 12 * OptionsBefore(entries, i), entries[i].options)
  }

  predicate NumberAt(d: seq<u8>, at: nat, v: nat) {
    && at + 4 <= |d|
    && d[at] as int * 0x100_0000 + d[at + 1] as int * 0x1_0000 + d[at + 2] as int * 0x100 + d[at + 3] == v
  }

  /** Flags and three reserved bytes, then the two arrays, each behind its length in bytes. */
  predicate PayloadOnWire(d: seq<u8>, m: SdMessage) {
    var n, k := |m.entries|, OptionsBefore(m.entries, |m.entries|);
    && |d| == 12 + 16 * n + 12 * k
    && d[0] == (if m.reboot then 128 else 0) + (if m.unicast then 64 else 0)
    && d[1] == 0 && d[2] == 0 && d[3] == 0
    && NumberAt(d, 4, 16 * n) && EntriesOnWire(d, 8, m.entries)
    && NumberAt(d, 8 + 16 * n, 12 * k) && OptionsOnWire(d, 12 + 16 * n, m.entries)
  }

  // ---- one option, one entry ---------------------------------------------------------------

  lemma OptionBytesOnWire(d: seq<u8>, at: nat, o: SdOption)
    requires at + 12 <= |d| && o.address.Some? && d[at..at + 12] == OptionBytes(o)
    ensures OptionOnWire(d, at, o)
  {
    var w := OptionBytes(o);
    assert w[0..2] == PutU16(9) && w[4..8] == PutU32(o.address.value) && w[10..12] == PutU16(o.port);
    assert w[2] == OptionTypeByte(o.kind) && w[3] == 0 && w[8] == 0 && w[9] == o.protocol;
    hide PutU16, PutU32, OptionBytes;
    assert forall i :: 0 <= i < 12 ==> d[at + i] == w[i];
    U16Codec(w, 0, 9);
    U32Codec(w, 4, o.address.value);
    U16Codec(w, 10, o.port);
  }

  lemma EntryBytesOnWire(d: seq<u8>, at: nat, e: Entry, index: nat)
    requires at + 16 <= |d| && index <= 255 && |e.options| <= 15 && d[at..at + 16] == EntryBytes(e, index, |e.options|)
    ensures EntryOnWire(d, at, e, index)
  {
    var w := EntryBytes(e, index, |e.options|);
    EntryParts(e, index);
    hide PutU16, PutU24, PutU32, EntryBytes;
    assert forall i :: 0 <= i < 16 ==> d[at + i] == w[i];
    U16Codec(w, 4, e.serviceId);
    U16Codec(w, 6, e.instanceId);
    U24Codec(w, 9, e.ttl % 0x100_0000);
    if IsServiceEntry(e.kind) {
      U32Codec(w, 12, e.minorVersion);
    } else {
      U16Codec(w, 14, e.eventgroupId);
    }
  }

  lemma EntryParts(e: Entry, index: nat)
    requires index <= 255 && |e.options| <= 15
    ensures var w := EntryBytes(e, index, |e.options|);
            && w[0] == EntryTypeByte(e.kind) && w[1] == index && w[2] == 0 && w[3] == |e.options| * 16
            && w[4..6] == PutU16(e.serviceId) && w[6..8] == PutU16(e.instanceId) && w[8] == e.majorVersion
            && w[9..12] == PutU24(e.ttl % 0x100_0000)
            && (IsServiceEntry(e.kind) ==> w[12..16] == PutU32(e.minorVersion))
            && (!IsServiceEntry(e.kind) ==> w[12] == 0 && w[13] == 0 && w[14..16] == PutU16(e.eventgroupId))
  {
  }

  // ---- the two arrays ----------------------------------------------------------------------

  lemma {:induction false} OptionsBeforeIs(entries: seq<Entry>, n: nat)
    requires n <= |entries|
    ensures OptionsBefore(entries, n) == |FlatOptions(entries[..n])|
    decreases n
  {
    if n == 0 {
    } else {
      OptionsBeforeIs(entries, n - 1);
      assert entries[..n][..n - 1] == entries[..n - 1];
    }
  }

  /** Entry `i` of the array is written at its sixteen bytes. */
  lemma {:induction false} EntryInArray(entries: seq<Entry>, n: nat, i: nat)
    requires i < n <= |entries|
    ensures EntriesBytes(entries[..n])[16 * i..16 * i + 16]
         == EntryBytes(entries[i], OptionsBefore(entries, i), |entries[i].options|)
    decreases n
  {
    hide EntryBytes;
    var before, all := EntriesBytes(entries[..n - 1]), EntriesBytes(entries[..n]);
    assert entries[..n][..n - 1] == entries[..n - 1];
    assert all[..16 * (n - 1)] == before;
    OptionsBeforeIs(entries, n - 1);
    if i == n - 1 {
    } else {
      EntryInArray(entries, n - 1, i);
      assert all[16 * i..16 * i + 16] == before[16 * i..16 * i + 16];
    }
  }

  lemma {:induction false} OptionInArray(options: seq<SdOption>, j: nat)
    requires AllAddressed(options) && j < |options|
    ensures OptionsBytes(options)[12 * j..12 * j + 12] == OptionBytes(options[j])
    decreases |options|
  {
    hide OptionBytes;
    var n := |options| - 1;
    var before, all := OptionsBytes(options[..n]), OptionsBytes(options);
    assert all[..12 * n] == before;
    if j == n {
    } else {
      OptionInArray(options[..n], j);
      assert all[12 * j..12 * j + 12] == before[12 * j..12 * j + 12];
    }
  }

  /** The options of entry `i` stand together in the shared list. */
  lemma {:induction false} OwnOptions(entries: seq<Entry>, n: nat, i: nat, j: nat)
    requires i < n <= |entries| && j < |entries[i].options|
    ensures OptionsBefore(entries, i) + j < |FlatOptions(entries[..n])|
    ensures FlatOptions(entries[..n])[OptionsBefore(entries, i) + j] == entries[i].options[j]
    decreases n
  {
    assert entries[..n][..n - 1] == entries[..n - 1];
    OptionsBeforeIs(entries, n - 1);
    if i == n - 1 {
    } else {
      OwnOptions(entries, n - 1, i, j);
    }
  }

  lemma EntriesBytesOnWire(d: seq<u8>, at: nat, entries: seq<Entry>)
    requires Indexable(entries) && at + 16 * |entries| <= |d| && d[at..at + 16 * |entries|] == EntriesBytes(entries)
    ensures EntriesOnWire(d, at, entries)
  {
    hide EntriesBytes, EntryOnWire, OptionsBefore, Indexable;
    forall i | 0 <= i < |entries| ensures EntryOnWire(d, at + 16 * i, entries[i], OptionsBefore(entries, i)) {
      OneEntryOnWire(d, at, entries, i);
    }
  }

  lemma OneEntryOnWire(d: seq<u8>, at: nat, entries: seq<Entry>, i: nat)
    requires Indexable(entries) && at + 16 * |entries| <= |d| && d[at..at + 16 * |entries|] == EntriesBytes(entries)
    requires i < |entries|
    ensures EntryOnWire(d, at + 16 * i, entries[i], OptionsBefore(entries, i))
  {
    hide EntriesBytes, EntryBytes, EntryOnWire, FlatOptions, OptionsBefore;
    assert entries[..|entries|] == entries;
    EntryInArray(entries, |entries|, i);
    FewerBefore(entries, i);
    SliceOfSlice(d, at, 16 * |entries|, 16 * i, 16);
    EntryBytesOnWire(d, at + 16 * i, entries[i], OptionsBefore(entries, i));
  }

  lemma SliceOfSlice(d: seq<u8>, at: nat, n: nat, from: nat, size: nat)
    requires at + n <= |d| && from + size <= n
    ensures d[at + from..at + from + size] == d[at..at + n][from..from + size]
  {
    var a, b := d[at + from..at + from + size], d[at..at + n][from..from + size];
    assert |a| == |b| && forall i :: 0 <= i < |a| ==> a[i] == b[i];
  }

  lemma FewerBefore(entries: seq<Entry>, i: nat)
    requires i <= |entries| && Indexable(entries)
    ensures OptionsBefore(entries, i) <= 255
  {
    OptionsBeforeIs(entries, i);
    IndexablePrefix(entries, i);
  }

  lemma OptionsBytesOnWire(d: seq<u8>, at: nat, entries: seq<Entry>)
    requires Indexable(entries) && at + 12 * |FlatOptions(entries)| == |d| && d[at..] == OptionsBytes(FlatOptions(entries))
    ensures OptionsOnWire(d, at, entries)
  {
    hide OptionsBytes, OptionBytes, OptionOnWire, FlatOptions, OptionsBefore;
    assert entries[..|entries|] == entries;
    var flat := FlatOptions(entries);
    assert d[at..at + 12 * |flat|] == d[at..];
    forall i, j | 0 <= i < |entries| && 0 <= j < |entries[i].options|
      ensures OptionOnWire(d, at + 12 * OptionsBefore(entries, i) + 12 * j, entries[i].options[j])
    {
      OwnOptions(entries, |entries|, i, j);
      OneOptionOnWire(d, at, flat, OptionsBefore(entries, i) + j);
      assert at + 12 * (OptionsBefore(entries, i) + j) == at + 12 * OptionsBefore(entries, i) + 12 * j;
    }
  }

  lemma OneOptionOnWire(d: seq<u8>, at: nat, flat: seq<SdOption>, k: nat)
    requires AllAddressed(flat) && k < |flat| && at + 12 * |flat| <= |d| && d[at..at + 12 * |flat|] == OptionsBytes(flat)
    ensures OptionOnWire(d, at + 12 * k, flat[k])
  {
    hide OptionsBytes, OptionBytes, OptionOnWire;
    OptionInArray(flat, k);
    SliceOfSlice(d, at, 12 * |flat|, 12 * k, 12);
    OptionBytesOnWire(d, at + 12 * k, flat[k]);
  }

  // ---- the message -------------------------------------------------------------------------

  lemma PayloadParts(m: SdMessage)
    requires Indexable(m.entries) && |Payload(m)| <= 0xFFFF_FFFF
    ensures var d, es, os := Payload(m), EntriesBytes(m.entries), OptionsBytes(FlatOptions(m.entries));
            && |d| == 12 + |es| + |os| && d[0] == Flags(m) && d[1] == 0 && d[2] == 0 && d[3] == 0
            && d[4..8] == PutU32(|es|) && d[8..8 + |es|] == es
            && d[8 + |es|..12 + |es|] == PutU32(|os|) && d[12 + |es|..] == os
  {
    hide PutU32, Flags, EntriesBytes, OptionsBytes;
    var es, os := EntriesBytes(m.entries), OptionsBytes(FlatOptions(m.entries));
    assert |es| % 0x1_0000_0000 == |es| && |os| % 0x1_0000_0000 == |os|;
  }

  lemma NumberWritten(d: seq<u8>, at: nat, v: u32)
    requires at + 4 <= |d| && d[at..at + 4] == PutU32(v)
    ensures NumberAt(d, at, v)
  {
    hide PutU32, U32At;
    U32Codec(d, at, v);
  }

  lemma PayloadIsOnWire(m: SdMessage)
    requires Indexable(m.entries) && |Payload(m)| <= 0xFFFF_FFFF
    ensures PayloadOnWire(Payload(m), m)
  {
    hide *;
    PayloadParts(m);
    ArraysHaveSizes(m.entries);
    var d, es, os := Payload(m), EntriesBytes(m.entries), OptionsBytes(FlatOptions(m.entries));
    NumberWritten(d, 4, |es|);
    NumberWritten(d, 8 + |es|, |os|);
    EntriesBytesOnWire(d, 8, m.entries);
    OptionsBytesOnWire(d, 12 + |es|, m.entries);
    PayloadJoined(d, m, |m.entries|, OptionsBefore(m.entries, |m.entries|));
  }

  lemma ArraysHaveSizes(entries: seq<Entry>)
    requires Indexable(entries)
    ensures |EntriesBytes(entries)| == 16 * |entries|
    ensures |FlatOptions(entries)| == OptionsBefore(entries, |entries|)
    ensures AllAddressed(FlatOptions(entries)) && |OptionsBytes(FlatOptions(entries))| == 12 * OptionsBefore(entries, |entries|)
  {
    OptionsBeforeIs(entries, |entries|);
    assert entries[..|entries|] == entries;
  }

  lemma PayloadJoined(d: seq<u8>, m: SdMessage, n: nat, k: nat)
    requires n == |m.entries| && k == OptionsBefore(m.entries, n)
    requires |d| == 12 + 16 * n + 12 * k && d[0] == Flags(m) && d[1] == 0 && d[2] == 0 && d[3] == 0
    requires NumberAt(d, 4, 16 * n) && EntriesOnWire(d, 8, m.entries)
    requires NumberAt(d, 8 + 16 * n, 12 * k) && OptionsOnWire(d, 12 + 16 * n, m.entries)
    ensures PayloadOnWire(d, m)
  {
    hide NumberAt, EntriesOnWire, OptionsOnWire, OptionsBefore;
  }

  predicate Sendable(m: SdMessage) {
    && (forall i :: 0 <= i < |m.entries| ==> |m.entries[i].options| <= 15)
    && (forall i, j :: 0 <= i < |m.entries| && 0 <= j < |m.entries[i].options| ==> m.entries[i].options[j].address.Some?)
    && OptionsBefore(m.entries, |m.entries|) <= 255
    && 20 + 16 * |m.entries| + 12 * OptionsBefore(m.entries, |m.entries|) <= 0xFFFF_FFFF
  }

  lemma {:induction false} AddressedTogether(entries: seq<Entry>, n: nat)
    requires n <= |entries|
    ensures AllAddressed(FlatOptions(entries[..n])) <==> forall i :: 0 <= i < n ==> AllAddressed(entries[i].options)
    decreases n
  {
    if n == 0 {
    } else {
      AddressedTogether(entries, n - 1);
      assert entries[..n][..n - 1] == entries[..n - 1];
      AllAddressedAppend(FlatOptions(entries[..n - 1]), entries[n - 1].options);
    }
  }

  /** What leaves: a notification of service 0xFFFF, method 0x8100, with every field of every entry and
      option in its place. It leaves exactly if no entry owns more than 15 options, all entries own at
      most 255, every option has an address, and the length field can count the whole. */
  lemma MessageOnWire(m: SdMessage, sessionId: u16)
    ensures Serialize(m, sessionId).Some? <==> Sendable(m)
    ensures Serialize(m, sessionId).Some? ==>
              var d := Serialize(m, sessionId).value;
              && |d| >= 16 && PayloadOnWire(d[16..], m)
              && SomeIp.OnWire(d, SomeIp.Header(0xFFFF, 0x8100, 0, sessionId, 1, SomeIp.Notification, 0x00), d[16..])
  {
    hide PayloadOnWire, FlatOptions, EntriesBytes, OptionsBytes, OptionsBefore, SomeIp.OnWire, SomeIp.Serialize, PutU32,
         Indexable, Sendable, Payload;
    SendableExactly(m);
    if Indexable(m.entries) {
      PayloadSize(m);
      SomeIp.SerializedOnWire(SdHeader(sessionId), Payload(m));
      if SomeIp.Serialize(SdHeader(sessionId), Payload(m)).Some? {
        PayloadIsOnWire(m);
        OnWireHasPayload(SomeIp.Serialize(SdHeader(sessionId), Payload(m)).value, SdHeader(sessionId), Payload(m));
      }
    }
  }

  lemma SendableExactly(m: SdMessage)
    ensures Sendable(m) <==> Indexable(m.entries)
                             && 20 + 16 * |m.entries| + 12 * OptionsBefore(m.entries, |m.entries|) <= 0xFFFF_FFFF
  {
    assert m.entries[..|m.entries|] == m.entries;
    OptionsBeforeIs(m.entries, |m.entries|);
    AddressedTogether(m.entries, |m.entries|);
    hide FlatOptions, OptionsBefore;
  }

  lemma PayloadSize(m: SdMessage)
    requires Indexable(m.entries)
    ensures |Payload(m)| == 12 + 16 * |m.entries| + 12 * OptionsBefore(m.entries, |m.entries|)
  {
    ArraysHaveSizes(m.entries);
    hide PutU32, EntriesBytes, OptionsBytes, FlatOptions, OptionsBefore, Flags;
  }

  lemma OnWireHasPayload(d: seq<u8>, h: SomeIp.Header, payload: seq<u8>)
    requires SomeIp.OnWire(d, h, payload)
    ensures |d| >= 16 && d[16..] == payload
  {
  }

  // ---- reading -----------------------------------------------------------------------------

  /** The front option of any array: a well-formed IPv4 option is what its bytes say, any other type
      leaves a placeholder and takes the bytes it declares. */
  lemma FrontOptionReads(d: seq<u8>)
    ensures FrontOption(d).Some? <==>
              && |d| >= 4 && d[0] as int * 0x100 + d[1] >= 1 && |d| >= d[0] as int * 0x100 + d[1] + 3
              && (d[2] == 0x04 || d[2] == 0x14 ==> d[0] == 0 && d[1] == 9)
    ensures FrontOption(d).Some? ==>
              var (o, used) := FrontOption(d).value;
              && used == d[0] as int * 0x100 + d[1] + 3
              && (if d[2] == 0x04 || d[2] == 0x14 then
                    && o.kind == (if d[2] == 0x04 then Ipv4Endpoint else Ipv4Multicast)
                    && o.address == Some(d[4] as int * 0x100_0000 + d[5] as int * 0x1_0000 + d[6] as int * 0x100 + d[7])
                    && o.protocol == d[9] && o.port == d[10] as int * 0x100 + d[11]
                  else o == SdOption(Ipv4Endpoint, None, 0x11, 0))
  {
    hide U16At, U32At;
    if |d| >= 4 { U16Codec(d, 0, U16At(d, 0)); }
    if |d| >= 12 {
      U32Codec(d, 4, U32At(d, 4));
      U16Codec(d, 10, U16At(d, 10));
    }
  }

  /** An entry is kept exactly if its type is known and the options it refers to are there; it is then
      what its bytes say. */
  lemma EntryReads(d: seq<u8>, options: seq<SdOption>)
    requires |d| == 16
    ensures ParseEntry(d, options).Some? <==>
              d[0] in {0x00, 0x01, 0x06, 0x07} && (d[3] < 16 || d[1] as int + d[3] / 16 <= |options|)
    ensures ParseEntry(d, options).Some? ==>
              var e := ParseEntry(d, options).value;
              && e.kind == (if d[0] == 0 then FindService else if d[0] == 1 then OfferService
                            else if d[0] == 6 then SubscribeEventgroup else SubscribeEventgroupAck)
              && e.serviceId == d[4] as int * 0x100 + d[5] && e.instanceId == d[6] as int * 0x100 + d[7]
              && e.majorVersion == d[8] && e.ttl == d[9] as int * 0x1_0000 + d[10] as int * 0x100 + d[11]
              && e.minorVersion == (if d[0] > 1 then 0 else
                   d[12] as int * 0x100_0000 + d[13] as int * 0x1_0000 + d[14] as int * 0x100 + d[15])
              && e.eventgroupId == (if d[0] <= 1 then 0 else d[14] as int * 0x100 + d[15])
              && e.options == (if d[3] < 16 then [] else options[d[1]..d[1] as int + d[3] / 16])
  {
    hide U16At, U24At, U32At;
    U16Codec(d, 4, U16At(d, 4));
    U16Codec(d, 6, U16At(d, 6));
    U24Codec(d, 9, U24At(d, 9));
    U32Codec(d, 12, U32At(d, 12));
    U16Codec(d, 14, U16At(d, 14));
  }

  /** The length of the entries array, as the payload states it. */
  function Declared(d: seq<u8>, at: nat): nat
    requires at + 4 <= |d|
  {
    d[at] as int * 0x100_0000 + d[at + 1] as int * 0x1_0000 + d[at + 2] as int * 0x100 + d[at + 3]
  }

  /** A payload is accepted exactly if its two arrays fill it, the first holds whole entries and the
      second well-formed options; the flags are the upper two bits of the first byte. */
  lemma PayloadReads(d: seq<u8>)
    ensures ParsePayload(d).Some? <==>
              && |d| >= 12 && Declared(d, 4) % 16 == 0 && |d| >= 12 + Declared(d, 4)
              && |d| == 12 + Declared(d, 4) + Declared(d, 8 + Declared(d, 4))
              && ParseOptions(d[12 + Declared(d, 4)..]).Some?
    ensures ParsePayload(d).Some? ==>
              var m, n := ParsePayload(d).value, Declared(d, 4);
              && (m.reboot <==> d[0] / 128 == 1) && (m.unicast <==> d[0] / 64 % 2 == 1)
              && m.entries == ParseEntries(d[8..8 + n], ParseOptions(d[12 + n..]).value)
  {
    hide U32At, ParseOptions, ParseEntries, Declared;
    if |d| >= 12 {
      DeclaredIs(d, 4);
      FlagBits(d[0]);
      var n := Declared(d, 4);
      if |d| >= 12 + n { DeclaredIs(d, 8 + n); }
    }
  }

  lemma DeclaredIs(d: seq<u8>, at: nat)
    requires at + 4 <= |d|
    ensures Declared(d, at) == U32At(d, at)
  {
    U32Codec(d, at, U32At(d, at));
    hide U32At;
  }

  lemma FlagBits(flags: u8)
    ensures flags >= 0x80 <==> flags / 128 == 1
    ensures flags % 0x80 >= 0x40 <==> flags / 64 % 2 == 1
  {
  }
}

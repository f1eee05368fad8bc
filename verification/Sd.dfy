/**
 The Service Discovery payload codec (AUTOSAR PRS_SOMEIPServiceDiscoveryProtocol, section 4.1.2).

 Entries own their options in memory; on the wire all options stand in one shared array that an
 entry refers to by index and count. An address is four bytes; `None` stands for any text that is
 not an IPv4 address, the empty text of a placeholder option among them.
 */
module Sd {
  import opened Wrappers
  import opened Bytes
  import SomeIp

  const SERVICE_ID: u16 := 0xFFFF
  const METHOD_ID: u16 := 0x8100
  const ENTRY_SIZE := 16
  const OPTION_SIZE := 12
  /** What an IPv4 option declares: neither the Length field nor the type byte is counted. */
  const IPV4_OPTION_LENGTH := 9
  const MIN_PAYLOAD := 12
  const MAX_OPTIONS_PER_ENTRY := 15
  const MAX_OPTIONS := 255
  const UDP: u8 := 0x11

  datatype EntryType = FindService | OfferService | SubscribeEventgroup | SubscribeEventgroupAck

  datatype OptionType = Ipv4Endpoint | Ipv4Multicast

  datatype SdOption = SdOption(kind: OptionType, address: Option<u32>, protocol: u8, port: u16)

  datatype Entry = Entry(kind: EntryType, serviceId: u16, instanceId: u16, majorVersion: u8, ttl: u32,
                         minorVersion: u32, eventgroupId: u16, options: seq<SdOption>)

  datatype SdMessage = SdMessage(reboot: bool, unicast: bool, entries: seq<Entry>)

  /** What an unknown option leaves in the decoded list: a default-constructed option. */
  const PLACEHOLDER := SdOption(Ipv4Endpoint, None, UDP, 0)

  function EntryTypeByte(t: EntryType): u8 {
    match t
    case FindService => 0x00
    case OfferService => 0x01
    case SubscribeEventgroup => 0x06
    case SubscribeEventgroupAck => 0x07
  }

  function KnownEntryType(raw: u8): Option<EntryType> {
    match raw
    case 0x00 => Some(FindService)
    case 0x01 => Some(OfferService)
    case 0x06 => Some(SubscribeEventgroup)
    case 0x07 => Some(SubscribeEventgroupAck)
    case _ => None
  }

  function OptionTypeByte(t: OptionType): u8 {
    match t
    case Ipv4Endpoint => 0x04
    case Ipv4Multicast => 0x14
  }

  predicate IsServiceEntry(t: EntryType) {
    t == FindService || t == OfferService
  }

  predicate IsSd(h: SomeIp.Header) {
    h.serviceId == SERVICE_ID && h.methodId == METHOD_ID
  }

  // ---- encoding ----------------------------------------------------------------------------

  function OptionBody(o: SdOption): (s: seq<u8>)
    requires o.address.Some?
    ensures |s| == IPV4_OPTION_LENGTH
  {
    [0] + PutU32(o.address.value) + [0, o.protocol] + PutU16(o.port)
  }

  function OptionBytes(o: SdOption): (s: seq<u8>)
    requires o.address.Some?
    ensures |s| == OPTION_SIZE
  {
    PutU16(IPV4_OPTION_LENGTH) + [OptionTypeByte(o.kind)] + OptionBody(o)
  }

  function EntryBytes(e: Entry, index: nat, count: nat): (s: seq<u8>)
    ensures |s| == ENTRY_SIZE
  {
    [EntryTypeByte(e.kind), index % 0x100, 0, count % 0x10 * 0x10]
    + PutU16(e.serviceId) + PutU16(e.instanceId) + [e.majorVersion] + PutU24(e.ttl % 0x100_0000)
    + if IsServiceEntry(e.kind) then PutU32(e.minorVersion) else [0, 0] + PutU16(e.eventgroupId)
  }

  predicate AllAddressed(os: seq<SdOption>) {
    forall i :: 0 <= i < |os| ==> os[i].address.Some?
  }

  function OptionsBytes(os: seq<SdOption>): (s: seq<u8>)
    requires AllAddressed(os)
    ensures |s| == OPTION_SIZE * |os|
  {
    if os == [] then [] else OptionsBytes(os[..|os| - 1]) + OptionBytes(os[|os| - 1])
  }

  /** The shared options array: every entry's options, in entry order. */
  function FlatOptions(entries: seq<Entry>): seq<SdOption> {
    if entries == [] then []
    else FlatOptions(entries[..|entries| - 1]) + entries[|entries| - 1].options
  }

  /** The messages the index and count fields can describe. */
  predicate Indexable(entries: seq<Entry>) {
    && (forall i :: 0 <= i < |entries| ==> |entries[i].options| <= MAX_OPTIONS_PER_ENTRY)
    && |FlatOptions(entries)| <= MAX_OPTIONS
    && AllAddressed(FlatOptions(entries))
  }

  function EntriesBytes(entries: seq<Entry>): (s: seq<u8>)
    ensures |s| == ENTRY_SIZE * |entries|
  {
    if entries == [] then []
    else
      var before, e := entries[..|entries| - 1], entries[|entries| - 1];
      EntriesBytes(before) + EntryBytes(e, |FlatOptions(before)|, |e.options|)
  }

  function Flags(m: SdMessage): u8 {
    (if m.reboot then 0x80 else 0) + (if m.unicast then 0x40 else 0)
  }

  /** The two array lengths are cast to 32 bits before they are written. */
  function Assemble(flags: u8, entries: seq<u8>, options: seq<u8>): seq<u8> {
    [flags, 0, 0, 0] + PutU32(|entries| % 0x1_0000_0000) + entries
    + PutU32(|options| % 0x1_0000_0000) + options
  }

  function Payload(m: SdMessage): seq<u8>
    requires Indexable(m.entries)
  {
    Assemble(Flags(m), EntriesBytes(m.entries), OptionsBytes(FlatOptions(m.entries)))
  }

  function SdHeader(sessionId: u16): SomeIp.Header {
    SomeIp.Header(SERVICE_ID, METHOD_ID, 0, sessionId, 1, SomeIp.Notification, SomeIp.OK)
  }

  function Serialize(m: SdMessage, sessionId: u16): Option<seq<u8>> {
    if !Indexable(m.entries) then None
    else SomeIp.Serialize(SdHeader(sessionId), Payload(m))
  }

  lemma IndexablePrefix(entries: seq<Entry>, n: nat)
    requires n <= |entries| && Indexable(entries)
    ensures Indexable(entries[..n])
    decreases |entries|
  {
    if n < |entries| {
      var before := entries[..|entries| - 1];
      assert FlatOptions(entries) == FlatOptions(before) + entries[|entries| - 1].options;
      assert FlatOptions(before) == FlatOptions(entries)[..|FlatOptions(before)|];
      IndexablePrefix(before, n);
      assert before[..n] == entries[..n];
    } else {
      assert entries[..n] == entries;
    }
  }

  lemma AllAddressedAppend(a: seq<SdOption>, b: seq<SdOption>)
    ensures AllAddressed(a + b) <==> AllAddressed(a) && AllAddressed(b)
  {
    assert forall i :: 0 <= i < |a| ==> (a + b)[i] == a[i];
    assert forall i :: 0 <= i < |b| ==> (a + b)[|a| + i] == b[i];
  }

  /** One more entry: what it adds, and exactly when it can still be indexed. */
  lemma IndexableStep(entries: seq<Entry>, n: nat)
    requires n < |entries| && Indexable(entries[..n])
    ensures var flat, e := FlatOptions(entries[..n]), entries[n];
            && FlatOptions(entries[..n + 1]) == flat + e.options
            && EntriesBytes(entries[..n + 1]) == EntriesBytes(entries[..n]) + EntryBytes(e, |flat|, |e.options|)
            && (Indexable(entries[..n + 1]) <==>
                |e.options| <= MAX_OPTIONS_PER_ENTRY && |flat| + |e.options| <= MAX_OPTIONS
                && AllAddressed(e.options))
  {
    hide EntryBytes;
    var flat, e, now := FlatOptions(entries[..n]), entries[n], entries[..n + 1];
    assert now[..n] == entries[..n] && now[n] == e;
    assert FlatOptions(now) == flat + e.options;
    AllAddressedAppend(flat, e.options);
    assert forall i :: 0 <= i < n ==> now[i] == entries[..n][i];
  }

  /** The inner loop: one entry's options into the shared buffer, refusing a bad address. */
  method AppendOptions(ghost flat: seq<SdOption>, buffer: seq<u8>, more: seq<SdOption>)
    returns (ok: bool, out: seq<u8>, added: nat)
    requires AllAddressed(flat) && buffer == OptionsBytes(flat)
    ensures ok <==> AllAddressed(more)
    ensures ok ==> AllAddressed(flat + more) && out == OptionsBytes(flat + more) && added == |more|
  {
    out, added := buffer, 0;
    assert flat + more[..0] == flat;
    while added < |more|
      invariant 0 <= added <= |more|
      invariant AllAddressed(more[..added])
      invariant AllAddressed(flat + more[..added]) && out == OptionsBytes(flat + more[..added])
    {
      var option := more[added];
      if option.address.None? {
        return false, out, added;
      }
      ghost var now := flat + more[..added + 1];
      assert now[..|now| - 1] == flat + more[..added];
      out := out + OptionBytes(option);
      added := added + 1;
    }
    assert more[..added] == more;
    ok := true;
  }

  /** The encoder as the source runs it: one pass over the entries, appending to two buffers and
      giving up at the first entry that cannot be indexed. */
  method SerializeInto(m: SdMessage, sessionId: u16) returns (ok: bool, out: seq<u8>)
    ensures ok <==> Serialize(m, sessionId).Some?
    ensures ok ==> Serialize(m, sessionId) == Some(out)
    ensures !ok ==> out == []
  {
    hide EntryBytes, OptionBytes, Flags, PutU32;
    var entries: seq<u8>, options: seq<u8> := [], [];
    var optionCount := 0;
    for i := 0 to |m.entries|
      invariant Indexable(m.entries[..i])
      invariant entries == EntriesBytes(m.entries[..i])
      invariant options == OptionsBytes(FlatOptions(m.entries[..i]))
      invariant optionCount == |FlatOptions(m.entries[..i])|
    {
      var entry := m.entries[i];
      IndexableStep(m.entries, i);
      ghost var indexable := Indexable(m.entries) ==> Indexable(m.entries[..i + 1]);
      assert indexable by {
        if Indexable(m.entries) { IndexablePrefix(m.entries, i + 1); }
      }
      if |entry.options| > MAX_OPTIONS_PER_ENTRY || optionCount + |entry.options| > MAX_OPTIONS {
        return false, [];
      }
      var index := optionCount;
      var fits, buffer, added := AppendOptions(FlatOptions(m.entries[..i]), options, entry.options);
      if !fits {
        return false, [];
      }
      options, optionCount := buffer, optionCount + added;
      entries := entries + EntryBytes(entry, index, |entry.options|);
    }
    assert m.entries[..|m.entries|] == m.entries;
    var payload: seq<u8> := [Flags(m), 0, 0, 0];
    payload := payload + PutU32(|entries| % 0x1_0000_0000) + entries;
    payload := payload + PutU32(|options| % 0x1_0000_0000) + options;
    assert payload == Payload(m);
    ok, out := SomeIp.SerializeInto(SdHeader(sessionId), payload);
  }

  // ---- decoding ----------------------------------------------------------------------------

  predicate Ipv4Type(raw: u8) {
    raw == 0x04 || raw == 0x14
  }

  /** The option at the front of `d`, and how many bytes it takes. */
  function FrontOption(d: seq<u8>): (r: Option<(SdOption, nat)>)
    ensures r.Some? ==> 4 <= r.value.1 <= |d|
  {
    if |d| < 4 then None
    else
      var declared := U16At(d, 0);
      var total := declared + 3;
      if total < 4 || |d| < total then None
      else if Ipv4Type(d[2]) then
        if declared != IPV4_OPTION_LENGTH then None
        else Some((SdOption(if d[2] == 0x04 then Ipv4Endpoint else Ipv4Multicast,
                            Some(U32At(d, 4)), d[9], U16At(d, 10)), total))
      else Some((PLACEHOLDER, total))
  }

  function ParseOptions(d: seq<u8>): Option<seq<SdOption>> {
    if d == [] then Some([])
    else match FrontOption(d)
         case None => None
         case Some((o, used)) =>
           match ParseOptions(d[used..])
           case None => None
           case Some(rest) => Some([o] + rest)
  }

  function Prepend<T>(front: seq<T>, rest: Option<seq<T>>): Option<seq<T>> {
    match rest
    case None => None
    case Some(r) => Some(front + r)
  }

  method ParseOptionsLoop(d: seq<u8>) returns (ok: bool, out: seq<SdOption>)
    ensures ok <==> ParseOptions(d).Some?
    ensures ok ==> ParseOptions(d) == Some(out)
  {
    out := [];
    var offset := 0;
    assert d[offset..] == d;
    assert ParseOptions(d).Some? ==> out + ParseOptions(d).value == ParseOptions(d).value;
    while offset < |d|
      invariant 0 <= offset <= |d|
      invariant ParseOptions(d) == Prepend(out, ParseOptions(d[offset..]))
    {
      var front := FrontOption(d[offset..]);
      if front.None? {
        return false, out;
      }
      var Some((option, used)) := front;
      ghost var rest := ParseOptions(d[offset + used..]);
      assert d[offset..][used..] == d[offset + used..];
      assert rest.Some? ==> out + ([option] + rest.value) == out + [option] + rest.value;
      out := out + [option];
      offset := offset + used;
    }
    assert d[offset..] == [] && out + [] == out;
    ok := true;
  }

  /** `None` means the entry is skipped, not that the message is refused. */
  function ParseEntry(d: seq<u8>, options: seq<SdOption>): Option<Entry>
    requires |d| == ENTRY_SIZE
  {
    match KnownEntryType(d[0])
    case None => None
    case Some(kind) =>
      var index, count := d[1], d[3] / 0x10;
      var minor := if IsServiceEntry(kind) then U32At(d, 12) else 0;
      var eventgroup := if IsServiceEntry(kind) then 0 else U16At(d, 14);
      if count != 0 && index as int + count > |options| then None
      else Some(Entry(kind, U16At(d, 4), U16At(d, 6), d[8], U24At(d, 9), minor, eventgroup,
                      if count == 0 then [] else options[index..index as int + count]))
  }

  function Kept(e: Option<Entry>): seq<Entry> {
    if e.Some? then [e.value] else []
  }

  function ParseEntries(d: seq<u8>, options: seq<SdOption>): seq<Entry>
    requires |d| % ENTRY_SIZE == 0
  {
    if d == [] then []
    else
      Kept(ParseEntry(d[..ENTRY_SIZE], options)) + ParseEntries(d[ENTRY_SIZE..], options)
  }

  function ParsePayload(d: seq<u8>): Option<SdMessage> {
    if |d| < MIN_PAYLOAD then None
    else
      var entriesLength := U32At(d, 4);
      if entriesLength % ENTRY_SIZE != 0 then None
      else if |d| < (8 + entriesLength + 4) % 0x1_0000_0000 then None
      else ParseArrays(d, entriesLength)
  }

  function ParseArrays(d: seq<u8>, entriesLength: u32): Option<SdMessage>
    requires entriesLength % ENTRY_SIZE == 0 && |d| >= 8 + entriesLength + 4
  {
    var optionsAt := 8 + entriesLength;
    if |d| != optionsAt + 4 + U32At(d, optionsAt) then None
    else match ParseOptions(d[optionsAt + 4..])
         case None => None
         case Some(options) =>
           Some(SdMessage(d[0] >= 0x80, d[0] % 0x80 >= 0x40, ParseEntries(d[8..optionsAt], options)))
  }

  method ParseEntriesLoop(d: seq<u8>, options: seq<SdOption>) returns (entries: seq<Entry>)
    requires |d| % ENTRY_SIZE == 0
    ensures entries == ParseEntries(d, options)
  {
    hide ParseEntry;
    entries := [];
    var rest := d;
    while rest != []
      invariant |rest| % ENTRY_SIZE == 0
      invariant ParseEntries(d, options) == entries + ParseEntries(rest, options)
      decreases |rest|
    {
      var entry := ParseEntry(rest[..ENTRY_SIZE], options);
      ghost var after := ParseEntries(rest[ENTRY_SIZE..], options);
      assert entries + (Kept(entry) + after) == entries + Kept(entry) + after;
      if entry.Some? {
        entries := entries + [entry.value];
      }
      rest := rest[ENTRY_SIZE..];
    }
  }

  method ParsePayloadLoop(d: seq<u8>) returns (r: Option<SdMessage>)
    ensures r == ParsePayload(d)
  {
    if |d| < MIN_PAYLOAD {
      return None;
    }
    var entriesLength := U32At(d, 4);
    if entriesLength % ENTRY_SIZE != 0 || |d| < (8 + entriesLength + 4) % 0x1_0000_0000 {
      return None;
    }
    var optionsAt := 8 + entriesLength;
    if |d| != optionsAt + 4 + U32At(d, optionsAt) {
      return None;
    }
    var ok, options := ParseOptionsLoop(d[optionsAt + 4..]);
    if !ok {
      return None;
    }
    var entries := ParseEntriesLoop(d[8..optionsAt], options);
    r := Some(SdMessage(d[0] >= 0x80, d[0] % 0x80 >= 0x40, entries));
  }
}

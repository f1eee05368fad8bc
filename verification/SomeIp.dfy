/**
 The SOME/IP header codec and session counter (AUTOSAR PRS_SOMEIPProtocol, section 4.1.2).

 `Serialize` and `Deserialize` are the meaning of the two entry points; `SerializeInto` is the
 byte-by-byte encoder proved against the former.
 */
module SomeIp {
  import opened Wrappers
  import opened Bytes

  const HEADER_SIZE := 16
  /** What the Length field counts besides the payload: everything from the Request ID on. */
  const LENGTH_COVERS := 8
  const PROTOCOL_VERSION: u8 := 1
  const MAX_PAYLOAD := 0xFFFF_FFFF - LENGTH_COVERS

  datatype MessageType = Request | RequestNoReturn | Notification | Response | Error

  function TypeByte(t: MessageType): u8 {
    match t
    case Request => 0x00
    case RequestNoReturn => 0x01
    case Notification => 0x02
    case Response => 0x80
    case Error => 0x81
  }

  function KnownType(raw: u8): Option<MessageType> {
    match raw
    case 0x00 => Some(Request)
    case 0x01 => Some(RequestNoReturn)
    case 0x02 => Some(Notification)
    case 0x80 => Some(Response)
    case 0x81 => Some(Error)
    case _ => None
  }

  /** `code` is the raw return-code byte: the decoder casts it without a check. */
  datatype Header = Header(serviceId: u16, methodId: u16, clientId: u16, sessionId: u16,
                           interfaceVersion: u8, kind: MessageType, code: u8)

  const OK: u8 := 0x00
  const UNKNOWN_SERVICE: u8 := 0x02
  const UNKNOWN_METHOD: u8 := 0x03
  const WRONG_INTERFACE_VERSION: u8 := 0x08

  datatype Message = Message(header: Header, payload: seq<u8>)

  function HeaderBytes(h: Header, length: u32): (s: seq<u8>)
    ensures |s| == HEADER_SIZE
  {
    PutU16(h.serviceId) + PutU16(h.methodId) + PutU32(length)
    + PutU16(h.clientId) + PutU16(h.sessionId)
    + [PROTOCOL_VERSION, h.interfaceVersion, TypeByte(h.kind), h.code]
  }

  function Serialize(h: Header, payload: seq<u8>): Option<seq<u8>> {
    if |payload| > MAX_PAYLOAD then None
    else Some(HeaderBytes(h, LENGTH_COVERS + |payload|) + payload)
  }

  /** `d` is the datagram of `h` and `payload`, byte by byte: every number high byte first. */
  predicate OnWire(d: seq<u8>, h: Header, payload: seq<u8>) {
    && |d| == 16 + |payload|
    && d[0] as int * 0x100 + d[1] == h.serviceId
    && d[2] as int * 0x100 + d[3] == h.methodId
    && d[4] as int * 0x100_0000 + d[5] as int * 0x1_0000 + d[6] as int * 0x100 + d[7] == 8 + |payload|
    && d[8] as int * 0x100 + d[9] == h.clientId
    && d[10] as int * 0x100 + d[11] == h.sessionId
    && d[12] == 1 && d[13] == h.interfaceVersion
    && d[14] == (match h.kind case Request => 0x00 case RequestNoReturn => 0x01 case Notification => 0x02
                              case Response => 0x80 case Error => 0x81)
    && d[15] == h.code
    && d[16..] == payload
  }

  method SerializeInto(h: Header, payload: seq<u8>) returns (ok: bool, out: seq<u8>)
    ensures (ok <==> |payload| <= MAX_PAYLOAD) && (ok <==> Serialize(h, payload).Some?)
    ensures ok ==> Serialize(h, payload) == Some(out) && OnWire(out, h, payload)
    ensures !ok ==> out == []
  {
    out := [];
    if |payload| > MAX_PAYLOAD {
      return false, out;
    }
    out := out + PutU16(h.serviceId);
    out := out + PutU16(h.methodId);
    out := out + PutU32(LENGTH_COVERS + |payload|);
    out := out + PutU16(h.clientId);
    out := out + PutU16(h.sessionId);
    out := out + [PROTOCOL_VERSION];
    out := out + [h.interfaceVersion];
    out := out + [TypeByte(h.kind)];
    out := out + [h.code];
    assert out == HeaderBytes(h, LENGTH_COVERS + |payload|);
    out := out + payload;
    ok := true;
    SerializedOnWire(h, payload);
  }

  function HeaderAt(d: seq<u8>): Option<Header>
    requires |d| >= HEADER_SIZE
  {
    match KnownType(d[14])
    case None => None
    case Some(kind) =>
      Some(Header(U16At(d, 0), U16At(d, 2), U16At(d, 8), U16At(d, 10), d[13], kind, d[15]))
  }

  function Deserialize(d: seq<u8>): Option<Message> {
    if |d| < HEADER_SIZE then None
    else
      var length := U32At(d, 4);
      if length < LENGTH_COVERS then None
      else if |d| != HEADER_SIZE + (length - LENGTH_COVERS) then None
      else if d[12] != PROTOCOL_VERSION then None
      else match HeaderAt(d)
           case None => None
           case Some(h) => Some(Message(h, d[HEADER_SIZE..]))
  }

  lemma HeaderBytesSlices(h: Header, length: u32, payload: seq<u8>)
    ensures var d := HeaderBytes(h, length) + payload;
            && d[0..2] == PutU16(h.serviceId) && d[2..4] == PutU16(h.methodId)
            && d[4..8] == PutU32(length)
            && d[8..10] == PutU16(h.clientId) && d[10..12] == PutU16(h.sessionId)
            && d[12] == PROTOCOL_VERSION && d[13] == h.interfaceVersion
            && d[14] == TypeByte(h.kind) && d[15] == h.code
            && d[HEADER_SIZE..] == payload
  {
  }

  /** What the serialiser writes, byte by byte, and exactly when it writes at all. */
  lemma SerializedOnWire(h: Header, payload: seq<u8>)
    ensures Serialize(h, payload).Some? <==> 8 + |payload| <= 0xFFFF_FFFF
    ensures Serialize(h, payload).Some? ==> OnWire(Serialize(h, payload).value, h, payload)
  {
    if |payload| <= MAX_PAYLOAD {
      var d := Serialize(h, payload).value;
      HeaderBytesSlices(h, LENGTH_COVERS + |payload|, payload);
      ReadOnWire(d, h, payload);
    }
  }

  /** The fields of a header where they stand. */
  lemma ReadOnWire(d: seq<u8>, h: Header, payload: seq<u8>)
    requires |d| == 16 + |payload| && d[16..] == payload && 8 + |payload| <= 0xFFFF_FFFF
    ensures OnWire(d, h, payload) <==>
              && d[0..2] == PutU16(h.serviceId) && d[2..4] == PutU16(h.methodId) && d[4..8] == PutU32(8 + |payload|)
              && d[8..10] == PutU16(h.clientId) && d[10..12] == PutU16(h.sessionId)
              && d[12] == 1 && d[13] == h.interfaceVersion && d[14] == TypeByte(h.kind) && d[15] == h.code
  {
    hide PutU16, PutU32, U16At, U32At;
    U16Codec(d, 0, h.serviceId);
    U16Codec(d, 2, h.methodId);
    U32Codec(d, 4, 8 + |payload|);
    U16Codec(d, 8, h.clientId);
    U16Codec(d, 10, h.sessionId);
  }

  /** A datagram is read as a message if and only if its bytes are those of the message. */
  lemma ReadExactlyFromTheWire(d: seq<u8>, m: Message)
    ensures Deserialize(d) == Some(m) <==> OnWire(d, m.header, m.payload)
  {
    hide HeaderBytes;
    if Deserialize(d) == Some(m) {
      Reserialise(d);
      SerializedOnWire(m.header, m.payload);
    } else if OnWire(d, m.header, m.payload) {
      SerializedOnWire(m.header, m.payload);
      RoundTrip(m.header, m.payload);
      OnWireIsUnique(d, Serialize(m.header, m.payload).value, m.header, m.payload);
    }
  }

  lemma OnWireIsUnique(d: seq<u8>, e: seq<u8>, h: Header, payload: seq<u8>)
    requires OnWire(d, h, payload) && OnWire(e, h, payload) && 8 + |payload| <= 0xFFFF_FFFF
    ensures d == e
  {
    ReadOnWire(d, h, payload);
    ReadOnWire(e, h, payload);
    hide OnWire, PutU16, PutU32, TypeByte;
    assert d == d[0..2] + d[2..4] + d[4..8] + d[8..10] + d[10..12] + [d[12], d[13], d[14], d[15]] + d[16..];
    assert e == e[0..2] + e[2..4] + e[4..8] + e[8..10] + e[10..12] + [e[12], e[13], e[14], e[15]] + e[16..];
  }

  /** What was serialised is read back field for field. */
  lemma RoundTrip(h: Header, payload: seq<u8>)
    requires |payload| <= MAX_PAYLOAD
    ensures Serialize(h, payload).Some?
    ensures Deserialize(Serialize(h, payload).value) == Some(Message(h, payload))
  {
    var d := Serialize(h, payload).value;
    HeaderBytesSlices(h, LENGTH_COVERS + |payload|, payload);
    U16Inverse(d, 0, h.serviceId);
    U16Inverse(d, 2, h.methodId);
    U32Inverse(d, 4, LENGTH_COVERS + |payload|);
    U16Inverse(d, 8, h.clientId);
    U16Inverse(d, 10, h.sessionId);
  }

  /** Every accepted datagram is exactly what its content serialises to: no two accepted
      datagrams carry the same message. */
  lemma Reserialise(d: seq<u8>)
    requires Deserialize(d).Some?
    ensures var m := Deserialize(d).value;
            Serialize(m.header, m.payload) == Some(d)
  {
    var m := Deserialize(d).value;
    var h := m.header;
    var length := U32At(d, 4);
    U16Inverse(d, 0, h.serviceId);
    U16Inverse(d, 2, h.methodId);
    U32Inverse(d, 4, length);
    U16Inverse(d, 8, h.clientId);
    U16Inverse(d, 10, h.sessionId);
    assert d[12..16] == [PROTOCOL_VERSION, h.interfaceVersion, TypeByte(h.kind), h.code];
    assert d == d[0..2] + d[2..4] + d[4..8] + d[8..10] + d[10..12] + d[12..16] + d[16..];
  }

  /** The accepted datagrams are exactly the serialiser's outputs. */
  lemma AcceptedExactlyWhenProduced(d: seq<u8>)
    ensures Deserialize(d).Some? <==> exists h, p :: Serialize(h, p) == Some(d)
  {
    if Deserialize(d).Some? {
      Reserialise(d);
    }
    forall h, p | Serialize(h, p) == Some(d)
      ensures Deserialize(d).Some?
    {
      RoundTrip(h, p);
    }
  }

  // ---- sessions ----------------------------------------------------------------------------

  /** How many session ids there are: 1..0xFFFF, 0 being reserved. */
  const SESSIONS := 0xFFFF

  /** The id handed out by the `k`-th call of `Next`. */
  function SessionAt(k: nat): u16
    requires k >= 1
  {
    (k - 1) % SESSIONS + 1
  }

  class SessionCounter {
    var value: u16
    ghost var issued: nat

    ghost predicate Valid()
      reads this
    {
      value == if issued == 0 then 0 else SessionAt(issued)
    }

    constructor ()
      ensures Valid() && issued == 0
    {
      value := 0;
      issued := 0;
    }

    method Next() returns (id: u16)
      requires Valid()
      modifies this
      ensures Valid() && issued == old(issued) + 1
      ensures id == SessionAt(issued)
    {
      if value == 0xFFFF {
        value := 1;
      } else {
        value := value + 1;
      }
      issued := issued + 1;
      id := value;
    }
  }

  /** Never the reserved id; and an id comes back after exactly 65535 others. */
  lemma SessionsRepeatEvery65535(j: nat, k: nat)
    requires 1 <= j <= k
    ensures SessionAt(k) != 0
    ensures SessionAt(j) == SessionAt(k) <==> (k - j) % SESSIONS == 0
    ensures j < k < j + SESSIONS ==> SessionAt(j) != SessionAt(k)
  {
    var a, b := (j - 1) / SESSIONS, (k - 1) / SESSIONS;
    var r, s := (j - 1) % SESSIONS, (k - 1) % SESSIONS;
    assert k - j == (b - a) * SESSIONS + (s - r);
    if (k - j) % SESSIONS == 0 {
      var q := (k - j) / SESSIONS;
      assert s - r == (q - b + a) * SESSIONS;
      assert s == r;
    }
  }
}

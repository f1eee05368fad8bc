/** CAN frames packed into one datagram. */
module Tunnel {
  import opened Wrappers
  import opened Bytes
  import opened CanFrame

  const MAGIC: u32 := 0x4156_4554
  const VERSION: u8 := 1
  const HEADER_SIZE: nat := 16
  const RECORD_SIZE: nat := 16
  const MAX_FRAMES: nat := 64
  const EXTENDED_BIT: nat := 0x8000_0000

  /** The header's count is that of `frames`. */
  datatype Packet = Packet(sequence: u32, timestamp: u32, frames: seq<CanFrame>)

  function Zeros(n: nat): (s: seq<u8>)
    ensures |s| == n && forall i :: 0 <= i < n ==> s[i] == 0
  {
    seq(n, _ => 0)
  }

  function Flags(f: CanFrame): u8 { (if f.fd then 1 else 0) + if f.brs then 2 else 0 }

  function IdWord(f: CanFrame): u32
    requires IsValid(f)
  {
    if f.extended then EXTENDED_BIT + f.id else f.id
  }

  predicate Carried(f: CanFrame) { IsValid(f) && f.length as nat <= CLASSIC_MAX_PAYLOAD && |f.data| == MAX_PAYLOAD }

  function Record(f: CanFrame): (s: seq<u8>)
    requires Carried(f)
    ensures |s| == RECORD_SIZE
  {
    PutU32(IdWord(f)) + [f.length, Flags(f), 0, 0] + f.data[..f.length] + Zeros(CLASSIC_MAX_PAYLOAD - f.length as nat)
  }

  function Records(frames: seq<CanFrame>): (s: seq<u8>)
    requires forall i :: 0 <= i < |frames| ==> Carried(frames[i])
    ensures |s| == RECORD_SIZE * |frames|
  {
    if frames == [] then [] else Records(frames[..|frames| - 1]) + Record(frames[|frames| - 1])
  }

  function Head(sequence: u32, timestamp: u32, count: u8): (s: seq<u8>)
    ensures |s| == HEADER_SIZE
  {
    PutU32(MAGIC) + [VERSION, count, 0, 0] + PutU32(sequence) + PutU32(timestamp)
  }

  predicate Sendable(frames: seq<CanFrame>) {
    0 < |frames| <= MAX_FRAMES && forall i :: 0 <= i < |frames| ==> Carried(frames[i])
  }

  function Encode(p: Packet): Option<seq<u8>> {
    if Sendable(p.frames) then Some(Head(p.sequence, p.timestamp, |p.frames|) + Records(p.frames)) else None
  }

  method TunnelEncode(sequence: u32, timestamp: u32, frames: seq<CanFrame>) returns (ok: bool, buffer: seq<u8>)
    requires forall i :: 0 <= i < |frames| ==> |frames[i].data| == MAX_PAYLOAD
    ensures Encode(Packet(sequence, timestamp, frames)) == if ok then Some(buffer) else None
    ensures !ok ==> buffer == []
  {
    buffer := [];
    if frames == [] || |frames| > MAX_FRAMES {
      return false, buffer;
    }
    buffer := Head(sequence, timestamp, |frames|);
    hide Record, IsValid, Head;
    for n := 0 to |frames|
      invariant forall i :: 0 <= i < n ==> Carried(frames[i])
      invariant buffer == Head(sequence, timestamp, |frames|) + Records(frames[..n])
    {
      var frame := frames[n];
      if !IsValid(frame) || frame.length as nat > CLASSIC_MAX_PAYLOAD {
        return false, [];
      }
      var record := EncodeRecord(frame);
      assert frames[..n + 1][..n] == frames[..n];
      buffer := buffer + record;
    }
    assert frames[..|frames|] == frames;
    return true, buffer;
  }

  method EncodeRecord(frame: CanFrame) returns (buffer: seq<u8>)
    requires Carried(frame)
    ensures buffer == Record(frame)
  {
    buffer := PutU32(IdWord(frame));
    buffer := buffer + [frame.length];
    var flags: u8 := 0;
    if frame.fd {
      flags := flags + 1;
    }
    if frame.brs {
      flags := flags + 2;
    }
    buffer := buffer + [flags, 0, 0];
    ghost var front, tail: seq<u8> := buffer, [];
    for i := 0 to CLASSIC_MAX_PAYLOAD
      invariant buffer == front + tail && |tail| == i
      invariant forall j :: 0 <= j < i ==> tail[j] == if j < frame.length as nat then frame.data[j] else 0
    {
      var byte := if i < frame.length as nat then frame.data[i] else 0;
      tail := tail + [byte];
      buffer := buffer + [byte];
    }
    assert tail == frame.data[..frame.length] + Zeros(CLASSIC_MAX_PAYLOAD - frame.length as nat);
  }

  function DecodeRecord(s: seq<u8>, at: nat): Option<CanFrame>
    requires at + RECORD_SIZE <= |s|
  {
    var word := U32At(s, at) as nat;
    var extended := word >= EXTENDED_BIT;
    var length := s[at + 4];
    if length as nat > CLASSIC_MAX_PAYLOAD then None
    else
      var frame := CanFrame(word % (if extended then EXTENDED_IDS else STANDARD_IDS), length, extended,
                            s[at + 5] % 2 == 1, s[at + 5] / 2 % 2 == 1,
                            s[at + 8..at + 8 + length as nat] + Zeros(MAX_PAYLOAD - length as nat));
      if IsValid(frame) then Some(frame) else None
  }

  function DecodeRecords(s: seq<u8>, n: nat): (frames: Option<seq<CanFrame>>)
    requires |s| >= HEADER_SIZE + n * RECORD_SIZE
    ensures frames.Some? ==> |frames.value| == n
  {
    if n == 0 then Some([])
    else
      var before := DecodeRecords(s, n - 1);
      var last := DecodeRecord(s, HEADER_SIZE + (n - 1) * RECORD_SIZE);
      if before.Some? && last.Some? then Some(before.value + [last.value]) else None
  }

  function Decode(s: seq<u8>): Option<Packet> {
    if |s| < HEADER_SIZE || U32At(s, 0) != MAGIC || s[4] != VERSION then None
    else
      var count := s[5] as nat;
      if count == 0 || count > MAX_FRAMES || |s| != HEADER_SIZE + count * RECORD_SIZE then None
      else
        var frames := DecodeRecords(s, count);
        if frames.Some? then Some(Packet(U32At(s, 8), U32At(s, 12), frames.value)) else None
  }

  method TunnelDecode(s: seq<u8>) returns (packet: Option<Packet>)
    ensures packet == Decode(s)
  {
    if |s| < HEADER_SIZE || U32At(s, 0) != MAGIC {
      return None;
    }
    if s[4] != VERSION {
      return None;
    }
    var count := s[5] as nat;
    if count == 0 || count > MAX_FRAMES {
      return None;
    }
    if |s| != HEADER_SIZE + count * RECORD_SIZE {
      return None;
    }
    hide DecodeRecords, U32At;
    var frames := DecodeAll(s, count);
    if frames.None? {
      return None;
    }
    return Some(Packet(U32At(s, 8), U32At(s, 12), frames.value));
  }

  method DecodeAll(s: seq<u8>, count: nat) returns (frames: Option<seq<CanFrame>>)
    requires |s| >= HEADER_SIZE + count * RECORD_SIZE
    ensures frames == DecodeRecords(s, count)
  {
    hide DecodeRecord;
    var all: seq<CanFrame> := [];
    for n := 0 to count
      invariant DecodeRecords(s, n) == Some(all)
    {
      var frame := DecodeRecord(s, HEADER_SIZE + n * RECORD_SIZE);
      if frame.None? {
        NoFramesAfter(s, n + 1, count);
        return None;
      }
      all := all + [frame.value];
    }
    return Some(all);
  }

  lemma {:induction false} NoFramesAfter(s: seq<u8>, n: nat, count: nat)
    requires n <= count && |s| >= HEADER_SIZE + count * RECORD_SIZE && DecodeRecords(s, n).None?
    ensures DecodeRecords(s, count).None?
    decreases count
  {
    if n >= count {
    } else {
      NoFramesAfter(s, n, count - 1);
    }
  }

  // ---- round trip --------------------------------------------------------------------------

  /** What of a frame travels: its payload bytes, padded with zeros. */
  function Padded(f: CanFrame): CanFrame
    requires Carried(f)
  {
    f.(data := f.data[..f.length] + Zeros(MAX_PAYLOAD - f.length as nat))
  }

  lemma RecordRoundTrip(s: seq<u8>, at: nat, f: CanFrame)
    requires Carried(f) && at + RECORD_SIZE <= |s| && s[at..at + RECORD_SIZE] == Record(f)
    ensures DecodeRecord(s, at) == Some(Padded(f))
  {
    var r := s[at..at + RECORD_SIZE];
    assert r[..4] == PutU32(IdWord(f)) && s[at..at + 4] == r[..4];
    U32Inverse(s, at, IdWord(f));
    assert s[at + 4] == r[4] == f.length && s[at + 5] == r[5] == Flags(f);
    assert forall i :: 0 <= i < RECORD_SIZE ==> s[at + i] == r[i];
    assert forall i :: 0 <= i < f.length as nat ==> r[8 + i] == f.data[i];
    assert s[at + 8..at + 8 + f.length as nat] == f.data[..f.length];
    IdSurvives(f);
    hide PutU32, U32At;
  }

  lemma IdSurvives(f: CanFrame)
    requires IsValid(f)
    ensures IdWord(f) % (if f.extended then EXTENDED_IDS else STANDARD_IDS) == f.id && (IdWord(f) >= EXTENDED_BIT <==> f.extended)
    ensures Flags(f) % 2 == (if f.fd then 1 else 0) && Flags(f) / 2 % 2 == if f.brs then 1 else 0
  {
  }

  lemma {:induction false} RecordsRoundTrip(s: seq<u8>, frames: seq<CanFrame>)
    requires forall i :: 0 <= i < |frames| ==> Carried(frames[i])
    requires |s| >= HEADER_SIZE + RECORD_SIZE * |frames|
    requires s[HEADER_SIZE..HEADER_SIZE + RECORD_SIZE * |frames|] == Records(frames)
    ensures DecodeRecords(s, |frames|).Some?
    ensures forall i :: 0 <= i < |frames| ==> DecodeRecords(s, |frames|).value[i] == Padded(frames[i])
    decreases |frames|
  {
    hide Record, DecodeRecord, Padded, Carried;
    if frames == [] {
    } else {
      var before, last := frames[..|frames| - 1], frames[|frames| - 1];
      var at := HEADER_SIZE + RECORD_SIZE * |before|;
      var all := Records(frames);
      assert all[..RECORD_SIZE * |before|] == Records(before) && all[RECORD_SIZE * |before|..] == Record(last);
      assert s[HEADER_SIZE..at] == all[..RECORD_SIZE * |before|];
      assert s[at..at + RECORD_SIZE] == all[RECORD_SIZE * |before|..];
      RecordsRoundTrip(s, before);
      RecordRoundTrip(s, at, last);
    }
  }

  /** Decoding gives back the header and every frame, with its unused payload zeroed. */
  lemma TunnelRoundTrip(p: Packet)
    requires Sendable(p.frames)
    ensures Encode(p).Some? && Decode(Encode(p).value).Some?
    ensures var q := Decode(Encode(p).value).value;
            && q.sequence == p.sequence && q.timestamp == p.timestamp && |q.frames| == |p.frames|
            && forall i :: 0 <= i < |p.frames| ==> q.frames[i] == Padded(p.frames[i])
  {
    var s, head := Encode(p).value, Head(p.sequence, p.timestamp, |p.frames|);
    hide Records, Record, Padded, DecodeRecords, PutU32, U32At, Carried;
    HeadReads(s, p.sequence, p.timestamp, |p.frames|);
    assert s[HEADER_SIZE..HEADER_SIZE + RECORD_SIZE * |p.frames|] == Records(p.frames);
    RecordsRoundTrip(s, p.frames);
  }

  lemma HeadReads(s: seq<u8>, sequence: u32, timestamp: u32, count: u8)
    requires |s| >= HEADER_SIZE && s[..HEADER_SIZE] == Head(sequence, timestamp, count)
    ensures U32At(s, 0) == MAGIC && s[4] == VERSION && s[5] == count && U32At(s, 8) == sequence && U32At(s, 12) == timestamp
  {
    var h := s[..HEADER_SIZE];
    assert s[0..4] == h[0..4] == PutU32(MAGIC) && s[8..12] == h[8..12] == PutU32(sequence) && s[12..16] == h[12..16] == PutU32(timestamp);
    assert s[4] == h[4] && s[5] == h[5];
    hide PutU32, U32At;
    U32Inverse(s, 0, MAGIC);
    U32Inverse(s, 8, sequence);
    U32Inverse(s, 12, timestamp);
  }

  lemma DecodedRecordsAreCarried(s: seq<u8>, at: nat)
    requires at + RECORD_SIZE <= |s| && DecodeRecord(s, at).Some?
    ensures var f := DecodeRecord(s, at).value; Carried(f) && Padded(f) == f
  {
  }

  lemma {:induction false} DecodedFramesAreCarried(s: seq<u8>, n: nat, i: nat)
    requires |s| >= HEADER_SIZE + n * RECORD_SIZE && DecodeRecords(s, n).Some? && i < n
    ensures var f := DecodeRecords(s, n).value[i]; Carried(f) && Padded(f) == f
    decreases n
  {
    hide DecodeRecord, Carried, Padded;
    DecodedRecordsAreCarried(s, HEADER_SIZE + (n - 1) * RECORD_SIZE);
    if i >= n - 1 {
    } else {
      DecodedFramesAreCarried(s, n - 1, i);
    }
  }

  /** Whatever is accepted can be sent on, and means the same to the next receiver. */
  lemma AcceptedPacketsCanBeForwarded(s: seq<u8>)
    requires Decode(s).Some?
    ensures Encode(Decode(s).value).Some? && Decode(Encode(Decode(s).value).value) == Decode(s)
  {
    var p := Decode(s).value;
    var n := |p.frames|;
    forall i | 0 <= i < n ensures Carried(p.frames[i]) && Padded(p.frames[i]) == p.frames[i] {
      DecodedFramesAreCarried(s, n, i);
    }
    TunnelRoundTrip(p);
    hide Decode, Encode, Carried, Padded;
    var q := Decode(Encode(p).value).value;
    assert q.frames == p.frames;
  }
}

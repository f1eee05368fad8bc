/** A tunnel packet by its bytes, in plain arithmetic. */
module TunnelLayout {
  import opened Wrappers
  import opened Bytes
  import opened CanFrame
  import opened Tunnel

  /** The number in four bytes, high byte first. */
  function NumberAt(d: seq<u8>, at: nat): nat
    requires at + 4 <= |d|
  {
    d[at] as int * 0x100_0000 + d[at + 1] as int * 0x1_0000 + d[at + 2] as int * 0x100 + d[at + 3]
  }

  /** Bit 31 marks an extended identifier; the payload is padded to eight bytes with zeros. */
  predicate RecordOnWire(d: seq<u8>, at: nat, f: CanFrame) {
    && at + 16 <= |d| && |f.data| == 64
    && NumberAt(d, at) == f.id + (if f.extended then 0x8000_0000 else 0)
    && d[at + 4] == f.length && d[at + 5] == (if f.fd then 1 else 0) + (if f.brs then 2 else 0)
    && d[at + 6] == 0 && d[at + 7] == 0
    && forall i :: 0 <= i < 8 ==> d[at + 8 + i] == if i < f.length as int then f.data[i] else 0
  }

  /** "AVET", version 1, the count, two reserved bytes, the sequence number, the timestamp, the records. */
  predicate PacketOnWire(d: seq<u8>, p: Packet) {
    && |d| == 16 + 16 * |p.frames|
    && d[0] == 0x41 && d[1] == 0x56 && d[2] == 0x45 && d[3] == 0x54
    && d[4] == 1 && d[5] as int == |p.frames| && d[6] == 0 && d[7] == 0
    && NumberAt(d, 8) == p.sequence && NumberAt(d, 12) == p.timestamp
    && forall i :: 0 <= i < |p.frames| ==> RecordOnWire(d, 16 + 16 * i, p.frames[i])
  }

  /** What fits one record: an identifier of its width, no rate switch without FD, at most eight bytes. */
  predicate FitsRecord(f: CanFrame) {
    && f.id as int < (if f.extended then 0x2000_0000 else 0x800)
    && (f.brs ==> f.fd) && f.length <= 8 && |f.data| == 64
  }

  lemma RecordBytesOnWire(d: seq<u8>, at: nat, f: CanFrame)
    requires Carried(f) && at + 16 <= |d| && d[at..at + 16] == Record(f)
    ensures RecordOnWire(d, at, f)
  {
    var w := Record(f);
    assert w[0..4] == PutU32(IdWord(f)) && w[4] == f.length && w[5] == Flags(f) && w[6] == 0 && w[7] == 0;
    assert forall i :: 0 <= i < 8 ==> w[8 + i] == if i < f.length as int then f.data[i] else 0;
    hide PutU32, Record;
    assert forall i :: 0 <= i < 16 ==> d[at + i] == w[i];
    U32Codec(w, 0, IdWord(f));
  }

  lemma {:induction false} RecordInArray(frames: seq<CanFrame>, i: nat)
    requires i < |frames| && forall j :: 0 <= j < |frames| ==> Carried(frames[j])
    ensures Records(frames)[16 * i..16 * i + 16] == Record(frames[i])
    decreases |frames|
  {
    hide Record, Carried;
    var n := |frames| - 1;
    assert Records(frames)[..16 * n] == Records(frames[..n]);
    if i == n {
    } else {
      RecordInArray(frames[..n], i);
      assert Records(frames)[16 * i..16 * i + 16] == Records(frames[..n])[16 * i..16 * i + 16];
    }
  }

  lemma OneRecordOnWire(d: seq<u8>, frames: seq<CanFrame>, i: nat)
    requires i < |frames| && forall j :: 0 <= j < |frames| ==> Carried(frames[j])
    requires |d| == 16 + 16 * |frames| && d[16..] == Records(frames)
    ensures RecordOnWire(d, 16 + 16 * i, frames[i])
  {
    hide Record, Records, RecordOnWire, Carried;
    RecordInArray(frames, i);
    var a, b := d[16 + 16 * i..16 + 16 * i + 16], d[16..][16 * i..16 * i + 16];
    assert |a| == |b| && forall j :: 0 <= j < |a| ==> a[j] == b[j];
    RecordBytesOnWire(d, 16 + 16 * i, frames[i]);
  }

  lemma HeadOnWire(d: seq<u8>, sequence: u32, timestamp: u32, count: u8)
    requires |d| >= 16 && d[..16] == Head(sequence, timestamp, count)
    ensures d[0] == 0x41 && d[1] == 0x56 && d[2] == 0x45 && d[3] == 0x54
    ensures d[4] == 1 && d[5] == count && d[6] == 0 && d[7] == 0
    ensures NumberAt(d, 8) == sequence && NumberAt(d, 12) == timestamp
  {
    var w := Head(sequence, timestamp, count);
    assert w[0..4] == PutU32(0x4156_4554) && w[8..12] == PutU32(sequence) && w[12..16] == PutU32(timestamp);
    assert w[4] == 1 && w[5] == count && w[6] == 0 && w[7] == 0;
    hide PutU32, Head;
    assert forall i :: 0 <= i < 16 ==> d[i] == w[i];
    U32Codec(w, 0, 0x4156_4554);
    U32Codec(w, 8, sequence);
    U32Codec(w, 12, timestamp);
  }

  lemma CarriedExactly(f: CanFrame)
    ensures Carried(f) <==> FitsRecord(f)
  {
  }

  /** A batch is sent exactly if it has one to 64 frames that fit, and then these are its bytes. */
  lemma EncodedOnWire(p: Packet)
    ensures Encode(p).Some? <==> 1 <= |p.frames| <= 64 && forall i :: 0 <= i < |p.frames| ==> FitsRecord(p.frames[i])
    ensures Encode(p).Some? ==> PacketOnWire(Encode(p).value, p)
  {
    forall i | 0 <= i < |p.frames| ensures Carried(p.frames[i]) <==> FitsRecord(p.frames[i]) { CarriedExactly(p.frames[i]); }
    hide Carried, FitsRecord, Head, Records, RecordOnWire;
    if Sendable(p.frames) {
      var d := Encode(p).value;
      HeadOnWire(d, p.sequence, p.timestamp, |p.frames|);
      forall i | 0 <= i < |p.frames| ensures RecordOnWire(d, 16 + 16 * i, p.frames[i]) { OneRecordOnWire(d, p.frames, i); }
    }
  }

  // ---- reading -----------------------------------------------------------------------------

  /** One record is accepted exactly if its length is at most eight and the rate switch goes with FD; bits
      of the identifier word beyond the identifier's width are ignored. */
  lemma RecordReads(d: seq<u8>, at: nat)
    requires at + 16 <= |d|
    ensures DecodeRecord(d, at).Some? <==> d[at + 4] <= 8 && d[at + 5] % 4 != 2
    ensures DecodeRecord(d, at).Some? ==>
              var f := DecodeRecord(d, at).value;
              && (f.extended <==> d[at] >= 0x80) && f.id == NumberAt(d, at) % (if d[at] >= 0x80 then 0x2000_0000 else 0x800)
              && f.length == d[at + 4] && (f.fd <==> d[at + 5] % 2 == 1) && (f.brs <==> d[at + 5] % 4 >= 2)
              && |f.data| == 64 && forall i :: 0 <= i < 64 ==> f.data[i] == if i < d[at + 4] as int then d[at + 8 + i] else 0
  {
    U32Codec(d, at, U32At(d, at));
    TopBit(d, at);
    FlagBits(d[at + 5]);
    hide U32At, NumberAt;
  }

  lemma TopBit(d: seq<u8>, at: nat)
    requires at + 4 <= |d|
    ensures NumberAt(d, at) >= 0x8000_0000 <==> d[at] >= 0x80
  {
  }

  lemma FlagBits(flags: u8)
    ensures flags / 2 % 2 == 1 <==> flags % 4 >= 2
    ensures flags % 4 == 2 <==> flags % 2 == 0 && flags / 2 % 2 == 1
  {
  }

  lemma {:induction false} RecordsRead(d: seq<u8>, n: nat)
    requires |d| >= 16 + 16 * n
    ensures DecodeRecords(d, n).Some? <==> forall i :: 0 <= i < n ==> DecodeRecord(d, 16 + 16 * i).Some?
    ensures DecodeRecords(d, n).Some? ==> forall i :: 0 <= i < n ==> DecodeRecord(d, 16 + 16 * i) == Some(DecodeRecords(d, n).value[i])
    decreases n
  {
    hide DecodeRecord;
    if n == 0 {
    } else {
      RecordsRead(d, n - 1);
    }
  }

  /** A datagram is accepted exactly if magic, version, count and size are right and every record is. */
  lemma PacketReads(d: seq<u8>)
    ensures Decode(d).Some? <==>
              && |d| >= 16 && d[0] == 0x41 && d[1] == 0x56 && d[2] == 0x45 && d[3] == 0x54 && d[4] == 1
              && 1 <= d[5] <= 64 && |d| == 16 + 16 * d[5] as int
              && forall i :: 0 <= i < d[5] as int ==> DecodeRecord(d, 16 + 16 * i).Some?
    ensures Decode(d).Some? ==>
              var p := Decode(d).value;
              && |p.frames| == d[5] as int && p.sequence == NumberAt(d, 8) && p.timestamp == NumberAt(d, 12)
              && forall i :: 0 <= i < d[5] as int ==> DecodeRecord(d, 16 + 16 * i) == Some(p.frames[i])
  {
    hide U32At, DecodeRecord, DecodeRecords;
    if |d| >= 16 {
      U32Codec(d, 0, U32At(d, 0));
      U32Codec(d, 8, U32At(d, 8));
      U32Codec(d, 12, U32At(d, 12));
      if |d| == 16 + 16 * d[5] as int { RecordsRead(d, d[5] as int); }
    }
  }
}

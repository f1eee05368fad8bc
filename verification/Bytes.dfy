/** Fixed-width unsigned integers and their network-byte-order form, shared by both codecs. */
module Bytes {
  type u8 = x: int | 0 <= x < 0x100
  type u16 = x: int | 0 <= x < 0x1_0000
  type u24 = x: int | 0 <= x < 0x100_0000
  type u32 = x: int | 0 <= x < 0x1_0000_0000

  function PutU16(v: u16): (s: seq<u8>)
    ensures |s| == 2
  {
    [v / 0x100, v % 0x100]
  }

  function PutU24(v: u24): (s: seq<u8>)
    ensures |s| == 3
  {
    [v / 0x1_0000] + PutU16(v % 0x1_0000)
  }

  function PutU32(v: u32): (s: seq<u8>)
    ensures |s| == 4
  {
    PutU16(v / 0x1_0000) + PutU16(v % 0x1_0000)
  }

  function U16At(s: seq<u8>, at: nat): u16
    requires at + 2 <= |s|
  {
    s[at] as int * 0x100 + s[at + 1]
  }

  function U24At(s: seq<u8>, at: nat): u24
    requires at + 3 <= |s|
  {
    s[at] as int * 0x1_0000 + U16At(s, at + 1)
  }

  function U32At(s: seq<u8>, at: nat): u32
    requires at + 4 <= |s|
  {
    U16At(s, at) as int * 0x1_0000 + U16At(s, at + 2)
  }

  /** Where the bytes of `v` stand, the reader finds `v`; and nothing else reads as `v`. */
  lemma U16Inverse(s: seq<u8>, at: nat, v: u16)
    requires at + 2 <= |s|
    ensures s[at..at + 2] == PutU16(v) <==> U16At(s, at) == v
  {
    var w := s[at..at + 2];
    assert w[0] == s[at] && w[1] == s[at + 1];
    if U16At(s, at) == v {
      assert w == PutU16(v);
    }
  }

  lemma Split16(high: nat, low: u16)
    ensures (high * 0x1_0000 + low) / 0x1_0000 == high && (high * 0x1_0000 + low) % 0x1_0000 == low
  {
  }

  lemma U24Inverse(s: seq<u8>, at: nat, v: u24)
    requires at + 3 <= |s|
    ensures s[at..at + 3] == PutU24(v) <==> U24At(s, at) == v
  {
    hide PutU16, U16At;
    U16Inverse(s, at + 1, v % 0x1_0000);
    Split16(s[at], U16At(s, at + 1));
    var u, w := s[at..at + 3], PutU24(v);
    assert u[..1] == [s[at]] && u[1..] == s[at + 1..at + 3] && u == u[..1] + u[1..];
    assert w[..1] == [v / 0x1_0000] && w[1..] == PutU16(v % 0x1_0000);
  }

  lemma U32Inverse(s: seq<u8>, at: nat, v: u32)
    requires at + 4 <= |s|
    ensures s[at..at + 4] == PutU32(v) <==> U32At(s, at) == v
  {
    hide PutU16, U16At;
    U16Inverse(s, at, v / 0x1_0000);
    Split16(U16At(s, at), U16At(s, at + 2));
    U16Inverse(s, at + 2, v % 0x1_0000);
    var u, w := s[at..at + 4], PutU32(v);
    assert u[..2] == s[at..at + 2] && u[2..] == s[at + 2..at + 4] && u == u[..2] + u[2..];
    assert w[..2] == PutU16(v / 0x1_0000) && w[2..] == PutU16(v % 0x1_0000);
  }

  /** The bytes of a number stand high byte first; that is what is written and what is read. */
  lemma U16Codec(s: seq<u8>, at: nat, v: u16)
    requires at + 2 <= |s|
    ensures s[at..at + 2] == PutU16(v) <==> s[at] as int * 0x100 + s[at + 1] == v
    ensures U16At(s, at) == s[at] as int * 0x100 + s[at + 1]
  {
    hide PutU16;
    U16Inverse(s, at, v);
  }

  lemma U24Codec(s: seq<u8>, at: nat, v: u24)
    requires at + 3 <= |s|
    ensures s[at..at + 3] == PutU24(v) <==> s[at] as int * 0x1_0000 + s[at + 1] as int * 0x100 + s[at + 2] == v
    ensures U24At(s, at) == s[at] as int * 0x1_0000 + s[at + 1] as int * 0x100 + s[at + 2]
  {
    hide PutU24;
    U24Inverse(s, at, v);
  }

  lemma U32Codec(s: seq<u8>, at: nat, v: u32)
    requires at + 4 <= |s|
    ensures s[at..at + 4] == PutU32(v)
            <==> s[at] as int * 0x100_0000 + s[at + 1] as int * 0x1_0000 + s[at + 2] as int * 0x100 + s[at + 3] == v
    ensures U32At(s, at) == s[at] as int * 0x100_0000 + s[at + 1] as int * 0x1_0000 + s[at + 2] as int * 0x100 + s[at + 3]
  {
    hide PutU32;
    U32Inverse(s, at, v);
  }
}

/** One CAN or CAN-FD frame as software sees it. */
module CanFrame {
  import opened Wrappers
  import opened Bytes

  const MAX_PAYLOAD: nat := 64
  const CLASSIC_MAX_PAYLOAD: nat := 8
  const STANDARD_IDS: nat := 0x800
  const EXTENDED_IDS: nat := 0x2000_0000
  const FD_LENGTHS: seq<u8> := [12, 16, 20, 24, 32, 48, 64]

  /** `data` always has room for the longest payload. */
  datatype CanFrame = CanFrame(id: u32, length: u8, extended: bool, fd: bool, brs: bool, data: seq<u8>)

  function DlcToLength(dlc: u8, fd: bool): u8 {
    if dlc <= 8 then dlc else if !fd || dlc > 15 then 8 else FD_LENGTHS[dlc - 9]
  }

  function LengthToDlc(length: u8, fd: bool): Option<u8> {
    if length <= 8 then Some(length)
    else if !fd then None
    else if length == 12 then Some(9) else if length == 16 then Some(10) else if length == 20 then Some(11)
    else if length == 24 then Some(12) else if length == 32 then Some(13) else if length == 48 then Some(14)
    else if length == 64 then Some(15) else None
  }

  predicate IsValid(f: CanFrame) {
    f.id < (if f.extended then EXTENDED_IDS else STANDARD_IDS) && (f.brs ==> f.fd) && LengthToDlc(f.length, f.fd).Some?
  }

  /** The two code tables invert each other wherever a length can be encoded. */
  lemma DlcRoundTrip(length: u8, dlc: u8, fd: bool)
    requires dlc <= (if fd then 15 else 8)
    ensures LengthToDlc(length, fd) == Some(dlc) <==> DlcToLength(dlc, fd) == length
  {
    assert FD_LENGTHS[0] == 12 && FD_LENGTHS[1] == 16 && FD_LENGTHS[2] == 20 && FD_LENGTHS[3] == 24;
    assert FD_LENGTHS[4] == 32 && FD_LENGTHS[5] == 48 && FD_LENGTHS[6] == 64;
  }

  /** Up to eight bytes the code is the length; with FD there are seven longer lengths -- in steps of 4
      to 24, then 32, 48 and 64 -- and every other code means eight bytes. */
  lemma DlcMeans(dlc: u8, length: u8, fd: bool)
    ensures dlc <= 8 ==> DlcToLength(dlc, fd) == dlc
    ensures dlc > 8 && (!fd || dlc > 15) ==> DlcToLength(dlc, fd) == 8
    ensures fd && 8 < dlc <= 12 ==> DlcToLength(dlc, fd) as int == 24 - 4 * (12 - dlc as int)
    ensures fd && 13 <= dlc <= 15 ==> DlcToLength(dlc, fd) as int == if dlc == 13 then 32 else if dlc == 14 then 48 else 64
    ensures LengthToDlc(length, fd).Some? <==> length <= 8 || (fd && (length in {32, 48, 64} || (length <= 24 && length % 4 == 0)))
  {
    if fd && 8 < dlc <= 15 { DlcRoundTrip(DlcToLength(dlc, fd), dlc, fd); }
  }
}

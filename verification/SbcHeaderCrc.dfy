/** The CRC in the header check of an mSBC packet (`sco_parse_synchronization_header`), and the
    bit-serial CRC-8 of the SBC frame header (Appendix B of the A2DP specification) it stands for. */
module SbcHeaderCrc {
  import opened Helpers

  // ---------------------------------------------------------------------------------------------
  // Bit-serial CRC-8: polynomial 0x1D, most significant bit first
  // ---------------------------------------------------------------------------------------------

  const CRC_INIT: bv8 := 0x0F

  /** One message bit: the polynomial is fed back when the bit differs from the one shifted out. */
  function BitStep(fcs: bv8, bit: bool): bv8 {
    if (fcs & 0x80 != 0) != bit then (fcs << 1) ^ 0x1D else fcs << 1
  }

  function Crc(fcs: bv8, bits: seq<bool>): bv8
    decreases |bits|
  {
    if bits == [] then fcs else Crc(BitStep(fcs, bits[0]), bits[1..])
  }

  /** The bits of a byte, most significant first. */
  function Bits(b: bv8): (bits: seq<bool>)
    ensures |bits| == 8
  {
    [b & 0x80 != 0, b & 0x40 != 0, b & 0x20 != 0, b & 0x10 != 0,
     b & 0x08 != 0, b & 0x04 != 0, b & 0x02 != 0, b & 0x01 != 0]
  }

  lemma {:induction false} CrcAppend(fcs: bv8, a: seq<bool>, b: seq<bool>)
    ensures Crc(fcs, a + b) == Crc(Crc(fcs, a), b)
    decreases |a|
  {
    if a == [] {
      assert a + b == b;
    } else {
      assert (a + b)[1..] == a[1..] + b;
      CrcAppend(BitStep(fcs, a[0]), a[1..], b);
    }
  }

  // ---------------------------------------------------------------------------------------------
  // The table
  // ---------------------------------------------------------------------------------------------

  /** `sbc_crc_tbl`, one row of sixteen entries per high nibble. */
  function Table(x: bv8): bv8 {
    var hi, lo := x >> 4, x & 0xF;
    if hi == 0 then Row0(lo) else if hi == 1 then Row1(lo) else if hi == 2 then Row2(lo) else
    if hi == 3 then Row3(lo) else if hi == 4 then Row4(lo) else if hi == 5 then Row5(lo) else
    if hi == 6 then Row6(lo) else if hi == 7 then Row7(lo) else if hi == 8 then Row8(lo) else
    if hi == 9 then Row9(lo) else if hi == 10 then RowA(lo) else if hi == 11 then RowB(lo) else
    if hi == 12 then RowC(lo) else if hi == 13 then RowD(lo) else if hi == 14 then RowE(lo) else RowF(lo)
  }

  function Row0(lo: bv8): bv8 {
    if lo == 0 then 0x00 else if lo == 1 then 0x1D else if lo == 2 then 0x3A else if lo == 3 then 0x27 else
    if lo == 4 then 0x74 else if lo == 5 then 0x69 else if lo == 6 then 0x4E else if lo == 7 then 0x53 else
    if lo == 8 then 0xE8 else if lo == 9 then 0xF5 else if lo == 10 then 0xD2 else if lo == 11 then 0xCF else
    if lo == 12 then 0x9C else if lo == 13 then 0x81 else if lo == 14 then 0xA6 else 0xBB
  }

  function Row1(lo: bv8): bv8 {
    if lo == 0 then 0xCD else if lo == 1 then 0xD0 else if lo == 2 then 0xF7 else if lo == 3 then 0xEA else
    if lo == 4 then 0xB9 else if lo == 5 then 0xA4 else if lo == 6 then 0x83 else if lo == 7 then 0x9E else
    if lo == 8 then 0x25 else if lo == 9 then 0x38 else if lo == 10 then 0x1F else if lo == 11 then 0x02 else
    if lo == 12 then 0x51 else if lo == 13 then 0x4C else if lo == 14 then 0x6B else 0x76
  }

  function Row2(lo: bv8): bv8 {
    if lo == 0 then 0x87 else if lo == 1 then 0x9A else if lo == 2 then 0xBD else if lo == 3 then 0xA0 else
    if lo == 4 then 0xF3 else if lo == 5 then 0xEE else if lo == 6 then 0xC9 else if lo == 7 then 0xD4 else
    if lo == 8 then 0x6F else if lo == 9 then 0x72 else if lo == 10 then 0x55 else if lo == 11 then 0x48 else
    if lo == 12 then 0x1B else if lo == 13 then 0x06 else if lo == 14 then 0x21 else 0x3C
  }

  function Row3(lo: bv8): bv8 {
    if lo == 0 then 0x4A else if lo == 1 then 0x57 else if lo == 2 then 0x70 else if lo == 3 then 0x6D else
    if lo == 4 then 0x3E else if lo == 5 then 0x23 else if lo == 6 then 0x04 else if lo == 7 then 0x19 else
    if lo == 8 then 0xA2 else if lo == 9 then 0xBF else if lo == 10 then 0x98 else if lo == 11 then 0x85 else
    if lo == 12 then 0xD6 else if lo == 13 then 0xCB else if lo == 14 then 0xEC else 0xF1
  }

  function Row4(lo: bv8): bv8 {
    if lo == 0 then 0x13 else if lo == 1 then 0x0E else if lo == 2 then 0x29 else if lo == 3 then 0x34 else
    if lo == 4 then 0x67 else if lo == 5 then 0x7A else if lo == 6 then 0x5D else if lo == 7 then 0x40 else
    if lo == 8 then 0xFB else if lo == 9 then 0xE6 else if lo == 10 then 0xC1 else if lo == 11 then 0xDC else
    if lo == 12 then 0x8F else if lo == 13 then 0x92 else if lo == 14 then 0xB5 else 0xA8
  }

  function Row5(lo: bv8): bv8 {
    if lo == 0 then 0xDE else if lo == 1 then 0xC3 else if lo == 2 then 0xE4 else if lo == 3 then 0xF9 else
    if lo == 4 then 0xAA else if lo == 5 then 0xB7 else if lo == 6 then 0x90 else if lo == 7 then 0x8D else
    if lo == 8 then 0x36 else if lo == 9 then 0x2B else if lo == 10 then 0x0C else if lo == 11 then 0x11 else
    if lo == 12 then 0x42 else if lo == 13 then 0x5F else if lo == 14 then 0x78 else 0x65
  }

  function Row6(lo: bv8): bv8 {
    if lo == 0 then 0x94 else if lo == 1 then 0x89 else if lo == 2 then 0xAE else if lo == 3 then 0xB3 else
    if lo == 4 then 0xE0 else if lo == 5 then 0xFD else if lo == 6 then 0xDA else if lo == 7 then 0xC7 else
    if lo == 8 then 0x7C else if lo == 9 then 0x61 else if lo == 10 then 0x46 else if lo == 11 then 0x5B else
    if lo == 12 then 0x08 else if lo == 13 then 0x15 else if lo == 14 then 0x32 else 0x2F
  }

  function Row7(lo: bv8): bv8 {
    if lo == 0 then 0x59 else if lo == 1 then 0x44 else if lo == 2 then 0x63 else if lo == 3 then 0x7E else
    if lo == 4 then 0x2D else if lo == 5 then 0x30 else if lo == 6 then 0x17 else if lo == 7 then 0x0A else
    if lo == 8 then 0xB1 else if lo == 9 then 0xAC else if lo == 10 then 0x8B else if lo == 11 then 0x96 else
    if lo == 12 then 0xC5 else if lo == 13 then 0xD8 else if lo == 14 then 0xFF else 0xE2
  }

  function Row8(lo: bv8): bv8 {
    if lo == 0 then 0x26 else if lo == 1 then 0x3B else if lo == 2 then 0x1C else if lo == 3 then 0x01 else
    if lo == 4 then 0x52 else if lo == 5 then 0x4F else if lo == 6 then 0x68 else if lo == 7 then 0x75 else
    if lo == 8 then 0xCE else if lo == 9 then 0xD3 else if lo == 10 then 0xF4 else if lo == 11 then 0xE9 else
    if lo == 12 then 0xBA else if lo == 13 then 0xA7 else if lo == 14 then 0x80 else 0x9D
  }

  function Row9(lo: bv8): bv8 {
    if lo == 0 then 0xEB else if lo == 1 then 0xF6 else if lo == 2 then 0xD1 else if lo == 3 then 0xCC else
    if lo == 4 then 0x9F else if lo == 5 then 0x82 else if lo == 6 then 0xA5 else if lo == 7 then 0xB8 else
    if lo == 8 then 0x03 else if lo == 9 then 0x1E else if lo == 10 then 0x39 else if lo == 11 then 0x24 else
    if lo == 12 then 0x77 else if lo == 13 then 0x6A else if lo == 14 then 0x4D else 0x50
  }

  function RowA(lo: bv8): bv8 {
    if lo == 0 then 0xA1 else if lo == 1 then 0xBC else if lo == 2 then 0x9B else if lo == 3 then 0x86 else
    if lo == 4 then 0xD5 else if lo == 5 then 0xC8 else if lo == 6 then 0xEF else if lo == 7 then 0xF2 else
    if lo == 8 then 0x49 else if lo == 9 then 0x54 else if lo == 10 then 0x73 else if lo == 11 then 0x6E else
    if lo == 12 then 0x3D else if lo == 13 then 0x20 else if lo == 14 then 0x07 else 0x1A
  }

  function RowB(lo: bv8): bv8 {
    if lo == 0 then 0x6C else if lo == 1 then 0x71 else if lo == 2 then 0x56 else if lo == 3 then 0x4B else
    if lo == 4 then 0x18 else if lo == 5 then 0x05 else if lo == 6 then 0x22 else if lo == 7 then 0x3F else
    if lo == 8 then 0x84 else if lo == 9 then 0x99 else if lo == 10 then 0xBE else if lo == 11 then 0xA3 else
    if lo == 12 then 0xF0 else if lo == 13 then 0xED else if lo == 14 then 0xCA else 0xD7
  }

  function RowC(lo: bv8): bv8 {
    if lo == 0 then 0x35 else if lo == 1 then 0x28 else if lo == 2 then 0x0F else if lo == 3 then 0x12 else
    if lo == 4 then 0x41 else if lo == 5 then 0x5C else if lo == 6 then 0x7B else if lo == 7 then 0x66 else
    if lo == 8 then 0xDD else if lo == 9 then 0xC0 else if lo == 10 then 0xE7 else if lo == 11 then 0xFA else
    if lo == 12 then 0xA9 else if lo == 13 then 0xB4 else if lo == 14 then 0x93 else 0x8E
  }

  function RowD(lo: bv8): bv8 {
    if lo == 0 then 0xF8 else if lo == 1 then 0xE5 else if lo == 2 then 0xC2 else if lo == 3 then 0xDF else
    if lo == 4 then 0x8C else if lo == 5 then 0x91 else if lo == 6 then 0xB6 else if lo == 7 then 0xAB else
    if lo == 8 then 0x10 else if lo == 9 then 0x0D else if lo == 10 then 0x2A else if lo == 11 then 0x37 else
    if lo == 12 then 0x64 else if lo == 13 then 0x79 else if lo == 14 then 0x5E else 0x43
  }

  function RowE(lo: bv8): bv8 {
    if lo == 0 then 0xB2 else if lo == 1 then 0xAF else if lo == 2 then 0x88 else if lo == 3 then 0x95 else
    if lo == 4 then 0xC6 else if lo == 5 then 0xDB else if lo == 6 then 0xFC else if lo == 7 then 0xE1 else
    if lo == 8 then 0x5A else if lo == 9 then 0x47 else if lo == 10 then 0x60 else if lo == 11 then 0x7D else
    if lo == 12 then 0x2E else if lo == 13 then 0x33 else if lo == 14 then 0x14 else 0x09
  }

  function RowF(lo: bv8): bv8 {
    if lo == 0 then 0x7F else if lo == 1 then 0x62 else if lo == 2 then 0x45 else if lo == 3 then 0x58 else
    if lo == 4 then 0x0B else if lo == 5 then 0x16 else if lo == 6 then 0x31 else if lo == 7 then 0x2C else
    if lo == 8 then 0x97 else if lo == 9 then 0x8A else if lo == 10 then 0xAD else if lo == 11 then 0xB0 else
    if lo == 12 then 0xE3 else if lo == 13 then 0xFE else if lo == 14 then 0xD9 else 0xC4
  }

  function Four(fcs: bv8, b0: bool, b1: bool, b2: bool, b3: bool): bv8 {
    BitStep(BitStep(BitStep(BitStep(fcs, b0), b1), b2), b3)
  }

  function Eight(fcs: bv8, b: bv8): bv8 {
    var s := Bits(b);
    BitStep(BitStep(BitStep(BitStep(
      BitStep(BitStep(BitStep(BitStep(fcs, s[0]), s[1]), s[2]), s[3]), s[4]), s[5]), s[6]), s[7])
  }

  lemma CrcFour(fcs: bv8, m: seq<bool>)
    requires |m| == 4
    ensures Crc(fcs, m) == Four(fcs, m[0], m[1], m[2], m[3])
  {
    var r := BitStep(BitStep(fcs, m[0]), m[1]);
    assert Crc(fcs, m) == Crc(r, m[1..][1..]);
    assert Crc(r, m[1..][1..]) == Crc(BitStep(BitStep(r, m[2]), m[3]), m[1..][1..][1..][1..]);
  }

  lemma CrcEight(fcs: bv8, m: seq<bool>)
    requires |m| == 8
    ensures Crc(fcs, m) == Four(Four(fcs, m[0], m[1], m[2], m[3]), m[4], m[5], m[6], m[7])
  {
    CrcFour(fcs, m[..4]);
    CrcFour(Four(fcs, m[0], m[1], m[2], m[3]), m[4..]);
    CrcAppend(fcs, m[..4], m[4..]);
    assert m[..4] + m[4..] == m;
  }

  lemma TableRows(x: bv8)
    ensures Table(x) == Four(Four(x, false, false, false, false), false, false, false, false)
  {
  }

  /** A byte added to the register and shifted out enters like its eight bits fed in. */
  lemma ByteEnters(fcs: bv8, b: bv8)
    ensures Eight(fcs ^ b, 0) == Eight(fcs, b)
  {
  }

  /** One table step is eight bit steps, for every register and every byte. */
  lemma TableStep(fcs: bv8, b: bv8)
    ensures Table(fcs ^ b) == Crc(fcs, Bits(b))
  {
    TableRows(fcs ^ b);
    ByteEnters(fcs, b);
    CrcEight(fcs, Bits(b));
  }

  // ---------------------------------------------------------------------------------------------
  // Bursts
  // ---------------------------------------------------------------------------------------------

  lemma BitStepInjective(x: bv8, y: bv8, bit: bool)
    requires BitStep(x, bit) == BitStep(y, bit)
    ensures x == y
  {
  }

  lemma {:induction false} CrcInjective(x: bv8, y: bv8, bits: seq<bool>)
    requires Crc(x, bits) == Crc(y, bits)
    ensures x == y
    decreases |bits|
  {
    if bits != [] {
      CrcInjective(BitStep(x, bits[0]), BitStep(y, bits[0]), bits[1..]);
      BitStepInjective(x, y, bits[0]);
    }
  }

  /** Eight bits fed into one register: different bytes leave different registers. */
  lemma ByteInjective(fcs: bv8, a: bv8, b: bv8)
    requires Crc(fcs, Bits(a)) == Crc(fcs, Bits(b))
    ensures a == b
  {
    TableStep(fcs, a);
    TableStep(fcs, b);
    TableRows(fcs ^ a);
    TableRows(fcs ^ b);
    FourInjective(Four(fcs ^ a, false, false, false, false), Four(fcs ^ b, false, false, false, false));
    FourInjective(fcs ^ a, fcs ^ b);
    XorCancels(fcs, a, b);
  }

  lemma FourInjective(x: bv8, y: bv8)
    requires Four(x, false, false, false, false) == Four(y, false, false, false, false)
    ensures x == y
  {
    var x1, y1 := BitStep(x, false), BitStep(y, false);
    var x2, y2 := BitStep(x1, false), BitStep(y1, false);
    var x3, y3 := BitStep(x2, false), BitStep(y2, false);
    BitStepInjective(x3, y3, false);
    BitStepInjective(x2, y2, false);
    BitStepInjective(x1, y1, false);
    BitStepInjective(x, y, false);
  }

  lemma XorCancels(fcs: bv8, a: bv8, b: bv8)
    requires fcs ^ a == fcs ^ b
    ensures a == b
  {
  }

  function ToByte(m: seq<bool>): bv8
    requires |m| == 8
  {
    (if m[0] then 0x80 else 0) | (if m[1] then 0x40 else 0) | (if m[2] then 0x20 else 0) | (if m[3] then 0x10 else 0)
    | (if m[4] then 0x08 else 0) | (if m[5] then 0x04 else 0) | (if m[6] then 0x02 else 0) | (if m[7] then 0x01 else 0)
  }

  lemma ToByteBits(m: seq<bool>)
    requires |m| == 8
    ensures Bits(ToByte(m)) == m
  {
  }

  /** Two messages that differ, but only within eight consecutive bits. */
  ghost predicate DifferByBurst(m: seq<bool>, n: seq<bool>, at: nat) {
    && |m| == |n| && at + 8 <= |m| && m != n
    && m[..at] == n[..at] && m[at + 8..] == n[at + 8..]
  }

  /** The CRC tells any two such messages apart, of any length and from any register. */
  lemma BurstDetected(fcs: bv8, m: seq<bool>, n: seq<bool>, at: nat)
    requires DifferByBurst(m, n, at)
    ensures Crc(fcs, m) != Crc(fcs, n)
  {
    var a, b := m[at..at + 8], n[at..at + 8];
    assert m == m[..at] + a + m[at + 8..] && n == n[..at] + b + n[at + 8..];
    var r := Crc(fcs, m[..at]);
    CrcSplit(fcs, m[..at], a, m[at + 8..]);
    CrcSplit(fcs, n[..at], b, n[at + 8..]);
    if Crc(fcs, m) == Crc(fcs, n) {
      CrcInjective(Crc(r, a), Crc(r, b), m[at + 8..]);
      ToByteBits(a);
      ToByteBits(b);
      ByteInjective(r, ToByte(a), ToByte(b));
      assert false;
    }
  }

  lemma CrcSplit(fcs: bv8, a: seq<bool>, b: seq<bool>, c: seq<bool>)
    ensures Crc(fcs, a + b + c) == Crc(Crc(Crc(fcs, a), b), c)
  {
    CrcAppend(fcs, a + b, c);
    CrcAppend(fcs, a, b);
  }

  // ---------------------------------------------------------------------------------------------
  // The header check
  // ---------------------------------------------------------------------------------------------

  datatype Header = Sn(sn: bv8) | Err(code: int)

  function MessageBits(bytes: seq<bv8>): seq<bool> {
    if bytes == [] then [] else MessageBits(bytes[..|bytes| - 1]) + Bits(bytes[|bytes| - 1])
  }

  /** The bytes the CRC covers: the two zero bytes behind the sync word and the four behind the CRC. */
  function Covered(buf: seq<bv8>): seq<bv8>
    requires |buf| >= 10
  {
    [buf[3], buf[4], buf[6], buf[7], buf[8], buf[9]]
  }

  predicate SyncWord(buf: seq<bv8>)
    requires |buf| >= 10
  {
    buf[0] == 0x01 && buf[1] & 0x0f == 0x08 && buf[2] == 0xad
  }

  function Sn1(b: bv8): bv8 {
    (b & 0x30) >> 4
  }

  function Sn2(b: bv8): bv8 {
    (b & 0xc0) >> 6
  }

  predicate CrcPasses(buf: seq<bv8>)
    requires |buf| >= 10
  {
    buf[3] == 0 && buf[4] == 0 && buf[5] == Crc(CRC_INIT, MessageBits(Covered(buf)))
  }

  /** What the header check decides, with the bit-serial CRC in place of the table. */
  function CheckHeader(buf: seq<bv8>): Header
    requires |buf| >= 10
  {
    if !SyncWord(buf) then Err(-1)
    else if Sn1(buf[1]) != 0 && Sn1(buf[1]) != 3 then Err(-2)
    else if Sn2(buf[1]) != 0 && Sn2(buf[1]) != 3 then Err(-3)
    else if !CrcPasses(buf) then Err(-4)
    else Sn((Sn1(buf[1]) & 0x01) | (Sn2(buf[1]) & 0x02))
  }

  lemma MessageStep(bytes: seq<bv8>, b: bv8)
    ensures Table(Crc(CRC_INIT, MessageBits(bytes)) ^ b) == Crc(CRC_INIT, MessageBits(bytes + [b]))
  {
    MessageBitsSnoc(bytes, b);
    hide Crc, Table, Bits, MessageBits;
    TableStep(Crc(CRC_INIT, MessageBits(bytes)), b);
    CrcAppend(CRC_INIT, MessageBits(bytes), Bits(b));
  }

  lemma MessageBitsSnoc(bytes: seq<bv8>, b: bv8)
    ensures MessageBits(bytes + [b]) == MessageBits(bytes) + Bits(b)
  {
    hide Bits;
    assert (bytes + [b])[..|bytes|] == bytes;
  }

  lemma CoveredIs(buf: seq<bv8>)
    requires |buf| >= 10
    ensures Covered(buf) == [buf[3], buf[4]] + buf[6..10]
  {
  }

  /** The loop of the header check: byte by byte it sums bytes 6 to 9, and its four-bit branch is
      never reached. */
  method SumHeader(buf: seq<bv8>, start: bv8) returns (fcs: bv8)
    requires |buf| >= 10 && start == Crc(CRC_INIT, MessageBits([buf[3], buf[4]]))
    ensures fcs == Crc(CRC_INIT, MessageBits(Covered(buf)))
  {
    fcs := start;
    ghost var done := [buf[3], buf[4]];
    var ind, bitOffset, sb := 6, 24, 0;
    while sb < 8
      invariant 0 <= sb <= 8 && bitOffset == 24 + 4 * sb && ind == 6 + sb / 2
      invariant done == [buf[3], buf[4]] + buf[6..ind]
      invariant fcs == Crc(CRC_INIT, MessageBits(done))
    {
      if bitOffset % 8 != 0 {
        MessageStep(done, buf[ind]);
        fcs, done := Table(fcs ^ buf[ind]), done + [buf[ind]];
        ind := ind + 1;
      } else {
        if sb == 7 {
          // four more bits would be summed here, but the last round has an odd bit offset
          assert false;
        }
      }
      bitOffset := bitOffset + 4;
      sb := sb + 1;
    }
    CoveredIs(buf);
  }

  /** The CRC part of the header check. */
  method CheckCrc(buf: seq<bv8>) returns (passes: bool)
    requires |buf| >= 10
    ensures passes <==> CrcPasses(buf)
  {
    MessageStep([], buf[3]);
    var fcs := Table(CRC_INIT ^ buf[3]);
    if buf[3] != 0x00 {
      return false;
    }
    MessageStep([buf[3]], buf[4]);
    fcs := Table(fcs ^ buf[4]);
    if buf[4] != 0x00 {
      return false;
    }
    assert [] + [buf[3]] == [buf[3]] && [buf[3]] + [buf[4]] == [buf[3], buf[4]];
    fcs := SumHeader(buf, fcs);
    return buf[5] == fcs;
  }

  /** `sco_parse_synchronization_header`: the table-driven check is the bit-serial one. */
  method ParseHeader(buf: seq<bv8>) returns (ret: int, sn: bv8)
    requires |buf| >= 10
    ensures match CheckHeader(buf)
            case Sn(n) => ret == 0 && sn == n
            case Err(code) => ret == code && sn == 0xff
  {
    sn := 0xff;
    if buf[0] != 0x01 || buf[1] & 0x0f != 0x08 || buf[2] != 0xad {
      return -1, sn;
    }
    var sn1 := (buf[1] & 0x30) >> 4;
    var sn2 := (buf[1] & 0xc0) >> 6;
    if sn1 != 0 && sn1 != 0x3 {
      return -2, sn;
    }
    if sn2 != 0 && sn2 != 0x3 {
      return -3, sn;
    }
    var passes := CheckCrc(buf);
    if !passes {
      return -4, sn;
    }
    return 0, (sn1 & 0x01) | (sn2 & 0x02);
  }

  /** Two headers that pass the check with the same CRC byte cannot differ, in the bytes behind it, by
      a burst of at most eight bits. */
  lemma HeadersWithBurstNotBothAccepted(x: seq<bv8>, y: seq<bv8>, at: nat)
    requires |x| >= 10 && |y| >= 10 && x[5] == y[5]
    requires DifferByBurst(MessageBits(x[6..10]), MessageBits(y[6..10]), at)
    ensures CheckHeader(x).Err? || CheckHeader(y).Err?
  {
    if CheckHeader(x).Sn? && CheckHeader(y).Sn? {
      var head: seq<bv8> := [0, 0];
      assert Covered(x) == head + x[6..10] && Covered(y) == head + y[6..10];
      MessageAppend(head, x[6..10]);
      MessageAppend(head, y[6..10]);
      var r := Crc(CRC_INIT, MessageBits(head));
      CrcAppend(CRC_INIT, MessageBits(head), MessageBits(x[6..10]));
      CrcAppend(CRC_INIT, MessageBits(head), MessageBits(y[6..10]));
      BurstDetected(r, MessageBits(x[6..10]), MessageBits(y[6..10]), at);
      assert false;
    }
  }

  lemma {:induction false} MessageAppend(a: seq<bv8>, b: seq<bv8>)
    ensures MessageBits(a + b) == MessageBits(a) + MessageBits(b)
  {
    if b == [] {
      assert a + b == a;
    } else {
      assert (a + b)[..|a + b| - 1] == a + b[..|b| - 1];
      MessageAppend(a, b[..|b| - 1]);
    }
  }

  // ---------------------------------------------------------------------------------------------
  // A packet of the firmware's own
  // ---------------------------------------------------------------------------------------------

  /** The silent packet that is put into the transmit FIFO: header and first bytes, and the rest. */
  const MUTE_HEAD: seq<bv8> := [0x01, 0x38, 0xad, 0x00, 0x00, 0xc5, 0x00, 0x00, 0x00, 0x00, 0x77, 0x6d]

  const MUTE_TAIL: seq<bv8> :=
    [0xb6, 0xdd, 0xdb, 0x6d, 0xb7, 0x76, 0xdb, 0x6d, 0xdd, 0xb6, 0xdb, 0x77, 0x6d, 0xb6, 0xdd, 0xdb,
     0x6d, 0xb7, 0x76, 0xdb, 0x6d, 0xdd, 0xb6, 0xdb, 0x77, 0x6d, 0xb6, 0xdd, 0xdb, 0x6d, 0xb7, 0x76,
     0xdb, 0x6d, 0xdd, 0xb6, 0xdb, 0x77, 0x6d, 0xb6, 0xdd, 0xdb, 0x6d, 0xb7, 0x76, 0xdb, 0x6c, 0x00]

  function AfterZeros(n: nat): bv8 {
    Crc(CRC_INIT, MessageBits(Repeat(0, n)))
  }

  lemma OneMoreZero(n: nat)
    ensures AfterZeros(n + 1) == Table(AfterZeros(n))
  {
    MessageStep(Repeat(0, n), 0);
    hide Crc, MessageBits, Table;
    assert AfterZeros(n) ^ 0 == AfterZeros(n);
  }

  lemma NoZeros()
    ensures AfterZeros(0) == 0x0F
  {
  }

  /** Six zero bytes from the start value 0x0F on leave 0xC5 in the register. */
  lemma CrcOfZeros()
    ensures AfterZeros(6) == 0xC5
  {
    hide AfterZeros;
    NoZeros();
    OneMoreZero(0);
    OneMoreZero(1);
    OneMoreZero(2);
    OneMoreZero(3);
    OneMoreZero(4);
    OneMoreZero(5);
  }

  /** The header check accepts it, as number 1. */
  lemma MutePacketPasses()
    ensures |MUTE_HEAD + MUTE_TAIL| == 60 && CheckHeader(MUTE_HEAD + MUTE_TAIL) == Sn(1)
  {
    CrcOfZeros();
    hide Crc, MessageBits, Repeat;
    assert Repeat(0, 6) == [0 as bv8, 0, 0, 0, 0, 0];
    assert Covered(MUTE_HEAD + MUTE_TAIL) == [0, 0, 0, 0, 0, 0];
  }
}

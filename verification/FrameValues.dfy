/** Known values that fix the constants, the byte order and the bit order of the codec. */
module FrameValues {
  import opened Bytes
  import opened Crc32
  import opened Frames

  // ---------- The letter a ----------

  lemma BitsOfLetterA()
    ensures Bits([0x61]) == [true, false, false, false, false, true, true, false]
  {
    assert LowBits(0, 1) == [false];
    assert LowBits(1, 2) == [true] + LowBits(0, 1);
    assert LowBits(3, 3) == [true] + LowBits(1, 2);
    assert LowBits(6, 4) == [false] + LowBits(3, 3);
    assert LowBits(12, 5) == [false] + LowBits(6, 4);
    assert LowBits(24, 6) == [false] + LowBits(12, 5);
    assert LowBits(48, 7) == [false] + LowBits(24, 6);
    assert LowBits(97, 8) == [true] + LowBits(48, 7);
    assert [0x61][1..] == [] && Bits([]) == [];
  }

  lemma StepsOfLetterA()
    ensures Step(0xFFFF_FFFF, true) == 0x7FFF_FFFF && Step(0x7FFF_FFFF, false) == 0xD247_7CDF
    ensures Step(0xD247_7CDF, false) == 0x849B_3D4F && Step(0x849B_3D4F, false) == 0xAFF5_1D87
    ensures Step(0xAFF5_1D87, false) == 0xBA42_0DE3 && Step(0xBA42_0DE3, true) == 0x5D21_06F1
    ensures Step(0x5D21_06F1, true) == 0x2E90_8378 && Step(0x2E90_8378, false) == 0x1748_41BC
  {
  }

  /** The checksum of the one-letter message "a" is E8B7BE43. */
  lemma ChecksumOfLetterA()
    ensures Register([0x61]) == 0xE8B7_BE43
  {
    hide Fold, Step, Bits;
    BitsOfLetterA();
    StepsOfLetterA();
    EightBits(Step, 0xFFFF_FFFF, true, false, false, false, false, true, true, false);
  }

  lemma OneBit<R>(step: (R, bool) -> R, r: R, b: bool, rest: seq<bool>)
    ensures Fold(step, r, [b] + rest) == Fold(step, step(r, b), rest)
    ensures Fold(step, r, []) == r
  {
    assert ([b] + rest)[1..] == rest;
  }

  lemma FourBits<R>(step: (R, bool) -> R, r: R, b0: bool, b1: bool, b2: bool, b3: bool)
    ensures Fold(step, r, [b0, b1, b2, b3]) == step(step(step(step(r, b0), b1), b2), b3)
  {
    hide Fold;
    assert [b0, b1, b2, b3] == [b0] + [b1, b2, b3] && [b1, b2, b3] == [b1] + [b2, b3];
    assert [b2, b3] == [b2] + [b3] && [b3] == [b3] + [];
    OneBit(step, r, b0, [b1, b2, b3]);
    OneBit(step, step(r, b0), b1, [b2, b3]);
    OneBit(step, step(step(r, b0), b1), b2, [b3]);
    OneBit(step, step(step(step(r, b0), b1), b2), b3, []);
    OneBit(step, step(step(step(step(r, b0), b1), b2), b3), b3, []);
  }

  lemma EightBits<R>(step: (R, bool) -> R, r: R, b0: bool, b1: bool, b2: bool, b3: bool, b4: bool, b5: bool, b6: bool,
                     b7: bool)
    ensures Fold(step, r, [b0, b1, b2, b3, b4, b5, b6, b7])
         == step(step(step(step(step(step(step(step(r, b0), b1), b2), b3), b4), b5), b6), b7)
  {
    hide Fold;
    FourBits(step, r, b0, b1, b2, b3);
    FourBits(step, step(step(step(step(r, b0), b1), b2), b3), b4, b5, b6, b7);
    FoldConcat(step, r, [b0, b1, b2, b3], [b4, b5, b6, b7]);
    assert [b0, b1, b2, b3] + [b4, b5, b6, b7] == [b0, b1, b2, b3, b4, b5, b6, b7];
  }

  // ---------- The PING frame with sequence number 1 ----------

  lemma BitsOfSmallBytes()
    ensures LowBits(1, 8) == [true, false, false, false, false, false, false, false]
    ensures LowBits(0, 8) == [false, false, false, false, false, false, false, false]
  {
    assert LowBits(0, 1) == [false];
    assert LowBits(0, 2) == [false] + LowBits(0, 1);
    assert LowBits(0, 3) == [false] + LowBits(0, 2);
    assert LowBits(0, 4) == [false] + LowBits(0, 3);
    assert LowBits(0, 5) == [false] + LowBits(0, 4);
    assert LowBits(0, 6) == [false] + LowBits(0, 5);
    assert LowBits(0, 7) == [false] + LowBits(0, 6);
    assert LowBits(0, 8) == [false] + LowBits(0, 7);
    assert LowBits(1, 8) == [true] + LowBits(0, 7);
  }

  lemma PingByte1()
    ensures Fold(Step, 0xFFFF_FFFF, LowBits(1, 8)) == 0x5AFA_20E4
  {
    hide Fold, LowBits;
    BitsOfSmallBytes();
    EightBits(Step, 0xFFFF_FFFF, true, false, false, false, false, false, false, false);
    assert Step(0xFFFF_FFFF, true) == 0x7FFF_FFFF;
    assert Step(0x7FFF_FFFF, false) == 0xD247_7CDF;
    assert Step(0xD247_7CDF, false) == 0x849B_3D4F;
    assert Step(0x849B_3D4F, false) == 0xAFF5_1D87;
    assert Step(0xAFF5_1D87, false) == 0xBA42_0DE3;
    assert Step(0xBA42_0DE3, false) == 0xB099_85D1;
    assert Step(0xB099_85D1, false) == 0xB5F4_41C8;
    assert Step(0xB5F4_41C8, false) == 0x5AFA_20E4;
  }

  lemma PingByte2()
    ensures Fold(Step, 0x5AFA_20E4, LowBits(1, 8)) == 0xD03A_ECD7
  {
    hide Fold, LowBits;
    BitsOfSmallBytes();
    EightBits(Step, 0x5AFA_20E4, true, false, false, false, false, false, false, false);
    assert Step(0x5AFA_20E4, true) == 0xC0C5_9352;
    assert Step(0xC0C5_9352, false) == 0x6062_C9A9;
    assert Step(0x6062_C9A9, false) == 0xDD89_E7F4;
    assert Step(0xDD89_E7F4, false) == 0x6EC4_F3FA;
    assert Step(0x6EC4_F3FA, false) == 0x3762_79FD;
    assert Step(0x3762_79FD, false) == 0xF609_BFDE;
    assert Step(0xF609_BFDE, false) == 0x7B04_DFEF;
    assert Step(0x7B04_DFEF, false) == 0xD03A_ECD7;
  }

  lemma PingByte3()
    ensures Fold(Step, 0xD03A_ECD7, LowBits(0, 8)) == 0x1867_7D9B
  {
    hide Fold, LowBits;
    BitsOfSmallBytes();
    EightBits(Step, 0xD03A_ECD7, false, false, false, false, false, false, false, false);
    assert Step(0xD03A_ECD7, false) == 0x85A5_F54B;
    assert Step(0x85A5_F54B, false) == 0xAF6A_7985;
    assert Step(0xAF6A_7985, false) == 0xBA0D_BFE2;
    assert Step(0xBA0D_BFE2, false) == 0x5D06_DFF1;
    assert Step(0x5D06_DFF1, false) == 0xC33B_ECD8;
    assert Step(0xC33B_ECD8, false) == 0x619D_F66C;
    assert Step(0x619D_F66C, false) == 0x30CE_FB36;
    assert Step(0x30CE_FB36, false) == 0x1867_7D9B;
  }

  lemma PingByte4()
    ensures Fold(Step, 0x1867_7D9B, LowBits(1, 8)) == 0x10C2_1D27
  {
    hide Fold, LowBits;
    BitsOfSmallBytes();
    EightBits(Step, 0x1867_7D9B, true, false, false, false, false, false, false, false);
    assert Step(0x1867_7D9B, true) == 0x0C33_BECD;
    assert Step(0x0C33_BECD, false) == 0xEBA1_5C46;
    assert Step(0xEBA1_5C46, false) == 0x75D0_AE23;
    assert Step(0x75D0_AE23, false) == 0xD750_D431;
    assert Step(0xD750_D431, false) == 0x8610_E938;
    assert Step(0x8610_E938, false) == 0x4308_749C;
    assert Step(0x4308_749C, false) == 0x2184_3A4E;
    assert Step(0x2184_3A4E, false) == 0x10C2_1D27;
  }

  /** The checksum of the four bytes that the PING frame with sequence number 1 puts before its payload. */
  lemma RegisterOfPing()
    ensures Register([1, 1, 0, 1]) == 0xEF3D_E2D8
  {
    hide Fold, LowBits, Bits;
    var s := [1, 1, 0, 1];
    BitsSplit(s);
    BitsSplit(s[1..]);
    BitsSplit(s[2..]);
    BitsSplit(s[3..]);
    NoBytesNoBits(s[4..]);
    assert s[1..][1..] == s[2..] && s[2..][1..] == s[3..] && s[3..][1..] == s[4..];
    FoldConcat(Step, 0xFFFF_FFFF, LowBits(1, 8), Bits(s[1..]));
    FoldConcat(Step, 0x5AFA_20E4, LowBits(1, 8), Bits(s[2..]));
    FoldConcat(Step, 0xD03A_ECD7, LowBits(0, 8), Bits(s[3..]));
    FoldConcat(Step, 0x1867_7D9B, LowBits(1, 8), Bits(s[4..]));
    assert Bits(s) == LowBits(1, 8) + Bits(s[1..]) && Bits(s[1..]) == LowBits(1, 8) + Bits(s[2..]);
    assert Bits(s[2..]) == LowBits(0, 8) + Bits(s[3..]) && Bits(s[3..]) == LowBits(1, 8) + Bits(s[4..]);
    PingByte1();
    PingByte2();
    PingByte3();
    PingByte4();
    OneBit(Step, 0x10C2_1D27, false, []);
  }

  lemma NoBytesNoBits(s: seq<byte>)
    requires s == []
    ensures Bits(s) == []
  {
  }

  lemma NextBit(c: bv32, d: bv32, b: bool, k: nat)
    requires d == c >> 1 && b == (c & 1 == 1)
    ensures RegisterBits(c, k + 1) == [b] + RegisterBits(d, k)
    ensures RegisterBits(c, 0) == []
  {
  }

  lemma FourInFront(s0: seq<bool>, s1: seq<bool>, s2: seq<bool>, s3: seq<bool>, s4: seq<bool>,
                    b0: bool, b1: bool, b2: bool, b3: bool)
    requires s0 == [b0] + s1 && s1 == [b1] + s2 && s2 == [b2] + s3 && s3 == [b3] + s4
    ensures s0 == [b0, b1, b2, b3] + s4
  {
  }

  /** Four bits of a register, which is then as in the next lines. */
  lemma FourBitsOut(c0: bv32, c1: bv32, c2: bv32, c3: bv32, c4: bv32, b0: bool, b1: bool, b2: bool, b3: bool, k: nat)
    requires c1 == c0 >> 1 && c2 == c1 >> 1 && c3 == c2 >> 1 && c4 == c3 >> 1
    requires b0 == (c0 & 1 == 1) && b1 == (c1 & 1 == 1) && b2 == (c2 & 1 == 1) && b3 == (c3 & 1 == 1)
    ensures RegisterBits(c0, k + 4) == [b0, b1, b2, b3] + RegisterBits(c4, k)
  {
    hide RegisterBits;
    NextBit(c0, c1, b0, k + 3);
    NextBit(c1, c2, b1, k + 2);
    NextBit(c2, c3, b2, k + 1);
    NextBit(c3, c4, b3, k);
    FourInFront(RegisterBits(c0, k + 4), RegisterBits(c1, k + 3), RegisterBits(c2, k + 2), RegisterBits(c3, k + 1),
                RegisterBits(c4, k), b0, b1, b2, b3);
  }

  lemma OneMoreValue(b: bool, rest: seq<bool>)
    ensures ValueOf([b] + rest) == (if b then 1 else 0) + 2 * ValueOf(rest)
  {
    assert ([b] + rest)[1..] == rest;
  }

  lemma FourMoreValues(b0: bool, b1: bool, b2: bool, b3: bool, rest: seq<bool>)
    ensures ValueOf([b0, b1, b2, b3] + rest)
         == (if b0 then 1 else 0) + (if b1 then 2 else 0) + (if b2 then 4 else 0) + (if b3 then 8 else 0)
          + 16 * ValueOf(rest)
  {
    hide ValueOf;
    var s3 := [b3] + rest;
    var s2 := [b2] + s3;
    var s1 := [b1] + s2;
    OneMoreValue(b3, rest);
    OneMoreValue(b2, s3);
    OneMoreValue(b1, s2);
    OneMoreValue(b0, s1);
    FourInFront([b0] + s1, s1, s2, s3, rest, b0, b1, b2, b3);
  }

  lemma ByteOfEight(b0: bool, b1: bool, b2: bool, b3: bool, b4: bool, b5: bool, b6: bool, b7: bool)
    ensures ByteOfBits([b0, b1, b2, b3, b4, b5, b6, b7])
         == (if b0 then 1 else 0) + (if b1 then 2 else 0) + (if b2 then 4 else 0) + (if b3 then 8 else 0)
          + (if b4 then 16 else 0) + (if b5 then 32 else 0) + (if b6 then 64 else 0) + (if b7 then 128 else 0)
  {
    hide ValueOf;
    FourMoreValues(b0, b1, b2, b3, [b4, b5, b6, b7]);
    FourMoreValues(b4, b5, b6, b7, []);
    NoValue();
    assert [b0, b1, b2, b3] + [b4, b5, b6, b7] == [b0, b1, b2, b3, b4, b5, b6, b7];
    assert [b4, b5, b6, b7] + [] == [b4, b5, b6, b7];
  }

  lemma NoValue()
    ensures ValueOf([]) == 0
  {
  }

  /** The byte in the low eight bits of a register. */
  lemma ByteOut(c: bv32, mid: bv32, d: bv32, k: nat, b0: bool, b1: bool, b2: bool, b3: bool, b4: bool, b5: bool,
                b6: bool, b7: bool)
    requires RegisterBits(c, k + 8) == [b0, b1, b2, b3] + RegisterBits(mid, k + 4)
    requires RegisterBits(mid, k + 4) == [b4, b5, b6, b7] + RegisterBits(d, k)
    ensures RegisterBits(c, k + 8) == [b0, b1, b2, b3, b4, b5, b6, b7] + RegisterBits(d, k)
  {
    hide RegisterBits;
  }

  lemma FourBytes(x: seq<bool>, a: seq<bool>, b: seq<bool>, c: seq<bool>, d: seq<bool>)
    requires |a| == |b| == |c| == |d| == 8 && x == a + (b + (c + d))
    ensures |x| == 32 && BytesOfWord(x) == [ByteOfBits(d), ByteOfBits(c), ByteOfBits(b), ByteOfBits(a)]
  {
    hide ByteOfBits;
    assert x[0..8] == a && x[8..16] == b && x[16..24] == c && x[24..32] == d;
  }

  lemma PingRegisterByte1()
    ensures RegisterBits(0xEF3D_E2D8, 32)
             == [false, false, false, true, true, false, true, true] + RegisterBits(0x00EF_3DE2, 24)
    ensures ByteOfBits([false, false, false, true, true, false, true, true]) == 0xD8
  {
    hide RegisterBits, ByteOfBits;
    FourBitsOut(0xEF3D_E2D8, 0x779E_F16C, 0x3BCF_78B6, 0x1DE7_BC5B, 0x0EF3_DE2D,
                false, false, false, true, 28);
    FourBitsOut(0x0EF3_DE2D, 0x0779_EF16, 0x03BC_F78B, 0x01DE_7BC5, 0x00EF_3DE2,
                true, false, true, true, 24);
    ByteOut(0xEF3D_E2D8, 0x0EF3_DE2D, 0x00EF_3DE2, 24, false, false, false, true, true, false, true, true);
    ByteOfEight(false, false, false, true, true, false, true, true);
  }

  lemma PingRegisterByte2()
    ensures RegisterBits(0x00EF_3DE2, 24)
             == [false, true, false, false, false, true, true, true] + RegisterBits(0x0000_EF3D, 16)
    ensures ByteOfBits([false, true, false, false, false, true, true, true]) == 0xE2
  {
    hide RegisterBits, ByteOfBits;
    FourBitsOut(0x00EF_3DE2, 0x0077_9EF1, 0x003B_CF78, 0x001D_E7BC, 0x000E_F3DE,
                false, true, false, false, 20);
    FourBitsOut(0x000E_F3DE, 0x0007_79EF, 0x0003_BCF7, 0x0001_DE7B, 0x0000_EF3D,
                false, true, true, true, 16);
    ByteOut(0x00EF_3DE2, 0x000E_F3DE, 0x0000_EF3D, 16, false, true, false, false, false, true, true, true);
    ByteOfEight(false, true, false, false, false, true, true, true);
  }

  lemma PingRegisterByte3()
    ensures RegisterBits(0x0000_EF3D, 16)
             == [true, false, true, true, true, true, false, false] + RegisterBits(0x0000_00EF, 8)
    ensures ByteOfBits([true, false, true, true, true, true, false, false]) == 0x3D
  {
    hide RegisterBits, ByteOfBits;
    FourBitsOut(0x0000_EF3D, 0x0000_779E, 0x0000_3BCF, 0x0000_1DE7, 0x0000_0EF3,
                true, false, true, true, 12);
    FourBitsOut(0x0000_0EF3, 0x0000_0779, 0x0000_03BC, 0x0000_01DE, 0x0000_00EF,
                true, true, false, false, 8);
    ByteOut(0x0000_EF3D, 0x0000_0EF3, 0x0000_00EF, 8, true, false, true, true, true, true, false, false);
    ByteOfEight(true, false, true, true, true, true, false, false);
  }

  lemma PingRegisterByte4()
    ensures RegisterBits(0x0000_00EF, 8)
             == [true, true, true, true, false, true, true, true] + RegisterBits(0x0000_0000, 0)
    ensures ByteOfBits([true, true, true, true, false, true, true, true]) == 0xEF
  {
    hide RegisterBits, ByteOfBits;
    FourBitsOut(0x0000_00EF, 0x0000_0077, 0x0000_003B, 0x0000_001D, 0x0000_000E,
                true, true, true, true, 4);
    FourBitsOut(0x0000_000E, 0x0000_0007, 0x0000_0003, 0x0000_0001, 0x0000_0000,
                false, true, true, true, 0);
    ByteOut(0x0000_00EF, 0x0000_000E, 0x0000_0000, 0, true, true, true, true, false, true, true, true);
    ByteOfEight(true, true, true, true, false, true, true, true);
  }

  /** The checksum of that PING frame as the four bytes of its CRC field. */
  lemma ChecksumOfPing()
    ensures Checksum([1, 1, 0, 1]) == [0xEF, 0x3D, 0xE2, 0xD8]
  {
    hide Register, RegisterBits, ByteOfBits;
    RegisterOfPing();
    PingRegisterByte1();
    PingRegisterByte2();
    PingRegisterByte3();
    PingRegisterByte4();
    NextBit(0, 0, false, 0);
    FourBytes(RegisterBits(0xEF3D_E2D8, 32), [false, false, false, true, true, false, true, true],
              [false, true, false, false, false, true, true, true],
              [true, false, true, true, true, true, false, false], [true, true, true, true, false, true, true, true]);
  }

  /** A whole frame on the wire. */
  lemma WireOfPing()
    ensures Encode(NewFrame(1, 1, [])) == [0x02, 0x54, 0x57, 1, 0, 0, 1, 0, 1, 0, 0xEF, 0x3D, 0xE2, 0xD8, 0x03]
  {
    hide Checksum;
    ChecksumOfPing();
    assert Covered(NewFrame(1, 1, [])) == [1, 1, 0, 1];
  }

  /** Every field in its place, most significant byte first, and the codes of the four types. */
  lemma WireOfFields(payload: seq<byte>, c0: byte, c1: byte, c2: byte, c3: byte)
    requires |payload| == 0x0304
    ensures Encode(Frame(5, 6, 0x0708, payload, [c0, c1, c2, c3]))
         == [0x02, 0x54, 0x57, 5, 3, 4, 6, 7, 8, 0] + payload + [c0, c1, c2, c3, 0x03]
    ensures PING == 1 && PONG == 2 && DATA == 3 && CLOSE == 4
  {
  }
}

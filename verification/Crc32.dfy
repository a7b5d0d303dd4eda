/** CRC-32 (IEEE polynomial, reflected; section 8 of RFC 1952) in its bit-serial form, and what it detects. */
module Crc32 {
  import opened Bytes

  const POLY: bv32 := 0xEDB8_8320

  /** One message bit: it is added to the low end of the register, which then shifts and divides by the polynomial. */
  function Step(c: bv32, bit: bool): bv32 {
    (c >> 1) ^ (if (c & 1 == 1) != bit then POLY else 0)
  }

  function Fold<R>(step: (R, bool) -> R, r: R, bits: seq<bool>): R
    decreases |bits|
  {
    if bits == [] then r else Fold(step, step(r, bits[0]), bits[1..])
  }

  /** The bits of a message in the order the register takes them: least significant first in each byte. */
  function Bits(s: seq<byte>): (bits: seq<bool>)
    ensures |bits| == 8 * |s|
    decreases |s|
  {
    if s == [] then [] else LowBits(s[0], 8) + Bits(s[1..])
  }

  function Register(s: seq<byte>): bv32 {
    Fold(Step, 0xFFFF_FFFF, Bits(s)) ^ 0xFFFF_FFFF
  }

  /** The low k bits of a register, least significant first. */
  function RegisterBits(c: bv32, k: nat): (bits: seq<bool>)
    ensures |bits| == k
    decreases k
  {
    if k == 0 then [] else [c & 1 == 1] + RegisterBits(c >> 1, k - 1)
  }

  /** The checksum as the four bytes that a frame carries, most significant first. */
  function Checksum(s: seq<byte>): (c: seq<byte>)
    ensures |c| == 4
  {
    BytesOfWord(RegisterBits(Register(s), 32))
  }

  // ---------- Registers and messages are determined by their bits ----------

  function ShiftOut(c: bv32, k: nat): bv32
    decreases k
  {
    if k == 0 then c else ShiftOut(c >> 1, k - 1)
  }

  lemma FourShifts(c: bv32, k: nat)
    ensures ShiftOut(c, k + 4) == ShiftOut(c >> 4, k)
  {
    assert ShiftOut(c >> 1, k + 3) == ShiftOut(c >> 1 >> 1, k + 2);
    assert ShiftOut(c >> 1 >> 1, k + 2) == ShiftOut(c >> 1 >> 1 >> 1, k + 1);
    assert ShiftOut(c >> 1 >> 1 >> 1, k + 1) == ShiftOut(c >> 1 >> 1 >> 1 >> 1, k);
  }

  lemma NothingLeftAfter32(c: bv32)
    ensures ShiftOut(c, 32) == 0
  {
    FourShifts(c, 28);
    FourShifts(c >> 4, 24);
    FourShifts(c >> 4 >> 4, 20);
    FourShifts(c >> 4 >> 4 >> 4, 16);
    FourShifts(c >> 4 >> 4 >> 4 >> 4, 12);
    FourShifts(c >> 4 >> 4 >> 4 >> 4 >> 4, 8);
    FourShifts(c >> 4 >> 4 >> 4 >> 4 >> 4 >> 4, 4);
    FourShifts(c >> 4 >> 4 >> 4 >> 4 >> 4 >> 4 >> 4, 0);
    AllShiftedOut(c);
  }

  lemma AllShiftedOut(c: bv32)
    ensures c >> 4 >> 4 >> 4 >> 4 >> 4 >> 4 >> 4 >> 4 == 0
  {
  }

  lemma ParityAndHalf(c: bv32, d: bv32)
    requires c >> 1 == d >> 1 && (c & 1 == 1) == (d & 1 == 1)
    ensures c == d
  {
  }

  lemma FirstBit(c: bv32, k: nat)
    requires k > 0
    ensures RegisterBits(c, k)[0] == (c & 1 == 1) && RegisterBits(c, k)[1..] == RegisterBits(c >> 1, k - 1)
  {
  }

  lemma NoShift(c: bv32)
    ensures ShiftOut(c, 0) == c
  {
  }

  lemma OneShift(c: bv32, k: nat)
    requires k > 0
    ensures ShiftOut(c, k) == ShiftOut(c >> 1, k - 1)
  {
  }

  lemma {:induction false} RegisterBitsInjective(c: bv32, d: bv32, k: nat)
    requires RegisterBits(c, k) == RegisterBits(d, k) && ShiftOut(c, k) == ShiftOut(d, k)
    ensures c == d
    decreases k
  {
    hide RegisterBits, ShiftOut;
    if k == 0 {
      NoShift(c);
      NoShift(d);
    } else {
      OneShift(c, k);
      OneShift(d, k);
      FirstBit(c, k);
      FirstBit(d, k);
      RegisterBitsInjective(c >> 1, d >> 1, k - 1);
      ParityAndHalf(c, d);
    }
  }

  lemma BitsSplit(s: seq<byte>)
    requires s != []
    ensures Bits(s)[..8] == LowBits(s[0], 8) && Bits(s)[8..] == Bits(s[1..])
  {
    hide LowBits;
  }

  lemma {:induction false} BitsInjective(s: seq<byte>, t: seq<byte>)
    requires Bits(s) == Bits(t)
    ensures s == t
    decreases |s|
  {
    hide LowBits, Bits, ByteOfBits;
    assert |Bits(s)| == 8 * |s| && |Bits(t)| == 8 * |t|;
    if s != [] {
      BitsSplit(s);
      BitsSplit(t);
      ByteOfLowBits(s[0]);
      ByteOfLowBits(t[0]);
      BitsInjective(s[1..], t[1..]);
      assert s == [s[0]] + s[1..] && t == [t[0]] + t[1..];
    }
  }

  lemma {:induction false} BitsConcat(s: seq<byte>, t: seq<byte>)
    ensures Bits(s + t) == Bits(s) + Bits(t)
    decreases |s|
  {
    if s == [] {
      assert s + t == t;
    } else {
      assert (s + t)[0] == s[0] && (s + t)[1..] == s[1..] + t;
      BitsConcat(s[1..], t);
    }
  }

  // ---------- Folding bits into any register ----------

  lemma {:induction false} FoldConcat<R>(step: (R, bool) -> R, r: R, u: seq<bool>, v: seq<bool>)
    ensures Fold(step, r, u + v) == Fold(step, Fold(step, r, u), v)
    decreases |u|
  {
    if u == [] {
      assert u + v == v;
    } else {
      assert (u + v)[0] == u[0] && (u + v)[1..] == u[1..] + v;
      FoldConcat(step, step(r, u[0]), u[1..], v);
    }
  }

  /** Registers never merge while they take the same bits, when no single step merges two. */
  lemma {:induction false} FoldInjective<R(!new)>(step: (R, bool) -> R, c: R, d: R, bits: seq<bool>)
    requires forall x, y, bit :: step(x, bit) == step(y, bit) ==> x == y
    requires Fold(step, c, bits) == Fold(step, d, bits)
    ensures c == d
    decreases |bits|
  {
    if bits != [] {
      FoldInjective(step, step(c, bits[0]), step(d, bits[0]), bits[1..]);
    }
  }

  /** near(n, _, _) weakens by one each step back, and a step back from near registers tells equal registers' bits. */
  ghost predicate StepsBack<R(!new)>(step: (R, bool) -> R, near: (nat, R, R) -> bool, width: nat) {
    && (forall c :: near(0, c, c))
    && (forall n: nat, c, d, p: bool, q: bool {:trigger near(n, step(c, p), step(d, q))} ::
          n < width && near(n, step(c, p), step(d, q)) ==> near(n + 1, c, d) && (c == d ==> p == q))
  }

  lemma OneStepBack<R(!new)>(step: (R, bool) -> R, near: (nat, R, R) -> bool, width: nat,
                             n: nat, c: R, d: R, p: bool, q: bool)
    requires StepsBack(step, near, width) && n < width && near(n, step(c, p), step(d, q))
    ensures near(n + 1, c, d) && (c == d ==> p == q)
  {
  }

  /** If n bits bring two registers together, the registers were near to degree n. */
  lemma {:induction false} MeetingRegistersAreNear<R(!new)>(step: (R, bool) -> R, near: (nat, R, R) -> bool, width: nat,
                                                            c: R, d: R, u: seq<bool>, v: seq<bool>)
    requires StepsBack(step, near, width)
    requires |u| == |v| <= width && Fold(step, c, u) == Fold(step, d, v)
    ensures near(|u|, c, d)
    decreases |u|
  {
    if u != [] {
      var n: nat := |u| - 1;
      MeetingRegistersAreNear(step, near, width, step(c, u[0]), step(d, v[0]), u[1..], v[1..]);
      OneStepBack(step, near, width, n, c, d, u[0], v[0]);
    }
  }

  /** From one register, different strings of at most `width` bits lead to different registers. */
  lemma {:induction false} ShortStringsAreToldApart<R(!new)>(step: (R, bool) -> R, near: (nat, R, R) -> bool,
                                                             width: nat,
                                                             c: R, u: seq<bool>, v: seq<bool>)
    requires StepsBack(step, near, width)
    requires |u| == |v| <= width && Fold(step, c, u) == Fold(step, c, v)
    ensures u == v
    decreases |u|
  {
    if u != [] {
      var n: nat := |u| - 1;
      MeetingRegistersAreNear(step, near, width, step(c, u[0]), step(c, v[0]), u[1..], v[1..]);
      OneStepBack(step, near, width, n, c, c, u[0], v[0]);
      ShortStringsAreToldApart(step, near, width, step(c, u[0]), u[1..], v[1..]);
      assert u == [u[0]] + u[1..] && v == [v[0]] + v[1..];
    }
  }

  // ---------- The CRC register ----------

  /** All bits but the low n. */
  function High(n: nat): bv32
    decreases n
  {
    if n == 0 then 0xFFFF_FFFF else High(n - 1) << 1
  }

  predicate SameHigh(n: nat, c: bv32, d: bv32) {
    c & High(n) == d & High(n)
  }

  predicate Contiguous(m: bv32) {
    m | (m << 1) == m
  }

  lemma ContiguousShift(m: bv32)
    requires Contiguous(m)
    ensures Contiguous(m << 1)
  {
  }

  lemma {:induction false} HighIsContiguous(n: nat)
    ensures Contiguous(High(n))
    decreases n
  {
    if n > 0 {
      HighIsContiguous(n - 1);
      ContiguousShift(High(n - 1));
    }
  }

  lemma HighOf31()
    ensures High(31) == 0x8000_0000
  {
    assert High(8) == 0xFFFF_FF00;
    assert High(16) == 0xFFFF_0000;
    assert High(24) == 0xFF00_0000;
  }

  lemma {:induction false} HighIsNotZero(n: nat)
    requires n <= 31
    ensures High(n) != 0
    decreases 31 - n
  {
    if n == 31 {
      HighOf31();
    } else {
      HighIsNotZero(n + 1);
      ZeroShifts(High(n));
    }
  }

  lemma ZeroShifts(m: bv32)
    requires m << 1 != 0
    ensures m != 0
  {
  }

  lemma ContiguousReachesTop(m: bv32)
    requires Contiguous(m) && m != 0
    ensures m & 0x8000_0000 != 0
  {
  }

  /** The top bit of the next register tells what the low end was, because the polynomial has its top bit set. */
  lemma LowEndFromTop(c: bv32, d: bv32, p: bool, q: bool, m: bv32)
    requires m & 0x8000_0000 != 0 && Step(c, p) & m == Step(d, q) & m
    ensures ((c & 1 == 1) != p) == ((d & 1 == 1) != q)
  {
  }

  lemma RestFromNext(c: bv32, d: bv32, p: bool, q: bool, m: bv32, m': bv32)
    requires ((c & 1 == 1) != p) == ((d & 1 == 1) != q)
    requires m & 0x8000_0000 != 0 && Step(c, p) & m == Step(d, q) & m && m' == m << 1
    ensures c & m' == d & m'
  {
  }

  lemma MaskedStepBack(c: bv32, d: bv32, p: bool, q: bool, m: bv32, m': bv32)
    requires m & 0x8000_0000 != 0 && Step(c, p) & m == Step(d, q) & m && m' == m << 1
    ensures c & m' == d & m' && (c == d ==> p == q)
  {
    LowEndFromTop(c, d, p, q, m);
    RestFromNext(c, d, p, q, m, m');
  }

  lemma SameHighStepsBack(n: nat, c: bv32, d: bv32, p: bool, q: bool)
    requires n < 32 && SameHigh(n, Step(c, p), Step(d, q))
    ensures SameHigh(n + 1, c, d) && (c == d ==> p == q)
  {
    HighIsContiguous(n);
    HighIsNotZero(n);
    ContiguousReachesTop(High(n));
    MaskedStepBack(c, d, p, q, High(n), High(n + 1));
  }

  lemma StepInjective(c: bv32, d: bv32, bit: bool)
    requires Step(c, bit) == Step(d, bit)
    ensures c == d
  {
  }

  lemma StepIsInjective()
    ensures forall c, d, bit :: Step(c, bit) == Step(d, bit) ==> c == d
  {
    forall c: bv32, d: bv32, bit | Step(c, bit) == Step(d, bit) ensures c == d {
      StepInjective(c, d, bit);
    }
  }

  lemma StepStepsBack()
    ensures StepsBack(Step, SameHigh, 32)
  {
    forall n: nat, c, d, p, q | n < 32 && SameHigh(n, Step(c, p), Step(d, q))
      ensures SameHigh(n + 1, c, d) && (c == d ==> p == q)
    {
      SameHighStepsBack(n, c, d, p, q);
    }
  }

  // ---------- What the checksum detects ----------

  lemma XorInjective(x: bv32, y: bv32, m: bv32)
    requires x ^ m == y ^ m
    ensures x == y
  {
  }

  /** Two equally long bit strings that differ inside a window of 32 bits only never lead to one register. */
  lemma BurstNeverCancels<R(!new)>(step: (R, bool) -> R, near: (nat, R, R) -> bool, width: nat,
                                   c: R, p: seq<bool>, u: seq<bool>, v: seq<bool>, q: seq<bool>)
    requires forall x, y, bit :: step(x, bit) == step(y, bit) ==> x == y
    requires StepsBack(step, near, width)
    requires |u| == |v| <= width && u != v
    ensures Fold(step, c, p + (u + q)) != Fold(step, c, p + (v + q))
  {
    FoldConcat(step, c, p, u + q);
    FoldConcat(step, c, p, v + q);
    var d := Fold(step, c, p);
    FoldConcat(step, d, u, q);
    FoldConcat(step, d, v, q);
    if Fold(step, c, p + (u + q)) == Fold(step, c, p + (v + q)) {
      FoldInjective(step, Fold(step, d, u), Fold(step, d, v), q);
      ShortStringsAreToldApart(step, near, width, d, u, v);
    }
  }

  /** Strings that agree outside a window, cut around it. */
  lemma CutAroundWindow(x: seq<bool>, y: seq<bool>, start: nat, width: nat)
    returns (p: seq<bool>, u: seq<bool>, v: seq<bool>, q: seq<bool>)
    requires |x| == |y| && x != y
    requires forall i :: 0 <= i < |x| && !(start <= i < start + width) ==> x[i] == y[i]
    ensures x == p + (u + q) && y == p + (v + q) && |u| == |v| <= width && u != v
  {
    var a := if start < |x| then start else |x|;
    var b := if start + width < |x| then start + width else |x|;
    p, u, v, q := x[..a], x[a..b], y[a..b], x[b..];
    assert x == p + (u + q);
    assert y == y[..a] + (v + y[b..]);
    assert p == y[..a] && q == y[b..];
  }

  /** Burst detection: a change confined to 32 consecutive bits, wherever they start, changes the checksum. */
  lemma BurstChangesChecksum(s: seq<byte>, t: seq<byte>, start: nat)
    requires |s| == |t| && s != t
    requires forall i :: 0 <= i < 8 * |s| && !(start <= i < start + 32) ==> Bits(s)[i] == Bits(t)[i]
    ensures Checksum(s) != Checksum(t)
  {
    if Bits(s) == Bits(t) {
      BitsInjective(s, t);
    }
    var p, u, v, q := CutAroundWindow(Bits(s), Bits(t), start, 32);
    StepIsInjective();
    StepStepsBack();
    BurstNeverCancels(Step, SameHigh, 32, 0xFFFF_FFFF, p, u, v, q);
    ChecksumsDiffer(s, t);
  }

  lemma ChecksumsDiffer(s: seq<byte>, t: seq<byte>)
    requires Fold(Step, 0xFFFF_FFFF, Bits(s)) != Fold(Step, 0xFFFF_FFFF, Bits(t))
    ensures Checksum(s) != Checksum(t)
  {
    if Register(s) == Register(t) {
      XorInjective(Fold(Step, 0xFFFF_FFFF, Bits(s)), Fold(Step, 0xFFFF_FFFF, Bits(t)), 0xFFFF_FFFF);
    }
    NothingLeftAfter32(Register(s));
    NothingLeftAfter32(Register(t));
    if Checksum(s) == Checksum(t) {
      BytesOfWordInjective(RegisterBits(Register(s), 32), RegisterBits(Register(t), 32));
      RegisterBitsInjective(Register(s), Register(t), 32);
    }
  }

  lemma BitsAroundMiddle(p: seq<byte>, u: seq<byte>, q: seq<byte>)
    ensures Bits(p + u + q) == Bits(p) + (Bits(u) + Bits(q))
  {
    assert p + u + q == p + (u + q);
    BitsConcat(p, u + q);
    BitsConcat(u, q);
  }

  /** In bytes: a change confined to four consecutive bytes changes the checksum. */
  lemma FourByteBurstChangesChecksum(p: seq<byte>, u: seq<byte>, v: seq<byte>, q: seq<byte>)
    requires |u| == |v| <= 4 && u != v
    ensures Checksum(p + u + q) != Checksum(p + v + q)
  {
    BitsAroundMiddle(p, u, q);
    BitsAroundMiddle(p, v, q);
    if Bits(u) == Bits(v) {
      BitsInjective(u, v);
    }
    StepIsInjective();
    StepStepsBack();
    BurstNeverCancels(Step, SameHigh, 32, 0xFFFF_FFFF, Bits(p), Bits(u), Bits(v), Bits(q));
    ChecksumsDiffer(p + u + q, p + v + q);
  }
}

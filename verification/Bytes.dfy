/** Bytes, big-endian integers and 32-bit words, as Go's shifts, conversions and byte slices compute them. */
module Bytes {
  type byte = b: int | 0 <= b < 256
  type uint16 = n: int | 0 <= n < 0x1_0000

  /** Go's conversion `byte(n)`: it keeps the low eight bits. */
  function ByteOf(n: nat): byte { n % 256 }

  /** `int(hi)<<8 | int(lo)`. */
  function Join16(hi: byte, lo: byte): uint16 { hi * 256 + lo }

  /** Writing a two-byte field and reading it back keeps it modulo 65536. */
  lemma RoundTrip16(n: nat)
    ensures Join16(ByteOf(n / 256), ByteOf(n)) == n % 0x1_0000
  {
    var q := n / 256;
    assert n == 256 * q + n % 256 && q == 256 * (q / 256) + q % 256;
    Remainder(n, q / 256, q % 256 * 256 + n % 256);
  }

  lemma Remainder(n: nat, q: nat, r: nat)
    requires n == q * 0x1_0000 + r && r < 0x1_0000
    ensures n % 0x1_0000 == r
  {
  }

  lemma FieldRoundTrip16(hi: byte, lo: byte)
    ensures ByteOf(Join16(hi, lo) / 256) == hi && ByteOf(Join16(hi, lo)) == lo
  {
  }

  // ---------- Bits ----------

  /** The low k bits of n, least significant first. */
  function LowBits(n: nat, k: nat): (bits: seq<bool>)
    ensures |bits| == k
    decreases k
  {
    if k == 0 then [] else [n % 2 == 1] + LowBits(n / 2, k - 1)
  }

  function Power2(k: nat): (p: nat)
    ensures p > 0
    decreases k
  {
    if k == 0 then 1 else 2 * Power2(k - 1)
  }

  function ValueOf(bits: seq<bool>): (n: nat)
    ensures n < Power2(|bits|)
    decreases |bits|
  {
    if bits == [] then 0 else (if bits[0] then 1 else 0) + 2 * ValueOf(bits[1..])
  }

  lemma {:induction false} LowBitsOfValue(bits: seq<bool>)
    ensures LowBits(ValueOf(bits), |bits|) == bits
    decreases |bits|
  {
    if bits != [] {
      var n := ValueOf(bits);
      assert n / 2 == ValueOf(bits[1..]) && (n % 2 == 1) == bits[0];
      LowBitsOfValue(bits[1..]);
    }
  }

  lemma {:induction false} ValueOfLowBits(n: nat, k: nat)
    requires n < Power2(k)
    ensures ValueOf(LowBits(n, k)) == n
    decreases k
  {
    if k > 0 {
      ValueOfLowBits(n / 2, k - 1);
      assert LowBits(n, k)[1..] == LowBits(n / 2, k - 1);
    }
  }

  // ---------- 32-bit words ----------

  /** A 32-bit word by its bits, least significant first. */
  type Word32 = w: seq<bool> | |w| == 32 witness seq(32, _ => false)

  lemma EightBitsMakeAByte()
    ensures Power2(8) == 256
  {
  }

  function ByteOfBits(bits: seq<bool>): byte
    requires |bits| == 8
  {
    EightBitsMakeAByte();
    ValueOf(bits)
  }

  /** The four bytes of a word, most significant first. */
  function BytesOfWord(w: Word32): (s: seq<byte>)
    ensures |s| == 4
  {
    [ByteOfBits(w[24..32]), ByteOfBits(w[16..24]), ByteOfBits(w[8..16]), ByteOfBits(w[0..8])]
  }

  lemma BytesOfWordInjective(v: Word32, w: Word32)
    requires BytesOfWord(v) == BytesOfWord(w)
    ensures v == w
  {
    var s, t := BytesOfWord(v), BytesOfWord(w);
    assert s[0] == t[0] && s[1] == t[1] && s[2] == t[2] && s[3] == t[3];
    SameByteSameBits(v[24..32], w[24..32]);
    SameByteSameBits(v[16..24], w[16..24]);
    SameByteSameBits(v[8..16], w[8..16]);
    SameByteSameBits(v[0..8], w[0..8]);
    assert v == v[0..8] + v[8..16] + v[16..24] + v[24..32];
    assert w == w[0..8] + w[8..16] + w[16..24] + w[24..32];
  }

  lemma SameByteSameBits(u: seq<bool>, v: seq<bool>)
    requires |u| == |v| == 8 && ByteOfBits(u) == ByteOfBits(v)
    ensures u == v
  {
    LowBitsOfValue(u);
    LowBitsOfValue(v);
  }

  lemma ByteOfLowBits(b: byte)
    ensures ByteOfBits(LowBits(b, 8)) == b
  {
    EightBitsMakeAByte();
    ValueOfLowBits(b, 8);
  }
}

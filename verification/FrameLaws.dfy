/** Laws of the frame codec: round trips, agreement of the decoders, stream decoding, error detection. */
module FrameLaws {
  import opened Bytes
  import opened Wrappers
  import opened Frames
  import Crc32

  // ---------- One frame ----------

  /** The fields of a wire image stand where the decoders look for them, whatever follows. */
  lemma FieldsOfEncode(f: Frame, rest: seq<byte>)
    requires |f.payload| <= MAX_PAYLOAD
    ensures var s := Encode(f) + rest;
            && s[0] == STX && s[1..3] == MAGIC && PayloadLength(s) == |f.payload|
            && s[CalculateLength(|f.payload|) - 1] == ETX && FieldsOf(s, |f.payload|) == f
  {
    hide CrcOf, ByteOf, Join16;
    var s := Encode(f) + rest;
    var n := |f.payload|;
    assert s[..10] == Header(f);
    assert s[10..10 + n] == f.payload;
    assert s[10 + n..15 + n] == Trailer(f);
    assert s[10 + n..14 + n] == Trailer(f)[..4] == f.crc;
    assert s[1..3] == Header(f)[1..3] == MAGIC;
    RoundTrip16(n);
    RoundTrip16(f.sequence);
  }

  /** Buffer decoding undoes serialization exactly for payloads whose length fits the LEN field. */
  lemma ParseEncode(f: Frame)
    ensures Parse(Encode(f)) == Some(f) <==> |f.payload| <= MAX_PAYLOAD
  {
    hide CrcOf;
    if |f.payload| <= MAX_PAYLOAD {
      FieldsOfEncode(f, []);
      assert Encode(f) + [] == Encode(f);
    }
  }

  /** Stream decoding of noise, one wire image and anything after it: everything through ETX is taken, no more. */
  lemma ReadEncode(noise: seq<byte>, f: Frame, rest: seq<byte>)
    requires STX !in noise && |f.payload| <= MAX_PAYLOAD
    ensures var used := |noise| + CalculateLength(|f.payload|);
            Read(noise + Encode(f) + rest) == if IsValid(f) then Ok(f, used) else Failed(InvalidFrame, used)
  {
    hide CrcOf;
    var s := noise + Encode(f) + rest;
    FieldsOfEncode(f, rest);
    assert s[|noise|..] == Encode(f) + rest;
    assert s == noise + (Encode(f) + rest);
    NoiseThenStx(noise, Encode(f) + rest);
  }

  lemma {:induction false} NoiseThenStx(noise: seq<byte>, s: seq<byte>)
    requires STX !in noise && s != [] && s[0] == STX
    ensures NoiseLength(noise + s) == |noise|
    decreases |noise|
  {
    if noise == [] {
      assert noise + s == s;
    } else {
      assert noise[0] in noise;
      assert (noise + s)[1..] == noise[1..] + s;
      NoiseThenStx(noise[1..], s);
    }
  }

  /** A wire image with another payload of the same length, and nothing else changed. */
  lemma PayloadReplaced(f: Frame, wire: seq<byte>)
    requires |wire| == |Encode(f)|
    requires forall i :: 0 <= i < |wire| && wire[i] != Encode(f)[i] ==> 10 <= i < 10 + |f.payload|
    ensures wire == Encode(f.(payload := wire[10..10 + |f.payload|]))
  {
    hide CrcOf;
    var n := |f.payload|;
    var e := Encode(f);
    var g := f.(payload := wire[10..10 + n]);
    assert e[..10] == Header(f) && e[10 + n..] == Trailer(f);
    assert wire[..10] == e[..10] && wire[10 + n..] == e[10 + n..];
    assert Header(g) == Header(f) && Trailer(g) == Trailer(f);
    assert wire == wire[..10] + wire[10..10 + n] + wire[10 + n..];
  }

  /** Corruption of at most four consecutive payload bytes, with the CRC field left alone, makes the decoder fail. */
  lemma CorruptedPayloadIsRejected(f: Frame, wire: seq<byte>, at: nat, k: nat, rest: seq<byte>)
    requires IsValid(f) && |f.payload| <= MAX_PAYLOAD
    requires |wire| == |Encode(f)| && wire != Encode(f)
    requires k <= 4 && at + k <= |f.payload|
    requires forall i :: 0 <= i < |wire| && wire[i] != Encode(f)[i] ==> 10 + at <= i < 10 + at + k
    ensures Read(wire + rest) == Failed(InvalidFrame, |wire|)
  {
    hide CrcOf, Encode, Read;
    var n := |f.payload|;
    var g := f.(payload := wire[10..10 + n]);
    PayloadReplaced(f, wire);
    DifferenceInPayload(f, wire, at, k);
    ChangedPayloadChangesCrc(f, g, at, k);
    ReadEncode([], g, rest);
    assert [] + Encode(g) + rest == wire + rest;
  }

  lemma DifferenceInPayload(f: Frame, wire: seq<byte>, at: nat, k: nat)
    requires |wire| == |Encode(f)|
    requires forall i :: 0 <= i < |wire| && wire[i] != Encode(f)[i] ==> 10 + at <= i < 10 + at + k
    ensures forall i :: 0 <= i < |f.payload| && f.payload[i] != wire[10..10 + |f.payload|][i] ==> at <= i < at + k
  {
    hide CrcOf;
    forall i | 0 <= i < |f.payload| && f.payload[i] != wire[10..10 + |f.payload|][i] ensures at <= i < at + k {
      assert wire[10 + i] != Encode(f)[10 + i];
    }
  }

  lemma ChangedPayloadChangesCrc(f: Frame, g: Frame, at: nat, k: nat)
    requires |f.payload| == |g.payload| && g == f.(payload := g.payload) && f != g
    requires k <= 4 && at + k <= |f.payload|
    requires forall i :: 0 <= i < |f.payload| && f.payload[i] != g.payload[i] ==> at <= i < at + k
    ensures CrcOf(f) != CrcOf(g)
  {
    hide Crc32.Checksum, ByteOf;
    var h := Covered(f)[..4];
    var u, v := f.payload[at..at + k], g.payload[at..at + k];
    assert Covered(f) == h + f.payload && Covered(g) == h + g.payload;
    OutsideAgrees(f.payload, g.payload, at, k);
    Sandwich(h, f.payload, at, k);
    Sandwich(h, g.payload, at, k);
    Crc32.FourByteBurstChangesChecksum(h + f.payload[..at], u, v, f.payload[at + k..]);
  }

  lemma OutsideAgrees(a: seq<byte>, b: seq<byte>, at: nat, k: nat)
    requires |a| == |b| && at + k <= |a|
    requires forall i :: 0 <= i < |a| && a[i] != b[i] ==> at <= i < at + k
    ensures a[..at] == b[..at] && a[at + k..] == b[at + k..]
  {
  }

  lemma Sandwich(h: seq<byte>, a: seq<byte>, at: nat, k: nat)
    requires at + k <= |a|
    ensures h + a == (h + a[..at]) + a[at..at + k] + a[at + k..]
  {
    assert a == a[..at] + a[at..at + k] + a[at + k..];
  }

  /** Neither decoder looks at the FLAGS byte, and the checksum does not cover it. */
  lemma FlagsAreIgnored(s: seq<byte>, flags: byte)
    requires |s| > 9 && s[0] == STX
    ensures Parse(s[9 := flags]) == Parse(s) && Read(s[9 := flags]) == Read(s)
  {
    hide CrcOf;
    var t := s[9 := flags];
    assert t[1..3] == s[1..3] && PayloadLength(t) == PayloadLength(s);
    var n := PayloadLength(s);
    if |s| >= CalculateLength(n) {
      assert t[10..10 + n] == s[10..10 + n] && t[10 + n..14 + n] == s[10 + n..14 + n];
      assert FieldsOf(t, n) == FieldsOf(s, n);
    }
    assert s[0..] == s && t[0..] == t;
  }

  // ---------- The decoders agree ----------

  /**
   * On bytes that begin with STX the stream decoder accepts exactly what the buffer decoder returns and IsValid
   * accepts.
   */
  lemma DecodersAgree(s: seq<byte>, f: Frame)
    requires s != [] && s[0] == STX
    ensures (Read(s).Ok? && Read(s).frame == f) <==> (Parse(s) == Some(f) && IsValid(f))
  {
    hide CrcOf;
    assert s[0..] == s;
    assert NoiseLength(s) == 0;
  }

  /**
   * Serializing what the stream decoder returned gives back the bytes it took, FLAGS cleared, after the noise it
   * skipped.
   */
  lemma EncodeRead(s: seq<byte>)
    requires Read(s).Ok?
    ensures var k := NoiseLength(s);
            var taken := s[k..Read(s).used];
            |taken| >= 15 && |Read(s).frame.payload| <= MAX_PAYLOAD && Encode(Read(s).frame) == taken[9 := 0]
  {
    hide CrcOf, Encode, FieldsOf, Join16;
    var k := NoiseLength(s);
    var t := s[k..];
    var n := PayloadLength(t);
    assert s[k..Read(s).used] == t[..CalculateLength(n)];
    EncodeFields(t, n);
  }

  lemma EncodeFields(t: seq<byte>, n: nat)
    requires |t| >= CalculateLength(n) && n == PayloadLength(t)
    requires t[0] == STX && t[1..3] == MAGIC && t[CalculateLength(n) - 1] == ETX
    ensures var taken := t[..CalculateLength(n)];
            |FieldsOf(t, n).payload| == n <= MAX_PAYLOAD && Encode(FieldsOf(t, n)) == taken[9 := 0]
  {
    hide CrcOf, ByteOf, Join16;
    var f, taken := FieldsOf(t, n), t[..CalculateLength(n)];
    FieldRoundTrip16(t[4], t[5]);
    FieldRoundTrip16(t[7], t[8]);
    assert t[1] == t[1..3][0] && t[2] == t[1..3][1];
    assert Header(f) == taken[9 := 0][..10];
    assert f.payload == taken[10..10 + n];
    assert taken[10 + n..] == t[10 + n..14 + n] + [t[14 + n]];
    assert Trailer(f) == taken[10 + n..];
    assert taken[9 := 0] == taken[9 := 0][..10] + taken[10..10 + n] + taken[10 + n..];
  }

  // ---------- Streams ----------

  datatype Piece = Piece(noise: seq<byte>, frame: Frame)

  predicate GoodPiece(p: Piece) {
    STX !in p.noise && IsValid(p.frame) && |p.frame.payload| <= MAX_PAYLOAD
  }

  /** The bytes on the wire when each frame is preceded by its noise. */
  function Wire(pieces: seq<Piece>): seq<byte>
    decreases |pieces|
  {
    if pieces == [] then [] else pieces[0].noise + Encode(pieces[0].frame) + Wire(pieces[1..])
  }

  function FramesIn(pieces: seq<Piece>): (fs: seq<Frame>)
    ensures |fs| == |pieces|
  {
    seq(|pieces|, i requires 0 <= i < |pieces| => pieces[i].frame)
  }

  /** Reading again and again until the decoder fails: the frames, the error and the bytes left over. */
  function ReadAll(s: seq<byte>): (r: (seq<Frame>, ReadError, seq<byte>))
    decreases |s|
  {
    match Read(s)
    case Failed(e, used) => ([], e, s[used..])
    case Ok(f, used) =>
      var (fs, e, left) := ReadAll(s[used..]);
      ([f] + fs, e, left)
  }

  lemma ReadAllStep(noise: seq<byte>, f: Frame, rest: seq<byte>)
    requires STX !in noise && IsValid(f) && |f.payload| <= MAX_PAYLOAD
    ensures var (fs, e, left) := ReadAll(rest);
            ReadAll(noise + Encode(f) + rest) == ([f] + fs, e, left)
  {
    hide IsValid, Encode;
    var s := noise + Encode(f) + rest;
    ReadEncode(noise, f, rest);
    assert s[Read(s).used..] == rest;
  }

  lemma ReadAllNoise(s: seq<byte>)
    requires STX !in s
    ensures ReadAll(s) == ([], EndOfInput, [])
  {
    assert NoiseLength(s) == |s|;
    assert s[|s|..] == [];
  }

  /** Reading a wire returns exactly its frames in order, whatever noise without STX stands between and after them. */
  lemma {:induction false} ReadAllWire(pieces: seq<Piece>, tail: seq<byte>)
    requires forall p | p in pieces :: GoodPiece(p)
    requires STX !in tail
    ensures ReadAll(Wire(pieces) + tail) == (FramesIn(pieces), EndOfInput, [])
    decreases |pieces|
  {
    hide IsValid, Encode, ReadAll;
    if pieces == [] {
      assert Wire(pieces) + tail == tail;
      ReadAllNoise(tail);
    } else {
      var p, rest := pieces[0], Wire(pieces[1..]) + tail;
      assert GoodPiece(p);
      assert Wire(pieces) + tail == p.noise + Encode(p.frame) + rest;
      ReadAllStep(p.noise, p.frame, rest);
      ReadAllWire(pieces[1..], tail);
      assert FramesIn(pieces) == [p.frame] + FramesIn(pieces[1..]);
    }
  }

  // ---------- Errors in header and delimiters ----------

  /** Version, type and sequence number of a frame, as the checksum covers them. */
  function HeaderBytes(f: Frame): (s: seq<byte>)
    ensures |s| == 4
  {
    [f.version, f.kind, ByteOf(f.sequence / 256), ByteOf(f.sequence)]
  }

  lemma HeaderBytesInjective(f: Frame, g: Frame)
    requires HeaderBytes(f) == HeaderBytes(g)
    ensures f.version == g.version && f.kind == g.kind && f.sequence == g.sequence
  {
    hide ByteOf, Join16;
    assert HeaderBytes(f)[0] == HeaderBytes(g)[0] && HeaderBytes(f)[1] == HeaderBytes(g)[1];
    assert HeaderBytes(f)[2] == HeaderBytes(g)[2] && HeaderBytes(f)[3] == HeaderBytes(g)[3];
    RoundTrip16(f.sequence);
    RoundTrip16(g.sequence);
  }

  /** No valid frame has the payload and checksum of another: version, type and sequence number are all covered. */
  lemma HeaderIsCovered(f: Frame, g: Frame)
    requires IsValid(f) && g.payload == f.payload && g.crc == f.crc && g != f
    ensures !IsValid(g)
  {
    hide Crc32.Checksum, ByteOf;
    if HeaderBytes(f) == HeaderBytes(g) {
      HeaderBytesInjective(f, g);
    } else {
      Crc32.FourByteBurstChangesChecksum([], HeaderBytes(f), HeaderBytes(g), f.payload);
      assert Covered(f) == [] + HeaderBytes(f) + f.payload && Covered(g) == [] + HeaderBytes(g) + f.payload;
    }
  }

  /** A frame that was read is of version 1 and one of the four types. */
  lemma OnlyKnownFramesAreRead(s: seq<byte>)
    requires Read(s).Ok?
    ensures Read(s).frame.version == 1 && 1 <= Read(s).frame.kind <= 4
  {
    hide CrcOf;
  }

  /** A wire image whose bytes of version, type and sequence number were changed, and nothing else. */
  lemma HeaderReplaced(f: Frame, wire: seq<byte>)
    requires |wire| == |Encode(f)|
    requires forall i :: 0 <= i < |wire| && wire[i] != Encode(f)[i] ==> i in {3, 6, 7, 8}
    ensures wire == Encode(Frame(wire[3], wire[6], Join16(wire[7], wire[8]), f.payload, f.crc))
  {
    hide CrcOf, Join16, ByteOf;
    var n, e := |f.payload|, Encode(f);
    var g := Frame(wire[3], wire[6], Join16(wire[7], wire[8]), f.payload, f.crc);
    FieldRoundTrip16(wire[7], wire[8]);
    assert e[..10] == Header(f) && e[10..] == f.payload + Trailer(f);
    assert wire[..10] == Header(g);
    assert wire[10..] == e[10..];
    assert wire == wire[..10] + wire[10..];
    assert Encode(g) == Header(g) + (f.payload + Trailer(f));
  }

  /** Corruption of the version, type or sequence number, with the CRC field left alone, makes the decoder fail. */
  lemma CorruptedHeaderIsRejected(f: Frame, wire: seq<byte>, rest: seq<byte>)
    requires IsValid(f) && |f.payload| <= MAX_PAYLOAD
    requires |wire| == |Encode(f)| && wire != Encode(f)
    requires forall i :: 0 <= i < |wire| && wire[i] != Encode(f)[i] ==> i in {3, 6, 7, 8}
    ensures Read(wire + rest) == Failed(InvalidFrame, |wire|)
  {
    hide CrcOf, Encode, Read, IsValid;
    var g := Frame(wire[3], wire[6], Join16(wire[7], wire[8]), f.payload, f.crc);
    HeaderReplaced(f, wire);
    HeaderIsCovered(f, g);
    ReadEncode([], g, rest);
    assert [] + Encode(g) + rest == wire + rest;
  }

  /** A damaged magic or end byte is reported as such, with as many bytes taken as were looked at. */
  lemma DamagedDelimiterIsRejected(f: Frame, wire: seq<byte>, rest: seq<byte>)
    requires |f.payload| <= MAX_PAYLOAD && |wire| == |Encode(f)|
    requires forall i :: 0 <= i < |wire| && wire[i] != Encode(f)[i] ==> i in {1, 2, |wire| - 1}
    ensures wire[1..3] != [0x54, 0x57] ==> Read(wire + rest) == Failed(InvalidMagic, 3)
    ensures wire[1..3] == [0x54, 0x57] && wire[|wire| - 1] != 3 ==> Read(wire + rest) == Failed(InvalidEtx, |wire|)
  {
    hide CrcOf, IsValid, FieldsOf, ByteOf, Join16;
    var s, e := wire + rest, Encode(f);
    assert e[0] == Header(f)[0] && e[4] == Header(f)[4] && e[5] == Header(f)[5];
    assert s[0] == STX && s[1..3] == wire[1..3] && s[4] == e[4] && s[5] == e[5];
    RoundTrip16(|f.payload|);
    assert s[|wire| - 1] == wire[|wire| - 1];
    assert NoiseLength(s) == 0 && s[0..] == s;
  }

  /**
   * A wire image that is cut short is read to its end; the error tells a cut before a field from one inside a field.
   */
  lemma CutFrameIsIncomplete(f: Frame, n: nat)
    requires |f.payload| <= MAX_PAYLOAD && n < |Encode(f)|
    ensures var p := |f.payload|;
            var inside := n == 2 || n == 5 || n == 8 || 10 < n < 10 + p || 10 + p < n < 14 + p;
            Read(Encode(f)[..n]) == Failed(if inside then UnexpectedEnd else EndOfInput, n)
  {
    hide CrcOf, IsValid, FieldsOf, ByteOf, Join16;
    var s, e := Encode(f)[..n], Encode(f);
    assert e[..10] == Header(f);
    RoundTrip16(|f.payload|);
    if n > 0 {
      assert s[0] == STX && NoiseLength(s) == 0 && s[0..] == s;
      assert n >= 3 ==> s[1..3] == Header(f)[1..3] == MAGIC;
      assert n >= 6 ==> s[4] == Header(f)[4] && s[5] == Header(f)[5];
    }
  }
}

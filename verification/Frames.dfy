/** The frame codec: one serializer, a buffer decoder and a stream decoder. */
module Frames {
  import opened Bytes
  import opened Wrappers
  import Crc32

  const VERSION: byte := 1
  const STX: byte := 0x02
  const ETX: byte := 0x03
  const MAGIC: seq<byte> := [0x54, 0x57]

  const PING: byte := 1
  const PONG: byte := 2
  const DATA: byte := 3
  const CLOSE: byte := 4

  const MAX_PAYLOAD := 0xFFFF

  /** A 32-bit checksum value by its four bytes, most significant first. */
  type Crc = c: seq<byte> | |c| == 4 witness [0, 0, 0, 0]

  datatype Frame = Frame(version: byte, kind: byte, sequence: uint16, payload: seq<byte>, crc: Crc)

  /** The bytes the checksum covers; neither LEN nor FLAGS is among them. */
  function Covered(f: Frame): (s: seq<byte>)
    ensures |s| == 4 + |f.payload|
  {
    [f.version, f.kind, ByteOf(f.sequence / 256), ByteOf(f.sequence)] + f.payload
  }

  function CrcOf(f: Frame): Crc {
    Crc32.Checksum(Covered(f))
  }

  predicate IsValid(f: Frame) {
    f.version == VERSION && PING <= f.kind <= CLOSE && f.crc == CrcOf(f)
  }

  function NewFrame(kind: byte, sequence: uint16, payload: seq<byte>): (f: Frame)
    ensures f.kind == kind && f.sequence == sequence && f.payload == payload
    ensures IsValid(f) <==> PING <= kind <= CLOSE
  {
    var f := Frame(VERSION, kind, sequence, payload, [0, 0, 0, 0]);
    f.(crc := CrcOf(f))
  }

  function CalculateLength(payloadLen: nat): nat {
    15 + payloadLen
  }

  // ---------- Specification of the three codec operations ----------

  function Header(f: Frame): (s: seq<byte>)
    ensures |s| == 10
  {
    [STX, MAGIC[0], MAGIC[1], f.version, ByteOf(|f.payload| / 256), ByteOf(|f.payload|),
     f.kind, ByteOf(f.sequence / 256), ByteOf(f.sequence), 0]
  }

  function Trailer(f: Frame): (s: seq<byte>)
    ensures |s| == 5
  {
    f.crc + [ETX]
  }

  /** The wire image of a frame. */
  function Encode(f: Frame): (s: seq<byte>)
    ensures |s| == CalculateLength(|f.payload|)
  {
    Header(f) + f.payload + Trailer(f)
  }

  /** The frame whose fields stand at the fixed offsets of s. */
  function FieldsOf(s: seq<byte>, n: nat): (f: Frame)
    requires |s| >= CalculateLength(n)
  {
    Frame(s[3], s[6], Join16(s[7], s[8]), s[10..10 + n], s[10 + n..14 + n])
  }

  function PayloadLength(s: seq<byte>): nat
    requires |s| >= 6
  {
    Join16(s[4], s[5])
  }

  /** What the buffer decoder returns. */
  function Parse(s: seq<byte>): Option<Frame> {
    if |s| < CalculateLength(0) || s[0] != STX || s[1..3] != MAGIC then None
    else
      var n := PayloadLength(s);
      if |s| < CalculateLength(n) || s[CalculateLength(n) - 1] != ETX then None else Some(FieldsOf(s, n))
  }

  /** `EndOfInput` is io.EOF, `UnexpectedEnd` is io.ErrUnexpectedEOF. */
  datatype ReadError = EndOfInput | UnexpectedEnd | InvalidMagic | InvalidEtx | InvalidFrame

  /**
   * How a stream of len bytes ends that is too short for a frame with n payload bytes: ErrUnexpectedEOF inside a field
   * of several bytes, EOF where a field would begin.
   */
  function EndedAt(len: nat, n: nat): ReadError {
    if len in {2, 5, 8} || 10 < len < 10 + n || 10 + n < len < 14 + n then UnexpectedEnd else EndOfInput
  }

  /** What one call of the stream decoder returns, and how many bytes it took from the stream. */
  datatype ReadResult = Ok(frame: Frame, used: nat) | Failed(error: ReadError, used: nat) {
    function Outcome(): Result<Frame, ReadError> {
      if Ok? then Success(frame) else Failure(error)
    }
  }

  /** Number of bytes before the first STX. */
  function NoiseLength(s: seq<byte>): (k: nat)
    ensures k <= |s|
    ensures forall i :: 0 <= i < k ==> s[i] != STX
    ensures k < |s| ==> s[k] == STX
    decreases |s|
  {
    if s == [] || s[0] == STX then 0 else 1 + NoiseLength(s[1..])
  }

  /** The stream decoder on a stream that begins with STX. */
  function ReadAtStx(s: seq<byte>): (r: ReadResult)
    requires s != []
    ensures 0 < r.used <= |s|
  {
    if |s| < 3 then Failed(EndedAt(|s|, 0), |s|)
    else if s[1..3] != MAGIC then Failed(InvalidMagic, 3)
    else if |s| < 6 then Failed(EndedAt(|s|, 0), |s|)
    else
      var n := PayloadLength(s);
      var total := CalculateLength(n);
      if |s| < total then Failed(EndedAt(|s|, n), |s|)
      else if s[total - 1] != ETX then Failed(InvalidEtx, total)
      else if IsValid(FieldsOf(s, n)) then Ok(FieldsOf(s, n), total)
      else Failed(InvalidFrame, total)
  }

  /** What the stream decoder returns. */
  function Read(s: seq<byte>): (r: ReadResult)
    ensures r.used <= |s|
    ensures s != [] ==> r.used > 0
  {
    var k := NoiseLength(s);
    if k == |s| then Failed(EndOfInput, |s|)
    else
      match ReadAtStx(s[k..])
      case Ok(f, used) => Ok(f, k + used)
      case Failed(e, used) => Failed(e, k + used)
  }

  // ---------- The operations as the program performs them ----------

  method CalculateCRC32(f: Frame) returns (crc: Crc)
    ensures crc == CrcOf(f)
  {
    var buf := new byte[4 + |f.payload|];
    buf[0] := f.version;
    buf[1] := f.kind;
    buf[2] := ByteOf(f.sequence / 256);
    buf[3] := ByteOf(f.sequence);
    forall i | 0 <= i < |f.payload| {
      buf[4 + i] := f.payload[i];
    }
    assert buf[..] == Covered(f);
    crc := Crc32.Checksum(buf[..]);
  }

  /** Go's `copy(data[at:], s)`. */
  method CopyInto(data: array<byte>, at: nat, s: seq<byte>)
    requires at + |s| <= data.Length
    modifies data
    ensures data[..] == old(data[..at]) + s + old(data[at + |s|..])
  {
    forall i | 0 <= i < |s| {
      data[at + i] := s[i];
    }
  }

  method PutHeader(data: array<byte>, f: Frame)
    requires data.Length >= 10
    modifies data
    ensures data[..] == Header(f) + old(data[10..])
  {
    hide ByteOf;
    var payloadLen := |f.payload|;
    data[0] := STX;
    data[1], data[2] := MAGIC[0], MAGIC[1];
    data[3] := f.version;
    data[4] := ByteOf(payloadLen / 256);
    data[5] := ByteOf(payloadLen);
    data[6] := f.kind;
    data[7] := ByteOf(f.sequence / 256);
    data[8] := ByteOf(f.sequence);
    data[9] := 0;
    assert data[..10] == Header(f);
    assert data[..] == data[..10] + data[10..];
  }

  method Serialize(f: Frame) returns (data: array<byte>)
    ensures fresh(data) && data[..] == Encode(f)
  {
    hide CrcOf, IsValid, ByteOf, Header;
    var payloadLen := |f.payload|;
    var totalLen := CalculateLength(payloadLen);
    data := new byte[totalLen];
    PutHeader(data, f);
    if payloadLen > 0 {
      CopyInto(data, 10, f.payload);
    }
    assert data[..10 + payloadLen] == Header(f) + f.payload;
    PutTrailer(data, f);
  }

  method PutTrailer(data: array<byte>, f: Frame)
    requires data.Length == CalculateLength(|f.payload|)
    modifies data
    ensures data[..] == old(data[..10 + |f.payload|]) + Trailer(f)
  {
    var crcStart := 10 + |f.payload|;
    data[crcStart] := f.crc[0];
    data[crcStart + 1] := f.crc[1];
    data[crcStart + 2] := f.crc[2];
    data[crcStart + 3] := f.crc[3];
    data[data.Length - 1] := ETX;
    assert data[crcStart..] == Trailer(f);
    assert data[..] == data[..crcStart] + data[crcStart..];
  }

  method ParseFrame(data: seq<byte>) returns (m: Option<Frame>)
    ensures m == Parse(data)
  {
    var minLen := CalculateLength(0);
    if |data| < minLen {
      return None;
    }
    if data[0] != STX || data[1..3] != MAGIC {
      return None;
    }
    var payloadLen: nat := Join16(data[4], data[5]);
    var totalLen := CalculateLength(payloadLen);
    if |data| < totalLen || data[totalLen - 1] != ETX {
      return None;
    }
    var payload: seq<byte> := [];
    if payloadLen > 0 {
      payload := data[10..10 + payloadLen];
    }
    assert payload == data[10..10 + payloadLen];
    var crcStart := 10 + payloadLen;
    var crc := data[crcStart..crcStart + 4];
    return Some(Frame(data[3], data[6], Join16(data[7], data[8]), payload, crc));
  }

  /** A buffered reader over a finite stream. */
  class Reader {
    const input: seq<byte>
    var pos: nat

    ghost predicate Valid()
      reads this
    {
      pos <= |input|
    }

    ghost function Rest(): seq<byte>
      reads this
      requires Valid()
    {
      input[pos..]
    }

    constructor (input: seq<byte>)
      ensures Valid() && pos == 0 && this.input == input
    {
      this.input := input;
      pos := 0;
    }

    method ReadByte() returns (b: Option<byte>)
      requires Valid()
      modifies this
      ensures Valid()
      ensures if old(pos) == |input| then b == None && pos == |input|
              else b == Some(input[old(pos)]) && pos == old(pos) + 1
    {
      if pos == |input| {
        return None;
      }
      b := Some(input[pos]);
      pos := pos + 1;
    }

    /** io.ReadFull: n bytes, or everything that is left and an error. */
    method ReadFull(n: nat) returns (bytes: Result<seq<byte>, ReadError>)
      requires Valid()
      modifies this
      ensures Valid()
      ensures if old(pos) + n <= |input| then
                bytes == Success(input[old(pos)..old(pos) + n]) && pos == old(pos) + n
              else
                bytes == Failure(if old(pos) == |input| then EndOfInput else UnexpectedEnd) && pos == |input|
    {
      if pos + n > |input| {
        bytes := Failure(if pos == |input| then EndOfInput else UnexpectedEnd);
        pos := |input|;
        return;
      }
      bytes := Success(input[pos..pos + n]);
      pos := pos + n;
    }
  }

  lemma NoiseStep(input: seq<byte>, pos: nat)
    requires pos <= |input|
    ensures NoiseLength(input[pos..])
         == if pos == |input| || input[pos] == STX then 0 else 1 + NoiseLength(input[pos + 1..])
  {
    assert pos < |input| ==> input[pos..][1..] == input[pos + 1..];
  }

  lemma ReadSkipsNoise(s: seq<byte>)
    ensures var k := NoiseLength(s);
            if k == |s| then Read(s) == Failed(EndOfInput, |s|)
            else
              var r := ReadAtStx(s[k..]);
              Read(s).Outcome() == r.Outcome() && Read(s).used == k + r.used
  {
    hide ReadAtStx;
  }

  method ReadFrame(reader: Reader) returns (r: Result<Frame, ReadError>)
    requires reader.Valid()
    modifies reader
    ensures reader.Valid()
    ensures r == Read(old(reader.Rest())).Outcome()
    ensures reader.pos == old(reader.pos) + Read(old(reader.Rest())).used
  {
    hide Read, ReadAtStx, NoiseLength, IsValid, CrcOf;
    ghost var start := reader.pos;
    ghost var all := reader.Rest();
    ReadSkipsNoise(all);
    while true
      invariant reader.Valid() && start <= reader.pos
      invariant NoiseLength(all) == reader.pos - start + NoiseLength(reader.Rest())
      decreases |reader.input| - reader.pos
    {
      NoiseStep(reader.input, reader.pos);
      var b := reader.ReadByte();
      if b == None {
        return Failure(EndOfInput);
      }
      if b == Some(STX) {
        break;
      }
    }
    assert all[NoiseLength(all)..] == reader.input[reader.pos - 1..];
    r := ReadRest(reader, reader.pos - 1);
  }

  /** The part of ReadFrame after the STX byte has been taken. */
  method ReadRest(reader: Reader, ghost start: nat) returns (r: Result<Frame, ReadError>)
    requires reader.Valid() && reader.pos == start + 1 && reader.input[start] == STX
    modifies reader
    ensures reader.Valid()
    ensures var spec := ReadAtStx(reader.input[start..]); r == spec.Outcome() && reader.pos == start + spec.used
  {
    hide IsValid, CrcOf, Join16;
    ghost var s := reader.input[start..];
    var magic := reader.ReadFull(2);
    if magic.Failure? {
      return Failure(magic.error);
    }
    assert s[1..3] == magic.value;
    if magic.value != MAGIC {
      return Failure(InvalidMagic);
    }
    var version := reader.ReadByte();
    if version == None {
      return Failure(EndOfInput);
    }
    var lengthBytes := reader.ReadFull(2);
    if lengthBytes.Failure? {
      return Failure(lengthBytes.error);
    }
    var payloadLen: nat := Join16(lengthBytes.value[0], lengthBytes.value[1]);
    assert payloadLen == PayloadLength(s);
    r := ReadBody(reader, start, version.value, payloadLen);
  }

  /** What ReadFrame has established about the stream after the length field. */
  ghost predicate HeaderRead(s: seq<byte>, version: byte, payloadLen: nat) {
    |s| >= 6 && s[0] == STX && s[1..3] == MAGIC && s[3] == version && payloadLen == PayloadLength(s)
  }

  /** The part of ReadFrame after the length field. */
  method ReadBody(reader: Reader, ghost start: nat, version: byte, payloadLen: nat)
    returns (r: Result<Frame, ReadError>)
    requires reader.Valid() && reader.pos == start + 6 && HeaderRead(reader.input[start..], version, payloadLen)
    modifies reader
    ensures reader.Valid()
    ensures var spec := ReadAtStx(reader.input[start..]); r == spec.Outcome() && reader.pos == start + spec.used
  {
    hide CrcOf, IsValid, Join16, PayloadLength;
    ghost var s := reader.input[start..];
    var kind := reader.ReadByte();
    if kind == None {
      return Failure(EndOfInput);
    }
    var seqBytes := reader.ReadFull(2);
    if seqBytes.Failure? {
      return Failure(seqBytes.error);
    }
    var flags := reader.ReadByte();
    if flags == None {
      return Failure(EndOfInput);
    }
    var payload: seq<byte> := [];
    if payloadLen > 0 {
      var bytes := reader.ReadFull(payloadLen);
      if bytes.Failure? {
        return Failure(bytes.error);
      }
      payload := bytes.value;
    }
    assert payload == s[10..10 + payloadLen];
    var sequence := Join16(seqBytes.value[0], seqBytes.value[1]);
    r := ReadTrailer(reader, start, version, kind.value, sequence, payload);
  }

  /** The part of ReadFrame after the payload. */
  method ReadTrailer(reader: Reader, ghost start: nat, version: byte, kind: byte, sequence: uint16, payload: seq<byte>)
    returns (r: Result<Frame, ReadError>)
    requires reader.Valid() && reader.pos == start + 10 + |payload|
    requires var s := reader.input[start..];
             && HeaderRead(s, version, |payload|)
             && s[6] == kind && sequence == Join16(s[7], s[8]) && payload == s[10..10 + |payload|]
    modifies reader
    ensures reader.Valid()
    ensures var spec := ReadAtStx(reader.input[start..]); r == spec.Outcome() && reader.pos == start + spec.used
  {
    hide CrcOf, IsValid, Join16, PayloadLength;
    ghost var s := reader.input[start..];
    var crcBytes := reader.ReadFull(4);
    if crcBytes.Failure? {
      return Failure(crcBytes.error);
    }
    assert crcBytes.value == s[10 + |payload|..14 + |payload|];
    var etx := reader.ReadByte();
    if etx == None {
      return Failure(EndOfInput);
    }
    if etx.value != ETX {
      return Failure(InvalidEtx);
    }
    var frame := Frame(version, kind, sequence, payload, crcBytes.value);
    assert frame == FieldsOf(s, |payload|);
    if !IsValid(frame) {
      return Failure(InvalidFrame);
    }
    return Success(frame);
  }
}

/** The sequenced little-endian envelope of every message (internal/protocol/codec.go). */
module Frame {
  import opened Common

  type Bytes = seq<byte>

  const HEADER_SIZE := 10
  const MAX_FRAME_SIZE := 64 * 1024

  datatype Message = Message(msgId: uint16, seqNo: uint32, body: Bytes)

  datatype DecodeError = InvalidHeader | LengthMismatch | FrameTooLarge

  // ---------------------------------------------------------------------------------------------------------------
  // Little-endian integers
  // ---------------------------------------------------------------------------------------------------------------

  function LittleEndian(n: nat, width: nat): (bytes: Bytes)
    ensures |bytes| == width
  {
    if width == 0 then [] else [n % 256] + LittleEndian(n / 256, width - 1)
  }

  function FromLittleEndian(bytes: Bytes): nat {
    if bytes == [] then 0 else bytes[0] + 256 * FromLittleEndian(bytes[1..])
  }

  function Power256(width: nat): nat {
    if width == 0 then 1 else 256 * Power256(width - 1)
  }

  lemma {:induction false} ReadWritten(n: nat, width: nat)
    requires n < Power256(width)
    ensures FromLittleEndian(LittleEndian(n, width)) == n
  {
    if width > 0 {
      ReadWritten(n / 256, width - 1);
      assert LittleEndian(n, width)[1..] == LittleEndian(n / 256, width - 1);
    }
  }

  lemma {:induction false} WriteRead(bytes: Bytes)
    ensures LittleEndian(FromLittleEndian(bytes), |bytes|) == bytes
    ensures FromLittleEndian(bytes) < Power256(|bytes|)
  {
    if bytes != [] {
      WriteRead(bytes[1..]);
      var n := FromLittleEndian(bytes);
      assert n % 256 == bytes[0] && n / 256 == FromLittleEndian(bytes[1..]);
      assert bytes == [bytes[0]] + bytes[1..];
    }
  }

  lemma Powers()
    ensures Power256(2) == 0x1_0000 && Power256(4) == 0x1_0000_0000
  {
    assert Power256(2) == 256 * Power256(1);
    assert Power256(3) == 256 * Power256(2);
  }

  // ---------------------------------------------------------------------------------------------------------------
  // Frames
  // ---------------------------------------------------------------------------------------------------------------

  /** The bytes of a frame of this length. */
  function Layout(length: nat, msg: Message): Bytes {
    LittleEndian(length, 4) + LittleEndian(msg.msgId, 2) + LittleEndian(msg.seqNo, 4) + msg.body
  }

  function Encode(msg: Message): Option<Bytes> {
    if HEADER_SIZE + |msg.body| > MAX_FRAME_SIZE then None else Some(Layout(HEADER_SIZE + |msg.body|, msg))
  }

  function Decode(data: Bytes): Result<Message, DecodeError> {
    if |data| < HEADER_SIZE then Err(InvalidHeader)
    else if FromLittleEndian(data[..4]) != |data| then Err(LengthMismatch)
    else if FromLittleEndian(data[..4]) > MAX_FRAME_SIZE then Err(FrameTooLarge)
    else
      WriteRead(data[4..6]);
      WriteRead(data[6..10]);
      Powers();
      Ok(Message(FromLittleEndian(data[4..6]), FromLittleEndian(data[6..10]), data[HEADER_SIZE..]))
  }

  /** binary.LittleEndian.PutUint16 and PutUint32 on a part of the buffer. */
  method PutLittleEndian(frame: array<byte>, offset: nat, width: nat, n: nat)
    requires offset + width <= frame.Length
    modifies frame
    ensures frame[..] == old(frame[..offset]) + LittleEndian(n, width) + old(frame[offset + width..])
  {
    var rest := n;
    var i := 0;
    while i < width
      invariant 0 <= i <= width && rest >= 0
      invariant frame[..offset + i] + LittleEndian(rest, width - i) == old(frame[..offset]) + LittleEndian(n, width)
      invariant frame[offset + i..] == old(frame[offset + i..])
    {
      ghost var done := frame[..offset + i];
      frame[offset + i] := rest % 256;
      assert frame[..offset + i + 1] == done + [rest % 256];
      rest := rest / 256;
      i := i + 1;
    }
    assert LittleEndian(rest, 0) == [];
    assert frame[..] == frame[..offset + width] + frame[offset + width..];
  }

  method PutHeader(frame: array<byte>, length: nat, msg: Message)
    requires frame.Length >= HEADER_SIZE
    modifies frame
    ensures frame[..] == Layout(length, msg.(body := [])) + old(frame[HEADER_SIZE..])
  {
    PutLittleEndian(frame, 0, 4, length);
    assert frame[..4] == LittleEndian(length, 4) && frame[6..] == old(frame[6..]);
    PutLittleEndian(frame, 4, 2, msg.msgId);
    assert frame[..6] == LittleEndian(length, 4) + LittleEndian(msg.msgId, 2) && frame[10..] == old(frame[10..]);
    PutLittleEndian(frame, 6, 4, msg.seqNo);
  }

  /** copy(frame[HeaderSize:], body) */
  method PutBody(frame: array<byte>, body: Bytes)
    requires frame.Length == HEADER_SIZE + |body|
    modifies frame
    ensures frame[..] == old(frame[..HEADER_SIZE]) + body
  {
    forall i | 0 <= i < |body| {
      frame[HEADER_SIZE + i] := body[i];
    }
  }

  method EncodeFrame(msg: Message) returns (frame: array?<byte>)
    ensures (frame == null) == (Encode(msg) == None)
    ensures frame != null ==> fresh(frame) && Encode(msg) == Some(frame[..])
  {
    var totalLen := HEADER_SIZE + |msg.body|;
    if totalLen > MAX_FRAME_SIZE {
      return null;
    }
    var buffer := new byte[totalLen](_ => 0);
    PutHeader(buffer, totalLen, msg);
    ghost var header := Layout(totalLen, msg.(body := []));
    assert buffer[..HEADER_SIZE] == header;
    PutBody(buffer, msg.body);
    assert header + msg.body == Layout(totalLen, msg);
    return buffer;
  }

  /** The decoded body is a copy of the input's. */
  method DecodeFrame(data: array<byte>) returns (result: Result<Message, DecodeError>)
    ensures result == Decode(data[..])
  {
    if data.Length < HEADER_SIZE {
      return Err(InvalidHeader);
    }
    var totalLen := FromLittleEndian(data[..4]);
    assert data[..][..4] == data[..4];
    if totalLen != data.Length {
      return Err(LengthMismatch);
    }
    if totalLen > MAX_FRAME_SIZE {
      return Err(FrameTooLarge);
    }
    WriteRead(data[4..6]);
    WriteRead(data[6..10]);
    Powers();
    assert data[..][4..6] == data[4..6] && data[..][6..10] == data[6..10] && data[..][HEADER_SIZE..] == data[HEADER_SIZE..];
    return Ok(Message(FromLittleEndian(data[4..6]), FromLittleEndian(data[6..10]), data[HEADER_SIZE..]));
  }

  // ---------------------------------------------------------------------------------------------------------------
  // Inverse in both directions
  // ---------------------------------------------------------------------------------------------------------------

  /** Every message that fits decodes back to itself; the others cannot be encoded. */
  lemma DecodeInvertsEncode(msg: Message)
    ensures Encode(msg).Some? <==> |msg.body| <= MAX_FRAME_SIZE - HEADER_SIZE
    ensures Encode(msg).Some? ==> Decode(Encode(msg).value) == Ok(msg)
  {
    var length := HEADER_SIZE + |msg.body|;
    var data := Layout(length, msg);
    if length <= MAX_FRAME_SIZE {
      Powers();
      ReadWritten(length, 4);
      ReadWritten(msg.msgId, 2);
      ReadWritten(msg.seqNo, 4);
      assert data[..4] == LittleEndian(length, 4);
      assert data[4..6] == LittleEndian(msg.msgId, 2);
      assert data[6..10] == LittleEndian(msg.seqNo, 4);
      assert data[HEADER_SIZE..] == msg.body;
    }
  }

  /** Every byte string that Decode accepts is the encoding of what it decodes to. */
  lemma EncodeInvertsDecode(data: Bytes)
    requires Decode(data).Ok?
    ensures Encode(Decode(data).value) == Some(data)
  {
    WriteRead(data[..4]);
    WriteRead(data[4..6]);
    WriteRead(data[6..10]);
    assert data == data[..4] + data[4..6] + data[6..10] + data[HEADER_SIZE..];
  }

  /** Decode accepts exactly the strings of 10 to 65536 bytes whose length field is their length, and says why not others. */
  lemma AcceptedIff(data: Bytes)
    ensures Decode(data).Ok? <==> 10 <= |data| <= 65536 && LittleEndian(|data|, 4) == data[..4]
    ensures |data| < 10 <==> Decode(data) == Err(InvalidHeader)
    ensures |data| > 65536 && FromLittleEndian(data[..4]) == |data| <==> Decode(data) == Err(FrameTooLarge)
  {
    if |data| >= 10 {
      WriteRead(data[..4]);
      if |data| <= 65536 {
        Powers();
        ReadWritten(|data|, 4);
      }
    }
  }

  function Number16(low: int, high: int): int {
    low + 0x100 * high
  }

  function Number32(b0: int, b1: int, b2: int, b3: int): int {
    b0 + 0x100 * b1 + 0x1_0000 * b2 + 0x100_0000 * b3
  }

  /** The header, byte by byte: length in four bytes, message id in two, seq in four, lowest byte first. */
  lemma HeaderBytes(msg: Message)
    requires Encode(msg).Some?
    ensures var data := Encode(msg).value;
            && |data| == 10 + |msg.body| && data[10..] == msg.body
            && |data| == Number32(data[0], data[1], data[2], data[3])
            && msg.msgId == Number16(data[4], data[5])
            && msg.seqNo == Number32(data[6], data[7], data[8], data[9])
  {
    var length := 10 + |msg.body|;
    FourBytes(length);
    TwoBytes(msg.msgId);
    FourBytes(msg.seqNo);
    assert Encode(msg).value[10..] == msg.body;
  }

  lemma TwoBytes(n: nat)
    requires n < 0x1_0000
    ensures var b := LittleEndian(n, 2); n == Number16(b[0], b[1])
  {
    assert LittleEndian(n, 2)[1..] == LittleEndian(n / 256, 1);
  }

  lemma FourBytes(n: nat)
    requires n < 0x1_0000_0000
    ensures var b := LittleEndian(n, 4); n == Number32(b[0], b[1], b[2], b[3])
  {
    assert LittleEndian(n, 4)[1..] == LittleEndian(n / 256, 3);
    assert LittleEndian(n / 256, 3)[1..] == LittleEndian(n / 256 / 256, 2);
    TwoBytes(n / 256 / 256);
  }
}

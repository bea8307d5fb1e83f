/** Frames of the daemon protocol: a 36-byte header with length and checksum, then the payload. */
module ViperDaemonProtocol {
  import opened Bytes
  import opened Crc32s
  import opened Wrappers

  const PROTOCOL_VERSION: U16 := 1
  const FRAME_HEADER_SIZE: nat := 36
  const MAX_FRAME_SIZE: nat := 1024 * 1024
  const MAX_PAYLOAD_SIZE: nat := MAX_FRAME_SIZE - FRAME_HEADER_SIZE
  const KNOWN_FRAME_FLAGS: U32 := 0xFFFF
  const FRAME_MAGIC: Data := [0x56, 0x34, 0x41, 0x44]

  datatype FrameError =
    | PayloadTooLarge | FrameTooSmall | BadMagic | UnsupportedVersion | UnknownFlags
    | LengthMismatch | TrailingBytes | CrcMismatch

  datatype FrameHeader = FrameHeader(
    protocolVersion: U16,
    messageType: U16,
    flags: U32,
    requestId: U64,
    sequence: U64,
    payloadLength: U32,
    payloadCrc32: U32)

  datatype Frame = Frame(header: FrameHeader, payload: Data)

  function CrcValue(crc: bv32): U32 {
    crc as nat
  }

  function PayloadCrc(payload: Data): U32 {
    CrcValue(Checksum(payload))
  }

  lemma CrcValueInjective(a: bv32, b: bv32)
    requires CrcValue(a) == CrcValue(b)
    ensures a == b
  {
    assert (a as nat) as bv32 == a;
    assert (b as nat) as bv32 == b;
  }

  /** The header's wire form; its length and checksum are the given ones. */
  function HeaderBytes(h: FrameHeader): (bytes: Data)
    ensures |bytes| == FRAME_HEADER_SIZE
  {
    FRAME_MAGIC + PutU16(h.protocolVersion) + PutU16(h.messageType) + PutU32(h.flags)
    + PutU64(h.requestId) + PutU64(h.sequence) + PutU32(h.payloadLength) + PutU32(h.payloadCrc32)
  }

  /** The header a frame with this payload carries on the wire. */
  function Sealed(header: FrameHeader, payload: Data): FrameHeader
    requires |payload| <= MAX_PAYLOAD_SIZE
  {
    header.(payloadLength := |payload|, payloadCrc32 := PayloadCrc(payload))
  }

  function EncodeFrame(header: FrameHeader, payload: Data): Result<Data, FrameError> {
    if |payload| > MAX_PAYLOAD_SIZE then Err(PayloadTooLarge)
    else if header.protocolVersion != PROTOCOL_VERSION then Err(UnsupportedVersion)
    else if header.flags > KNOWN_FRAME_FLAGS then Err(UnknownFlags)
    else Ok(HeaderBytes(Sealed(header, payload)) + payload)
  }

  /** The fixed-offset reads of the decoder. */
  function ReadHeader(bytes: Data): FrameHeader
    requires |bytes| >= FRAME_HEADER_SIZE
  {
    FrameHeader(ReadU16(bytes, 4), ReadU16(bytes, 6), ReadU32(bytes, 8), ReadU64(bytes, 12),
                ReadU64(bytes, 20), ReadU32(bytes, 28), ReadU32(bytes, 32))
  }

  function DecodeFrame(bytes: Data): Result<Frame, FrameError> {
    if |bytes| < FRAME_HEADER_SIZE then Err(FrameTooSmall)
    else if bytes[..4] != FRAME_MAGIC then Err(BadMagic)
    else
      var decoded := ReadHeader(bytes);
      if decoded.protocolVersion != PROTOCOL_VERSION then Err(UnsupportedVersion)
      else if decoded.flags > KNOWN_FRAME_FLAGS then Err(UnknownFlags)
      else if decoded.payloadLength > MAX_PAYLOAD_SIZE then Err(PayloadTooLarge)
      else if |bytes| < FRAME_HEADER_SIZE + decoded.payloadLength then Err(LengthMismatch)
      else if |bytes| > FRAME_HEADER_SIZE + decoded.payloadLength then Err(TrailingBytes)
      else
        var payload := bytes[FRAME_HEADER_SIZE..];
        if PayloadCrc(payload) != decoded.payloadCrc32 then Err(CrcMismatch)
        else Ok(Frame(decoded, payload))
  }

  // ---------------------------------------------------------------- round trips

  /** The header read off some bytes is `h` exactly when the bytes start with `h`'s wire form. */
  lemma HeaderReads(bytes: Data, h: FrameHeader)
    requires |bytes| >= FRAME_HEADER_SIZE
    ensures bytes[..4] == FRAME_MAGIC && ReadHeader(bytes) == h <==> bytes[..FRAME_HEADER_SIZE] == HeaderBytes(h)
  {
    hide Put;
    HeaderSlices(bytes, h);
    ReadsU16(bytes, 4, h.protocolVersion);
    ReadsU16(bytes, 6, h.messageType);
    ReadsU32(bytes, 8, h.flags);
    ReadsU64(bytes, 12, h.requestId);
    ReadsU64(bytes, 20, h.sequence);
    ReadsU32(bytes, 28, h.payloadLength);
    ReadsU32(bytes, 32, h.payloadCrc32);
  }

  lemma HeaderSlices(bytes: Data, h: FrameHeader)
    requires |bytes| >= FRAME_HEADER_SIZE
    ensures bytes[..FRAME_HEADER_SIZE] == HeaderBytes(h) <==>
            && bytes[..4] == FRAME_MAGIC
            && bytes[4..6] == PutU16(h.protocolVersion) && bytes[6..8] == PutU16(h.messageType)
            && bytes[8..12] == PutU32(h.flags) && bytes[12..20] == PutU64(h.requestId)
            && bytes[20..28] == PutU64(h.sequence) && bytes[28..32] == PutU32(h.payloadLength)
            && bytes[32..36] == PutU32(h.payloadCrc32)
  {
    hide PutU16;
    hide PutU32;
    hide PutU64;
    assert bytes[..FRAME_HEADER_SIZE]
        == bytes[..4] + bytes[4..6] + bytes[6..8] + bytes[8..12] + bytes[12..20] + bytes[20..28]
           + bytes[28..32] + bytes[32..36];
    var w := HeaderBytes(h);
    assert w[..4] == FRAME_MAGIC && w[4..6] == PutU16(h.protocolVersion) && w[6..8] == PutU16(h.messageType);
    assert w[8..12] == PutU32(h.flags) && w[12..20] == PutU64(h.requestId) && w[20..28] == PutU64(h.sequence);
    assert w[28..32] == PutU32(h.payloadLength) && w[32..36] == PutU32(h.payloadCrc32);
    if bytes[..FRAME_HEADER_SIZE] == w {
      assert bytes[4..6] == w[4..6] && bytes[6..8] == w[6..8] && bytes[8..12] == w[8..12];
      assert bytes[12..20] == w[12..20] && bytes[20..28] == w[20..28];
      assert bytes[28..32] == w[28..32] && bytes[32..36] == w[32..36];
    }
  }

  /** Decoding what was encoded gives the frame back, length and checksum filled in. */
  lemma DecodeEncode(header: FrameHeader, payload: Data)
    requires EncodeFrame(header, payload).Ok?
    ensures DecodeFrame(EncodeFrame(header, payload).value) == Ok(Frame(Sealed(header, payload), payload))
  {
    hide HeaderBytes;
    hide ReadHeader;
    hide PayloadCrc;
    var bytes := EncodeFrame(header, payload).value;
    assert bytes[..FRAME_HEADER_SIZE] == HeaderBytes(Sealed(header, payload));
    HeaderReads(bytes, Sealed(header, payload));
    assert bytes[FRAME_HEADER_SIZE..] == payload;
  }

  /** Encoding what was decoded gives the bytes back: the decoder accepts only what the encoder makes. */
  lemma EncodeDecode(bytes: Data)
    requires DecodeFrame(bytes).Ok?
    ensures var frame := DecodeFrame(bytes).value;
            EncodeFrame(frame.header, frame.payload) == Ok(bytes)
  {
    hide HeaderBytes;
    hide ReadHeader;
    hide PayloadCrc;
    var frame := DecodeFrame(bytes).value;
    HeaderReads(bytes, frame.header);
    assert Sealed(frame.header, frame.payload) == frame.header;
    assert bytes == bytes[..FRAME_HEADER_SIZE] + bytes[FRAME_HEADER_SIZE..];
  }

  /** A frame is accepted exactly when it is the encoding of something. */
  lemma AcceptsExactlyEncodings(bytes: Data)
    ensures DecodeFrame(bytes).Ok? <==> exists h: FrameHeader, p: Data :: EncodeFrame(h, p) == Ok(bytes)
  {
    if DecodeFrame(bytes).Ok? {
      EncodeDecode(bytes);
    }
    if h: FrameHeader, p: Data :| EncodeFrame(h, p) == Ok(bytes) {
      DecodeEncode(h, p);
    }
  }

  /** Damage confined to four consecutive payload bytes never gets past the decoder. */
  lemma RejectsBurst(header: FrameHeader, before: Data, good: Data, bad: Data, after: Data)
    requires |good| == |bad| <= 4 && good != bad
    requires EncodeFrame(header, before + good + after).Ok?
    ensures var sent := EncodeFrame(header, before + good + after).value;
            var received := sent[..FRAME_HEADER_SIZE] + (before + bad + after);
            DecodeFrame(received) == Err(CrcMismatch)
  {
    hide HeaderBytes;
    hide ReadHeader;
    hide Checksum;
    var sent := EncodeFrame(header, before + good + after).value;
    var received := sent[..FRAME_HEADER_SIZE] + (before + bad + after);
    var h := Sealed(header, before + good + after);
    assert sent[..FRAME_HEADER_SIZE] == HeaderBytes(h);
    assert received[..FRAME_HEADER_SIZE] == HeaderBytes(h);
    HeaderReads(received, h);
    assert received[FRAME_HEADER_SIZE..] == before + bad + after;
    DetectsBurst(before, good, bad, after);
    if PayloadCrc(before + bad + after) == h.payloadCrc32 {
      CrcValueInjective(Checksum(before + good + after), Checksum(before + bad + after));
    }
  }

  /** Every field of an encoded frame, at its offset. */
  lemma FrameLayout(header: FrameHeader, payload: Data)
    requires EncodeFrame(header, payload).Ok?
    ensures var bytes := EncodeFrame(header, payload).value;
            && |bytes| == 36 + |payload| && bytes[..4] == [0x56, 0x34, 0x41, 0x44]
            && ReadU16(bytes, 4) == header.protocolVersion == 1 && ReadU16(bytes, 6) == header.messageType
            && ReadU32(bytes, 8) == header.flags && ReadU64(bytes, 12) == header.requestId
            && ReadU64(bytes, 20) == header.sequence && ReadU32(bytes, 28) == |payload|
            && ReadU32(bytes, 32) == CrcValue(Checksum(payload)) && bytes[36..] == payload
  {
    hide HeaderBytes;
    hide Checksum;
    hide ReadU16;
    hide ReadU32;
    hide ReadU64;
    var bytes, h := EncodeFrame(header, payload).value, Sealed(header, payload);
    assert bytes[..FRAME_HEADER_SIZE] == HeaderBytes(h) && bytes[FRAME_HEADER_SIZE..] == payload;
    HeaderReads(bytes, h);
  }

  /** What can be sent: one mebibyte at most with the header, version 1 and the sixteen flags there are. */
  lemma EncodesIff(header: FrameHeader, payload: Data)
    ensures EncodeFrame(header, payload).Ok? <==>
              |payload| + 36 <= 1048576 && header.protocolVersion == 1 && header.flags < 0x1_0000
  {
  }
}

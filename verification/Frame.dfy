/** The binary frame: a 60-byte header, then the ciphertext. */
module Frames {
  import opened Prelude
  import opened Nonces

  const FRAME_VERSION: byte := 1
  const FRAME_TYPE_DATA: byte := 1
  const FRAME_TYPE_PROBE: byte := 2
  const FRAME_TYPE_PROBE_RESPONSE: byte := 3
  const HEADER_LEN := 60
  const DEVICE_ID_LEN := 16

  type FrameId = s: Bytes | |s| == DEVICE_ID_LEN
    witness [0, 0, 0, 0, 0, 0, 0, 0, 0, 0, 0, 0, 0, 0, 0, 0]

  datatype FrameError =
    | MalformedLength
    | UnsupportedVersion
    | UnsupportedMessageType
    | UnsupportedFlags
    | ReservedByteNotZero

  datatype FrameHeader = FrameHeader(
    version: byte, messageType: byte, flags: byte,
    source: FrameId, destination: FrameId, nonce: Nonce)

  datatype EncodedFrame = EncodedFrame(header: FrameHeader, ciphertext: Bytes)

  function NewHeader(source: FrameId, destination: FrameId, nonce: Nonce, messageType: byte): (h: FrameHeader)
  {
    FrameHeader(FRAME_VERSION, messageType, 0, source, destination, nonce)
  }

  predicate KnownType(messageType: byte)
  {
    messageType == FRAME_TYPE_DATA || messageType == FRAME_TYPE_PROBE || messageType == FRAME_TYPE_PROBE_RESPONSE
  }

  /** The reading of a header's bytes, independent of the order in which they are checked. */
  function HeaderBytes(h: FrameHeader): (s: Bytes)
    ensures |s| == HEADER_LEN
  {
    [h.version, h.messageType, h.flags, 0] + h.source + h.destination + h.nonce
  }

  function EncodeHeader(h: FrameHeader): (r: Result<Bytes, FrameError>)
  {
    if h.version != FRAME_VERSION then Err(UnsupportedVersion)
    else if !KnownType(h.messageType) then Err(UnsupportedMessageType)
    else if h.flags != 0 then Err(UnsupportedFlags)
    else Ok(HeaderBytes(h))
  }

  function DecodeHeader(input: Bytes): (r: Result<FrameHeader, FrameError>)
  {
    if |input| < HEADER_LEN then Err(MalformedLength)
    else if input[0] != FRAME_VERSION then Err(UnsupportedVersion)
    else if !KnownType(input[1]) then Err(UnsupportedMessageType)
    else if input[2] != 0 then Err(UnsupportedFlags)
    else if input[3] != 0 then Err(ReservedByteNotZero)
    else Ok(FrameHeader(input[0], input[1], input[2], input[4..20], input[20..36], input[36..60]))
  }

  function EncodeFrame(f: EncodedFrame): (r: Result<Bytes, FrameError>)
  {
    match EncodeHeader(f.header)
    case Err(e) => Err(e)
    case Ok(header) => Ok(header + f.ciphertext)
  }

  function DecodeFrame(input: Bytes): (r: Result<EncodedFrame, FrameError>)
  {
    match DecodeHeader(input)
    case Err(e) => Err(e)
    case Ok(header) => Ok(EncodedFrame(header, input[HEADER_LEN..]))
  }

  // ---------------------------------------------------------------- the codec as it runs

  /** Copies a fixed-size field into place, leaving the rest of the buffer as it was. */
  method CopyInto(output: array<byte>, at: nat, field: Bytes)
    requires at + |field| <= output.Length
    modifies output
    ensures output[..] == old(output[..])[..at] + field + old(output[..])[at + |field|..]
  {
    forall i | 0 <= i < |field| { output[at + i] := field[i]; }
  }

  method WriteHeader(h: FrameHeader) returns (r: Result<Bytes, FrameError>)
    ensures r == EncodeHeader(h)
  {
    if h.version != FRAME_VERSION {
      return Err(UnsupportedVersion);
    }
    if !KnownType(h.messageType) {
      return Err(UnsupportedMessageType);
    }
    if h.flags != 0 {
      return Err(UnsupportedFlags);
    }
    var output := new byte[HEADER_LEN](_ => 0);
    output[0] := h.version;
    output[1] := h.messageType;
    output[2] := h.flags;
    output[3] := 0;
    assert output[..4] == [h.version, h.messageType, h.flags, 0];
    CopyInto(output, 4, h.source);
    CopyInto(output, 20, h.destination);
    CopyInto(output, 36, h.nonce);
    assert output[..] == HeaderBytes(h);
    r := Ok(output[..]);
  }

  method WriteFrame(f: EncodedFrame) returns (r: Result<Bytes, FrameError>)
    ensures r == EncodeFrame(f)
  {
    var header := WriteHeader(f.header);
    if header.Err? {
      return Err(header.error);
    }
    var output: Bytes := [];
    output := output + header.value;
    output := output + f.ciphertext;
    assert output == header.value + f.ciphertext;
    r := Ok(output);
  }

  // ---------------------------------------------------------------- what is accepted

  /** A byte string is accepted exactly if it has 60 bytes or more, begins with version 1, one of the
      three types, no flags and a zero byte; its fields are then at these places. The first thing that
      is wrong is what is reported. */
  lemma AcceptedExactlyWhen(input: Bytes)
    ensures DecodeFrame(input).Ok? <==>
            |input| >= 60 && input[0] == 1 && 1 <= input[1] <= 3 && input[2] == 0 && input[3] == 0
    ensures |input| < 60 <==> DecodeFrame(input) == Err(MalformedLength)
    ensures |input| >= 60 ==>
              && (input[0] != 1 <==> DecodeFrame(input) == Err(UnsupportedVersion))
              && (input[0] == 1 && !(1 <= input[1] <= 3) <==> DecodeFrame(input) == Err(UnsupportedMessageType))
              && (input[0] == 1 && 1 <= input[1] <= 3 && input[2] != 0 <==> DecodeFrame(input) == Err(UnsupportedFlags))
    ensures DecodeFrame(input).Ok? ==>
              && DecodeFrame(input).value.header
                 == FrameHeader(1, input[1], 0, input[4..20], input[20..36], input[36..60])
              && DecodeFrame(input).value.ciphertext == input[60..]
  {
  }

  /** A header can be written exactly if it has version 1, one of the three types and no flags. */
  lemma EncodableExactlyWhen(h: FrameHeader)
    ensures EncodeHeader(h).Ok? <==> h.version == 1 && 1 <= h.messageType <= 3 && h.flags == 0
    ensures h.version != 1 <==> EncodeHeader(h) == Err(UnsupportedVersion)
    ensures h.version == 1 && !(1 <= h.messageType <= 3) <==> EncodeHeader(h) == Err(UnsupportedMessageType)
  {
  }

  // ---------------------------------------------------------------- bijection

  /** Decoding undoes encoding, for every frame that can be encoded. */
  lemma DecodeAfterEncode(f: EncodedFrame)
    requires EncodeFrame(f).Ok?
    ensures DecodeFrame(EncodeFrame(f).value) == Ok(f)
  {
    var h, wire := f.header, EncodeFrame(f).value;
    assert wire == HeaderBytes(h) + f.ciphertext;
    assert wire[4..20] == h.source;
    assert wire[20..36] == h.destination;
    assert wire[36..60] == h.nonce;
    assert wire[HEADER_LEN..] == f.ciphertext;
  }

  /** Encoding undoes decoding, for every byte string that is accepted; so the header bytes a
      receiver recomputes are the very bytes it received. */
  lemma EncodeAfterDecode(wire: Bytes)
    requires DecodeFrame(wire).Ok?
    ensures EncodeFrame(DecodeFrame(wire).value) == Ok(wire)
    ensures EncodeHeader(DecodeFrame(wire).value.header) == Ok(wire[..HEADER_LEN])
  {
    var f := DecodeFrame(wire).value;
    assert HeaderBytes(f.header) == wire[..HEADER_LEN];
    assert wire == wire[..HEADER_LEN] + wire[HEADER_LEN..];
  }

  /** A frame has one encoding and a byte string one meaning: the encodable frames and the accepted
      byte strings correspond one to one. */
  lemma CodecIsBijective(f: EncodedFrame, wire: Bytes)
    ensures EncodeFrame(f) == Ok(wire) <==> DecodeFrame(wire) == Ok(f)
  {
    if EncodeFrame(f) == Ok(wire) {
      DecodeAfterEncode(f);
    }
    if DecodeFrame(wire) == Ok(f) {
      EncodeAfterDecode(wire);
    }
  }
}

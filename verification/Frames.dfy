/**
  * The C37.118 envelope: bounded parsing, encoding, and the command frames.
  *
  * The version 2 and version 3 codecs are separate files with the same structure; here one
  * definition takes the wire version as a parameter and branches where the files differ.
  */
module Frames {
  import opened Bytes
  import Crc

  datatype WireVersion = V2 | V3

  datatype Timestamp = Timestamp(soc: nat, fracsec: nat)

  datatype FrameError =
    | TooShort | BadSync | DeclaredSizeTooSmall | DeclaredSizeTooLarge | Incomplete | TrailingBytes
    | BadChecksum | UnsupportedVersion | UnexpectedFrameType | InvalidCommandSize | UnsupportedCommand

  const SYNC_BYTE: byte := 0xAA
  const HEADER_BYTES := 14
  const MIN_FRAME_BYTES := 16
  const COMMAND_FRAME_BYTES := 18
  const ERROR_RESPONSE_FRAME_BYTES := 20
  const MAX_COMMAND_FRAME_BYTES := 4096

  const V2_DATA := 0x0
  const V2_HEADER := 0x1
  const V2_CONFIGURATION_1 := 0x2
  const V2_CONFIGURATION_2 := 0x3
  const V2_COMMAND := 0x4
  const V3_DATA := 0x8
  const V3_CAPABILITY := 0xA
  const V3_STREAM_CONFIGURATION := 0xB
  const V3_COMMAND := 0xC
  const V3_ERROR_RESPONSE := 0xF

  function ProtocolVersion(v: WireVersion): nat {
    match v case V2 => 2 case V3 => 3
  }

  function DataType(v: WireVersion): nat {
    match v case V2 => V2_DATA case V3 => V3_DATA
  }

  function CommandType(v: WireVersion): nat {
    match v case V2 => V2_COMMAND case V3 => V3_COMMAND
  }

  /** The message time quality byte that the encoder of each version writes. */
  function MessageTimeQuality(v: WireVersion): byte {
    match v case V2 => 0x0F case V3 => 0
  }

  // ----- parsing ---------------------------------------------------------------------------

  function DeclaredSize(bytes: seq<byte>): nat
    requires |bytes| >= 4
  {
    U16(bytes[2], bytes[3])
  }

  /** The version 2 sync word also requires the top bit of the second byte to be clear. */
  predicate SyncAccepted(v: WireVersion, first: byte, second: byte) {
    first == SYNC_BYTE && (v.V2? ==> second < 0x80)
  }

  function ParseWithLimit(v: WireVersion, bytes: seq<byte>, maximumSize: nat): Result<seq<byte>, FrameError> {
    if |bytes| < MIN_FRAME_BYTES then Err(TooShort)
    else if !SyncAccepted(v, bytes[0], bytes[1]) then Err(BadSync)
    else if DeclaredSize(bytes) < MIN_FRAME_BYTES then Err(DeclaredSizeTooSmall)
    else if DeclaredSize(bytes) > maximumSize then Err(DeclaredSizeTooLarge)
    else if |bytes| < DeclaredSize(bytes) then Err(Incomplete)
    else if |bytes| > DeclaredSize(bytes) then Err(TrailingBytes)
    else if !Crc.ChecksumMatches(bytes) then Err(BadChecksum)
    else Ok(bytes)
  }

  function Parse(v: WireVersion, bytes: seq<byte>): Result<seq<byte>, FrameError> {
    ParseWithLimit(v, bytes, U16_MAX)
  }

  /** A byte string that is at least an envelope long, so that every header accessor is defined. */
  type Frame = f: seq<byte> | |f| >= MIN_FRAME_BYTES witness seq(16, _ => 0)

  function FrameType(f: Frame): nat { f[1] / 16 }
  function Version(f: Frame): nat { f[1] % 16 }
  function IdCode(f: Frame): nat { U16(f[4], f[5]) }
  function TimeOf(f: Frame): Timestamp {
    Timestamp(U32(f[6], f[7], f[8], f[9]), U24(f[11], f[12], f[13]))
  }
  function Body(f: Frame): seq<byte> { f[HEADER_BYTES..|f| - 2] }

  // ----- encoding --------------------------------------------------------------------------

  /** The fourteen header bytes; the top eight bits of `fracsec` are dropped as the encoder does. */
  function Header(kind: byte, size: nat, id: nat, ts: Timestamp, quality: byte): (h: seq<byte>)
    ensures |h| == HEADER_BYTES
  {
    [SYNC_BYTE, kind] + PutU16(size) + PutU16(id) + PutU32(ts.soc) + [quality] + PutU24(ts.fracsec)
  }

  function Envelope(kind: byte, id: nat, ts: Timestamp, quality: byte, body: seq<byte>): (f: Frame)
    ensures |f| == MIN_FRAME_BYTES + |body|
  {
    Crc.Seal(Header(kind, MIN_FRAME_BYTES + |body|, id, ts, quality) + body)
  }

  predicate ValidTime(ts: Timestamp) {
    ts.soc <= U32_MAX && ts.fracsec < 0x100_0000
  }

  function Kind(v: WireVersion, frameType: nat): byte
    requires frameType < 16
  {
    frameType * 16 + ProtocolVersion(v)
  }

  /** `encode_frame`; the source panics when the size does not fit FRAMESIZE. */
  function EncodeFrame(v: WireVersion, frameType: nat, id: nat, ts: Timestamp, body: seq<byte>): (f: Frame)
    requires frameType < 16 && MIN_FRAME_BYTES + |body| <= U16_MAX
  {
    Envelope(Kind(v, frameType), id, ts, MessageTimeQuality(v), body)
  }

  /** The header fields and the body of an envelope are the ones it was built from. */
  lemma EnvelopeFields(kind: byte, id: nat, ts: Timestamp, quality: byte, body: seq<byte>)
    requires id <= U16_MAX && ValidTime(ts) && MIN_FRAME_BYTES + |body| <= U16_MAX
    ensures var f := Envelope(kind, id, ts, quality, body);
            && f[0] == SYNC_BYTE && f[1] == kind && f[10] == quality
            && DeclaredSize(f) == |f| && IdCode(f) == id && TimeOf(f) == ts && Body(f) == body
            && Crc.ChecksumMatches(f)
  {
    hide Crc.Checksum, Crc.High, Crc.LowHalf, Crc.Word;
    var size := MIN_FRAME_BYTES + |body|;
    var h := Header(kind, size, id, ts, quality);
    var f := Envelope(kind, id, ts, quality, body);
    assert f[..HEADER_BYTES] == h;
    assert f[HEADER_BYTES..|f| - 2] == body;
    U16RoundTrip(size);
    U16RoundTrip(id);
    U32RoundTrip(ts.soc);
    U24RoundTrip(ts.fracsec);
    assert h[2..4] == PutU16(size) && h[4..6] == PutU16(id) && h[6..10] == PutU32(ts.soc)
           && h[11..14] == PutU24(ts.fracsec);
    assert f[2] == h[2..4][0] && f[3] == h[2..4][1] && f[4] == h[4..6][0] && f[5] == h[4..6][1];
    assert f[6] == h[6..10][0] && f[7] == h[6..10][1] && f[8] == h[6..10][2] && f[9] == h[6..10][3];
    assert f[11] == h[11..14][0] && f[12] == h[11..14][1] && f[13] == h[11..14][2];
    SealedMatches(h + body);
  }

  lemma SealedMatches(payload: seq<byte>)
    ensures Crc.ChecksumMatches(Crc.Seal(payload))
  {
    hide Crc.Checksum, Crc.High, Crc.LowHalf, Crc.Word, Crc.ChecksumMatches;
    var f := Crc.Seal(payload);
    var n := |payload|;
    assert f == payload + [f[n], f[n + 1]];
    Crc.SealMatches(payload, f[n], f[n + 1]);
  }

  /** Every encoded frame parses, with the fields it was encoded from. */
  lemma EncodedFrameParses(v: WireVersion, frameType: nat, id: nat, ts: Timestamp, body: seq<byte>)
    requires frameType < 16 && (v.V2? ==> frameType < 8)
    requires id <= U16_MAX && ValidTime(ts) && MIN_FRAME_BYTES + |body| <= U16_MAX
    ensures var f := EncodeFrame(v, frameType, id, ts, body);
            && Parse(v, f) == Ok(f) && FrameType(f) == frameType && Version(f) == ProtocolVersion(v)
            && IdCode(f) == id && TimeOf(f) == ts && Body(f) == body && f[10] == MessageTimeQuality(v)
            && DeclaredSize(f) == |f| == MIN_FRAME_BYTES + |body| && f[0] == SYNC_BYTE && f[1] == Kind(v, frameType)
            && Crc.ChecksumMatches(f)
  {
    hide Crc.ChecksumMatches, Crc.Seal, Header;
    EnvelopeFields(Kind(v, frameType), id, ts, MessageTimeQuality(v), body);
  }

  /** The header of the fields read from fourteen bytes is those bytes. */
  lemma HeaderOfFields(h: seq<byte>)
    requires |h| == HEADER_BYTES && h[0] == SYNC_BYTE
    ensures h == Header(h[1], U16(h[2], h[3]), U16(h[4], h[5]),
                        Timestamp(U32(h[6], h[7], h[8], h[9]), U24(h[11], h[12], h[13])), h[10])
  {
    U16Inverse(h[2], h[3]);
    U16Inverse(h[4], h[5]);
    U32Inverse(h[6], h[7], h[8], h[9]);
    U24Inverse(h[11], h[12], h[13]);
    hide PutU16, PutU24, PutU32, U16, U24, U32;
    assert h == [h[0], h[1]] + [h[2], h[3]] + [h[4], h[5]] + [h[6], h[7], h[8], h[9]] + [h[10]] + [h[11], h[12], h[13]];
  }

  /** Conversely, an accepted byte string is the envelope of its own fields: nothing else is accepted. */
  lemma ParsedFrameIsEnvelope(v: WireVersion, f: seq<byte>, maximumSize: nat)
    requires ParseWithLimit(v, f, maximumSize).Ok?
    ensures MIN_FRAME_BYTES <= |f| <= maximumSize && |f| <= U16_MAX
    ensures f == Envelope(f[1], IdCode(f), TimeOf(f), f[10], Body(f))
    ensures ValidTime(TimeOf(f))
  {
    hide Crc.Checksum, Crc.High, Crc.LowHalf, Crc.Word, Header, U16, U24, U32, Crc.ChecksumMatches, Crc.Seal;
    var n := |f| - 2;
    HeaderOfFields(f[..HEADER_BYTES]);
    assert f[..n] == f[..HEADER_BYTES] + Body(f);
    assert f == f[..n] + [f[n], f[n + 1]];
    Crc.SealMatches(f[..n], f[n], f[n + 1]);
  }

  /**
    * An accepted frame with any nonempty set of bits altered inside a window of sixteen
    * consecutive bits is rejected, wherever the window lies.
    */
  lemma BurstRejected(v: WireVersion, f: seq<byte>, g: seq<byte>, start: nat, limit: nat)
    requires ParseWithLimit(v, f, limit).Ok?
    requires Crc.DifferWithinWindow(f, g, start) && f != g
    ensures ParseWithLimit(v, g, limit).Err?
  {
    hide Crc.ChecksumMatches, Crc.DifferWithinWindow;
    Crc.BurstDetected(f, g, start);
  }

  // ----- commands --------------------------------------------------------------------------

  datatype Command = Stop | Start | Header2 | Configuration1 | Configuration2 | Capability | StreamConfiguration

  datatype CommandRequest = CommandRequest(id: nat, command: Command)

  /** The command words of each version; `None` where a version lacks the command. */
  function CommandWord(v: WireVersion, c: Command): Option<nat> {
    match (v, c)
    case (V2, Stop) => Some(1)
    case (V2, Start) => Some(2)
    case (V2, Header2) => Some(3)
    case (V2, Configuration1) => Some(4)
    case (V2, Configuration2) => Some(5)
    case (V3, Stop) => Some(0x10)
    case (V3, Start) => Some(0x20)
    case (V3, Capability) => Some(0x40)
    case (V3, StreamConfiguration) => Some(0x60)
    case _ => None
  }

  function CommandOfWord(v: WireVersion, w: nat): Option<Command> {
    match v
    case V2 =>
      if w == 1 then Some(Stop) else if w == 2 then Some(Start) else if w == 3 then Some(Header2)
      else if w == 4 then Some(Configuration1) else if w == 5 then Some(Configuration2) else None
    case V3 =>
      if w == 0x10 then Some(Stop) else if w == 0x20 then Some(Start) else if w == 0x40 then Some(Capability)
      else if w == 0x60 then Some(StreamConfiguration) else None
  }

  function ParseCommand(v: WireVersion, f: Frame): Result<CommandRequest, FrameError> {
    if Version(f) != ProtocolVersion(v) then Err(UnsupportedVersion)
    else if FrameType(f) != CommandType(v) then Err(UnexpectedFrameType)
    else if |f| != COMMAND_FRAME_BYTES then Err(InvalidCommandSize)
    else match CommandOfWord(v, U16(f[14], f[15]))
         case None => Err(UnsupportedCommand)
         case Some(c) => Ok(CommandRequest(IdCode(f), c))
  }

  function EncodeCommand(v: WireVersion, id: nat, c: Command, ts: Timestamp): Frame
    requires CommandWord(v, c).Some?
  {
    EncodeFrame(v, CommandType(v), id, ts, PutU16(CommandWord(v, c).value))
  }

  /** Encoding a command and parsing it back yields the same request. */
  lemma CommandRoundTrip(v: WireVersion, id: nat, c: Command, ts: Timestamp)
    requires CommandWord(v, c).Some? && id <= U16_MAX && ValidTime(ts)
    ensures var f := EncodeCommand(v, id, c, ts);
            && |f| == COMMAND_FRAME_BYTES && DeclaredSize(f) == COMMAND_FRAME_BYTES
            && Parse(v, f) == Ok(f) && ParseCommand(v, f) == Ok(CommandRequest(id, c))
  {
    hide Crc.ChecksumMatches, Crc.Seal, Header;
    var w := CommandWord(v, c).value;
    EncodedFrameParses(v, CommandType(v), id, ts, PutU16(w));
    var f := EncodeCommand(v, id, c, ts);
    U16RoundTrip(w);
    assert f[14] == Body(f)[0] && f[15] == Body(f)[1];
  }

  /**
    * An accepted command frame is the encoding of the request it yields, up to the message time
    * quality byte, which the parser ignores and the checksum covers.
    */
  lemma AcceptedCommandIsEncoding(v: WireVersion, f: seq<byte>)
    requires Parse(v, f).Ok? && ParseCommand(v, f).Ok?
    ensures var r := ParseCommand(v, f).value;
            && CommandWord(v, r.command).Some?
            && f == Envelope(Kind(v, CommandType(v)), r.id, TimeOf(f), f[10], PutU16(CommandWord(v, r.command).value))
  {
    hide Crc.ChecksumMatches, Header, Envelope, U16, PutU16, U24, U32;
    var w := U16(f[14], f[15]);
    var c := CommandOfWord(v, w).value;
    assert CommandWord(v, c) == Some(w);
    ParsedFrameIsEnvelope(v, f, U16_MAX);
    U16Inverse(f[14], f[15]);
    assert Body(f) == [f[14], f[15]];
    assert f[1] == Kind(v, CommandType(v));
  }
}

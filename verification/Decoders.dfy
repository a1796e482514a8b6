/** The probes' own decoders, written independently of the encoders they judge. */
module Decoders {
  import opened Bytes
  import opened Frames
  import Crc
  import Configuration

  datatype DecodedFrame = DecodedFrame(frameType: nat, id: nat, time: Timestamp, quality: byte, body: seq<byte>)

  datatype Summary = Summary(timeBase: nat, pmuId: nat, rate: nat)

  /** `decode_v2_frame` and `decode_v3_frame`; `None` is a probe error. */
  function DecodeFrame(v: WireVersion, bytes: seq<byte>): Option<DecodedFrame> {
    if |bytes| < MIN_FRAME_BYTES || !SyncAccepted(v, bytes[0], bytes[1]) then None
    else if Version(bytes) != ProtocolVersion(v) then None
    else if DeclaredSize(bytes) != |bytes| then None
    else if !Crc.ChecksumMatches(bytes) then None
    else Some(DecodedFrame(FrameType(bytes), IdCode(bytes), TimeOf(bytes), bytes[10], Body(bytes)))
  }

  /** Every encoded frame decodes to what it was encoded from. */
  lemma EncodedFrameDecodes(v: WireVersion, frameType: nat, id: nat, ts: Timestamp, body: seq<byte>)
    requires frameType < 16 && (v.V2? ==> frameType < 8)
    requires id <= U16_MAX && ValidTime(ts) && MIN_FRAME_BYTES + |body| <= U16_MAX
    ensures DecodeFrame(v, EncodeFrame(v, frameType, id, ts, body))
         == Some(DecodedFrame(frameType, id, ts, MessageTimeQuality(v), body))
  {
    hide Crc.ChecksumMatches, EncodeFrame, Parse, TimeOf, IdCode, Body;
    EncodedFrameParses(v, frameType, id, ts, body);
  }

  // ----- taking fields off a body ----------------------------------------------------------

  /** A value and the offset behind it. */
  type Taken<T> = Option<(T, nat)>

  function TakeBytes(body: seq<byte>, at: nat, length: nat): Taken<seq<byte>> {
    if at + length <= |body| then Some((body[at..at + length], at + length)) else None
  }

  function TakeU16(body: seq<byte>, at: nat): Taken<nat> {
    var (b, next) :- TakeBytes(body, at, 2);
    Some((U16(b[0], b[1]), next))
  }

  function TakeU32(body: seq<byte>, at: nat): Taken<nat> {
    var (b, next) :- TakeBytes(body, at, 4);
    Some((U32(b[0], b[1], b[2], b[3]), next))
  }

  function TakeName(body: seq<byte>, at: nat): Taken<seq<byte>> {
    var (length, start) :- TakeBytes(body, at, 1);
    var (name, next) :- TakeBytes(body, start, length[0]);
    if Configuration.Utf8(name) then Some((name, next)) else None
  }

  function TakeNames(body: seq<byte>, at: nat, count: nat): Option<nat>
    decreases count
  {
    if count == 0 then Some(at)
    else
      var (_, next) :- TakeName(body, at);
      TakeNames(body, next, count - 1)
  }

  /** Fixed-width names of version 2. */
  function TakeFixedNames(body: seq<byte>, at: nat, count: nat): Option<nat>
    decreases count
  {
    if count == 0 then Some(at)
    else
      var (name, next) :- TakeBytes(body, at, 16);
      if Configuration.Printable(name) then TakeFixedNames(body, next, count - 1) else None
  }

  function TakePhunits(body: seq<byte>, at: nat, count: nat): Option<nat>
    decreases count
  {
    if count == 0 then Some(at)
    else
      var (unit, next) :- TakeU32(body, at);
      if unit / 0x100_0000 > 1 || unit % 0x100_0000 == 0 then None else TakePhunits(body, next, count - 1)
  }

  /** A 16-bit word read as a signed number. */
  function Signed(n: nat): int { if n >= 0x8000 then n - 0x1_0000 else n }

  predicate TimeBaseFits(timeBase: nat, rate: nat)
    requires rate > 0
  {
    timeBase != 0 && timeBase / 0x100_0000 == 0 && timeBase % rate == 0
  }

  // ----- version 3 -------------------------------------------------------------------------

  /** Up to the signal counts: the time base, the PMU id and the offset behind them. */
  function LeadingV3(body: seq<byte>, rate: nat): Option<(nat, nat, nat)>
    requires rate > 0
  {
    var (continuation, o1) :- TakeU16(body, 0);
    if continuation != 0 then None else
    var (timeBase, o2) :- TakeU32(body, o1);
    if !TimeBaseFits(timeBase, rate) then None else
    var (_, o3) :- TakeName(body, o2);
    var (pmus, o4) :- TakeU16(body, o3);
    if pmus != 1 then None else
    var (_, o5) :- TakeName(body, o4);
    var (pmuId, o6) :- TakeU16(body, o5);
    if pmuId == 0 || pmuId == U16_MAX then None else
    var o7 :- CountsV3(body, o6);
    Some((timeBase, pmuId, o7))
  }

  /** PMU version, global id, format and the five signal counts. */
  function CountsV3(body: seq<byte>, at: nat): Option<nat> {
    var (version, o1) :- TakeU16(body, at);
    if version != 3 then None else
    var (_, o2) :- TakeBytes(body, o1, 16);
    var (format, o3) :- TakeU16(body, o2);
    if format != 1 then None else
    var (phasors, o4) :- TakeU16(body, o3);
    var (analogs, o5) :- TakeU16(body, o4);
    var (frequencies, o6) :- TakeU16(body, o5);
    var (rocofs, o7) :- TakeU16(body, o6);
    var (digitals, o8) :- TakeU16(body, o7);
    if (phasors, analogs, frequencies, rocofs, digitals) != (6, 0, 1, 1, 0) then None else Some(o8)
  }

  /** From the scaling fields to the two data rates and the end of the body. */
  predicate TrailingV3(body: seq<byte>, at: nat, rate: nat) {
    var end := TrailingRates(body, at);
    end.Some? && end.value.2 == |body| && Signed(end.value.0) == Signed(rate) && Signed(end.value.1) == Signed(rate)
  }

  /** Scales, limits, flags and position. */
  function ScalesV3(body: seq<byte>, at: nat): Option<nat> {
    var (_, o1) :- TakeBytes(body, at, 96);
    var (_, o2) :- TakeBytes(body, o1, 16);
    var (_, o3) :- TakeBytes(body, o2, 12);
    var (flag, o4) :- TakeU16(body, o3);
    if flag / 0x1000 % 2 != 0 then None else
    var (_, o5) :- TakeBytes(body, o4, 8);
    Some(o5)
  }

  function TrailingRates(body: seq<byte>, at: nat): Option<(nat, nat, nat)> {
    var o5 :- ScalesV3(body, at);
    var (pmuRate, o6) :- TakeU16(body, o5);
    var (_, o7) :- TakeU16(body, o6);
    var (streamRate, o8) :- TakeU16(body, o7);
    var (_, o9) :- TakeU16(body, o8);
    Some((pmuRate, streamRate, o9))
  }

  function DecodeConfigurationV3(body: seq<byte>, rate: nat): Option<Summary>
    requires rate > 0
  {
    var (timeBase, pmuId, at) :- LeadingV3(body, rate);
    var names :- TakeNames(body, at, 8);
    if TrailingV3(body, names, rate) then Some(Summary(timeBase, pmuId, rate)) else None
  }

  // ----- version 2 -------------------------------------------------------------------------

  function LeadingV2(body: seq<byte>, rate: nat): Option<(nat, nat, nat)>
    requires rate > 0
  {
    var (timeBase, o1) :- TakeU32(body, 0);
    if !TimeBaseFits(timeBase, rate) then None else
    var (pmus, o2) :- TakeU16(body, o1);
    if pmus != 1 then None else
    var (station, o3) :- TakeBytes(body, o2, 16);
    if !Configuration.Printable(station) then None else
    var (pmuId, o4) :- TakeU16(body, o3);
    if pmuId == 0 || pmuId == U16_MAX then None else
    var (format, o5) :- TakeU16(body, o4);
    if format != 1 then None else
    var (phasors, o6) :- TakeU16(body, o5);
    var (analogs, o7) :- TakeU16(body, o6);
    var (digitals, o8) :- TakeU16(body, o7);
    if (phasors, analogs, digitals) != (6, 0, 0) then None else Some((timeBase, pmuId, o8))
  }

  predicate TrailingV2(body: seq<byte>, at: nat, rate: nat) {
    var end := TrailingRate(body, at);
    end.Some? && end.value.1 == |body| && Signed(end.value.0) == Signed(rate)
  }

  function TrailingRate(body: seq<byte>, at: nat): Option<(nat, nat)> {
    var (nominal, o1) :- TakeU16(body, at);
    if nominal > 1 then None else
    var (_, o2) :- TakeU16(body, o1);
    var (dataRate, o3) :- TakeU16(body, o2);
    Some((dataRate, o3))
  }

  function DecodeConfigurationV2(body: seq<byte>, rate: nat): Option<Summary>
    requires rate > 0
  {
    var (timeBase, pmuId, at) :- LeadingV2(body, rate);
    var names :- TakeFixedNames(body, at, 6);
    var units :- TakePhunits(body, names, 6);
    if TrailingV2(body, units, rate) then Some(Summary(timeBase, pmuId, rate)) else None
  }

  function DecodeConfiguration(v: WireVersion, body: seq<byte>, rate: nat): Option<Summary>
    requires rate > 0
  {
    if v.V2? then DecodeConfigurationV2(body, rate) else DecodeConfigurationV3(body, rate)
  }

  // ----- periodic data ---------------------------------------------------------------------

  const CONSERVATIVE_STAT := 0x21C0

  /** The message quality, size and STAT checks that differ between the versions. */
  predicate DataShape(v: WireVersion, f: DecodedFrame) {
    match v
    case V3 => |f.body| == 32
    case V2 =>
      && f.quality == 0x0F && |f.body| == 30
      && (U16(f.body[0], f.body[1]) == 0 || U16(f.body[0], f.body[1]) == CONSERVATIVE_STAT)
  }

  function Ticks(ts: Timestamp, timeBase: nat): nat { ts.soc * timeBase + ts.fracsec }

  /** `decode_periodic_data`: on the reporting grid, one step after the previous frame. */
  predicate DataAccepted(v: WireVersion, f: DecodedFrame, c: Summary, previous: Option<Timestamp>)
    requires 0 < c.rate <= c.timeBase
  {
    && DataShape(v, f)
    && f.time.fracsec < c.timeBase && f.time.fracsec % (c.timeBase / c.rate) == 0
    && (previous.Some? ==>
          var before, after := Ticks(previous.value, c.timeBase), Ticks(f.time, c.timeBase);
          (if after >= before then after - before else 0) == c.timeBase / c.rate)
  }

  /** `decode_header` of the version 2 probe. */
  predicate HeaderAccepted(body: seq<byte>) { body != [] && Configuration.Printable(body) }
}

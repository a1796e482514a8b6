/**
  * Endpoint descriptors and the frames that describe an endpoint: version 3 capability and
  * stream configuration, version 2 header and CFG-1/CFG-2, and the periodic data body.
  */
module Configuration {
  import opened Bytes
  import opened Frames

  const PHASOR_COUNT := 6
  const V2_NAME_BYTES := 16

  /** Four opaque bytes where the source has a 32-bit float. */
  type Word = w: seq<byte> | |w| == 4 witness [0, 0, 0, 0]

  /** What only one version's endpoints carry; names of version 3 are stored encoded. */
  datatype Metadata =
    | MetadataV2(station: seq<byte>, channels: seq<seq<byte>>, phunits: seq<nat>, goodStat: bool)
    | MetadataV3(pdc: seq<byte>, pmu: seq<byte>, channels: seq<seq<byte>>, globalId: seq<byte>,
                 voltageScale: Word, currentScale: Word, voltageClass: Word)

  datatype Descriptor = Descriptor(
    streamId: nat,
    pmuId: nat,
    timeBase: nat,
    rate: nat,
    nominalFrequency: nat,
    metadata: Metadata)

  function VersionOf(d: Descriptor): WireVersion {
    if d.metadata.MetadataV2? then V2 else V3
  }

  // ----- names -----------------------------------------------------------------------------

  predicate Continuation(b: byte) { 0x80 <= b <= 0xBF }

  /** The length of the well-formed sequence at the front (section 4 of RFC 3629), zero if there is none. */
  function Utf8Sequence(s: seq<byte>): (n: nat)
    ensures n <= |s|
  {
    if |s| >= 1 && s[0] < 0x80 then 1
    else if |s| >= 2 && 0xC2 <= s[0] <= 0xDF && Continuation(s[1]) then 2
    else if |s| >= 3 && 0xE0 <= s[0] <= 0xEF && Continuation(s[1]) && Continuation(s[2])
            && (s[0] == 0xE0 ==> s[1] >= 0xA0) && (s[0] == 0xED ==> s[1] <= 0x9F) then 3
    else if |s| >= 4 && 0xF0 <= s[0] <= 0xF4 && Continuation(s[1]) && Continuation(s[2]) && Continuation(s[3])
            && (s[0] == 0xF0 ==> s[1] >= 0x90) && (s[0] == 0xF4 ==> s[1] <= 0x8F) then 4
    else 0
  }

  predicate Utf8(s: seq<byte>) {
    s == [] || (Utf8Sequence(s) > 0 && Utf8(s[Utf8Sequence(s)..]))
  }

  predicate IsControl(b: byte) { b < 0x20 || b == 0x7F }

  /** `encoded_name`: a length byte and the text. */
  function EncodedName(value: seq<byte>): Option<seq<byte>> {
    if value == [] || |value| > 255 then None
    else if exists i :: 0 <= i < |value| && IsControl(value[i]) then None
    else Some([|value|] + value)
  }

  predicate Printable(s: seq<byte>) { forall i :: 0 <= i < |s| ==> 0x20 <= s[i] <= 0x7E }

  /** `v2_fixed_ascii`: padded with spaces to sixteen bytes. */
  function FixedAscii(value: seq<byte>): Option<seq<byte>> {
    if value == [] || |value| > V2_NAME_BYTES || !Printable(value) then None
    else Some(value + seq(V2_NAME_BYTES - |value|, _ => 0x20))
  }

  /** A length byte followed by that many bytes of UTF-8. */
  predicate IsEncodedName(n: seq<byte>) {
    |n| >= 1 && n[0] == |n| - 1 && Utf8(n[1..])
  }

  predicate IsFixedName(n: seq<byte>) { |n| == V2_NAME_BYTES && Printable(n) }

  predicate IsPhunit(u: nat) { u < 0x200_0000 && u % 0x100_0000 != 0 }

  /** What the profile compiler guarantees of a descriptor. */
  predicate ValidDescriptor(d: Descriptor) {
    && 1 <= d.streamId < U16_MAX && 1 <= d.pmuId < U16_MAX
    && 0 < d.rate <= U16_MAX && 0 < d.timeBase < 0x100_0000 && d.timeBase % d.rate == 0
    && (d.nominalFrequency == 50 || d.nominalFrequency == 60)
    && match d.metadata
       case MetadataV2(station, channels, phunits, _) =>
         && IsFixedName(station)
         && |channels| == PHASOR_COUNT && (forall i :: 0 <= i < |channels| ==> IsFixedName(channels[i]))
         && |phunits| == PHASOR_COUNT && (forall i :: 0 <= i < |phunits| ==> IsPhunit(phunits[i]))
       case MetadataV3(pdc, pmu, channels, globalId, _, _, _) =>
         && IsEncodedName(pdc) && IsEncodedName(pmu) && |globalId| == 16
         && |channels| == PHASOR_COUNT + 2 && (forall i :: 0 <= i < |channels| ==> IsEncodedName(channels[i]))
  }

  // ----- bodies as lists of fields ---------------------------------------------------------

  /** The body under construction: every field is appended to the end. */
  function Concat(fields: seq<seq<byte>>): seq<byte> {
    if fields == [] then [] else Concat(fields[..|fields| - 1]) + fields[|fields| - 1]
  }

  /** Phase component bits, with the current flag for channels three to five. */
  function PhaseType(channel: nat): byte {
    (if channel % 3 == 0 then 4 else if channel % 3 == 1 then 5 else 6) + (if channel >= 3 then 8 else 0)
  }

  const ZERO: Word := [0, 0, 0, 0]
  const INFINITY: Word := [0x7F, 0x80, 0, 0]

  function ChannelScale(m: Metadata, channel: nat): seq<byte>
    requires m.MetadataV3?
  {
    [0, 0, PhaseType(channel), 0] + (if channel < 3 then m.voltageScale else m.currentScale) + ZERO + m.voltageClass
  }

  /** The phasor scaling fields of the first `n` channels. */
  function ChannelScales(m: Metadata, n: nat): (s: seq<byte>)
    requires m.MetadataV3?
    ensures |s| == 16 * n
  {
    if n == 0 then [] else ChannelScales(m, n - 1) + ChannelScale(m, n - 1)
  }

  function PmuFlag(nominalFrequency: nat): nat {
    0x8000 + if nominalFrequency == 50 then 0x2000 else 0
  }

  const FORMAT_FIXED_POLAR := 1

  function LeadingFieldsV3(d: Descriptor): seq<seq<byte>>
    requires d.metadata.MetadataV3?
  {
    [PutU16(0), PutU32(d.timeBase), d.metadata.pdc, PutU16(1), d.metadata.pmu, PutU16(d.pmuId), PutU16(3),
     d.metadata.globalId,
     PutU16(FORMAT_FIXED_POLAR), PutU16(PHASOR_COUNT), PutU16(0), PutU16(1), PutU16(1), PutU16(0)]
  }

  /** Frequency and ROCOF scales, their offsets, and three unknown limits; -1 twice for the position. */
  function TrailingFieldsV3(d: Descriptor): seq<seq<byte>>
    requires d.metadata.MetadataV3?
  {
    [ChannelScales(d.metadata, PHASOR_COUNT),
     [0x3A, 0x83, 0x12, 0x6F] + ZERO + [0x3C, 0x23, 0xD7, 0x0A] + ZERO,
     INFINITY + INFINITY + INFINITY,
     PutU16(PmuFlag(d.nominalFrequency)), PutU32(U32_MAX) + PutU32(U32_MAX),
     PutU16(d.rate), PutU16(0), PutU16(d.rate), PutU16(0)]
  }

  function BodyV3(d: Descriptor): seq<byte>
    requires d.metadata.MetadataV3?
  {
    Concat(LeadingFieldsV3(d)) + Concat(d.metadata.channels) + Concat(TrailingFieldsV3(d))
  }

  function LeadingFieldsV2(d: Descriptor): seq<seq<byte>>
    requires d.metadata.MetadataV2?
  {
    [PutU32(d.timeBase), PutU16(1), d.metadata.station, PutU16(d.pmuId), PutU16(FORMAT_FIXED_POLAR),
     PutU16(PHASOR_COUNT),
     PutU16(0), PutU16(0)]
  }

  function PhunitFields(units: seq<nat>): seq<seq<byte>> {
    seq(|units|, i requires 0 <= i < |units| => PutU32(units[i]))
  }

  function TrailingFieldsV2(d: Descriptor): seq<seq<byte>> {
    [PutU16(if d.nominalFrequency == 50 then 1 else 0), PutU16(0), PutU16(d.rate)]
  }

  function BodyV2(d: Descriptor): seq<byte>
    requires d.metadata.MetadataV2?
  {
    Concat(LeadingFieldsV2(d)) + Concat(d.metadata.channels) + Concat(PhunitFields(d.metadata.phunits))
    + Concat(TrailingFieldsV2(d))
  }

  // ----- where a field lies ----------------------------------------------------------------

  /** The offset of field `i`. */
  function Offset(fields: seq<seq<byte>>, i: nat): nat
    requires i <= |fields|
    decreases i
  {
    if i == 0 then 0 else Offset(fields, i - 1) + |fields[i - 1]|
  }

  lemma {:induction false} OffsetOfPrefix(fields: seq<seq<byte>>, n: nat, i: nat)
    requires i <= n <= |fields|
    ensures Offset(fields[..n], i) == Offset(fields, i)
  {
    if i > 0 {
      OffsetOfPrefix(fields, n, i - 1);
    }
  }

  lemma {:induction false} ConcatLength(fields: seq<seq<byte>>)
    ensures |Concat(fields)| == Offset(fields, |fields|)
    decreases |fields|
  {
    if fields != [] {
      var n := |fields| - 1;
      ConcatLength(fields[..n]);
      OffsetOfPrefix(fields, n, n);
    }
  }

  /** Every field stands at its offset. */
  lemma {:induction false} FieldAt(fields: seq<seq<byte>>, i: nat)
    requires i < |fields|
    ensures Offset(fields, i + 1) == Offset(fields, i) + |fields[i]| <= |Concat(fields)|
    ensures Concat(fields)[Offset(fields, i)..Offset(fields, i + 1)] == fields[i]
    decreases |fields|
  {
    var n := |fields| - 1;
    ConcatLength(fields);
    ConcatLength(fields[..n]);
    OffsetOfPrefix(fields, n, n);
    if i < n {
      FieldAt(fields[..n], i);
      OffsetOfPrefix(fields, n, i);
      OffsetOfPrefix(fields, n, i + 1);
    }
  }

  // ----- frames ----------------------------------------------------------------------------

  lemma {:induction false} OffsetBound(fields: seq<seq<byte>>, n: nat, largest: nat)
    requires n <= |fields| && forall i :: 0 <= i < |fields| ==> |fields[i]| <= largest
    ensures Offset(fields, n) <= n * largest
  {
    if n > 0 {
      OffsetBound(fields, n - 1, largest);
      assert n * largest == (n - 1) * largest + largest;
    }
  }

  lemma BodySizeV3(d: Descriptor)
    requires ValidDescriptor(d) && d.metadata.MetadataV3?
    ensures |BodyV3(d)| <= 2800
  {
    hide Utf8, PutU16, PutU32, ChannelScales;
    var head, tail := LeadingFieldsV3(d), TrailingFieldsV3(d);
    ConcatLength(head);
    ConcatLength(tail);
    ConcatLength(d.metadata.channels);
    OffsetBound(d.metadata.channels, 8, 256);
    assert |d.metadata.pdc| <= 256 && |d.metadata.pmu| <= 256;
    assert Offset(head, 7) <= 530;
    assert Offset(head, 14) <= 600;
    assert Offset(tail, 9) <= 150;
  }

  lemma BodySizeV2(d: Descriptor)
    requires ValidDescriptor(d) && d.metadata.MetadataV2?
    ensures |BodyV2(d)| <= 2800
  {
    hide Printable, PutU16, PutU32;
    var head, tail, units := LeadingFieldsV2(d), TrailingFieldsV2(d), PhunitFields(d.metadata.phunits);
    ConcatLength(head);
    ConcatLength(tail);
    ConcatLength(d.metadata.channels);
    ConcatLength(units);
    OffsetBound(d.metadata.channels, 6, 16);
    OffsetBound(units, 6, 4);
    OffsetBound(head, 8, 16);
    OffsetBound(tail, 3, 2);
  }

  /** The configuration body of either version. */
  function ConfigurationBody(d: Descriptor): (body: seq<byte>)
    requires ValidDescriptor(d)
    ensures |body| <= 2800
  {
    if d.metadata.MetadataV2? then BodySizeV2(d); BodyV2(d) else BodySizeV3(d); BodyV3(d)
  }

  /** `encode_configuration_1`, `encode_configuration_2`, `encode_capability`, `encode_stream_configuration`. */
  function ConfigurationFrame(d: Descriptor, frameType: nat, ts: Timestamp): (f: seq<byte>)
    requires ValidDescriptor(d) && frameType < 16
    ensures MIN_FRAME_BYTES <= |f| <= 2816
  {
    EncodeFrame(VersionOf(d), frameType, d.streamId, ts, ConfigurationBody(d))
  }

  /** `encode_header` of version 2. */
  function HeaderFrame(d: Descriptor, ts: Timestamp): (f: seq<byte>)
    requires ValidDescriptor(d) && d.metadata.MetadataV2?
    ensures |f| == 32
  {
    EncodeFrame(V2, V2_HEADER, d.streamId, ts, d.metadata.station)
  }

  // ----- periodic data ---------------------------------------------------------------------

  const STAT_SYNC_UNCERTAIN := 0x2000
  const STAT_TIME_QUALITY_UNKNOWN := 0x01C0
  const TIME_QUALITY_UNKNOWN := 0x7FFF

  /** STAT is good only for listed PMUs of version 2, and only while time is not degraded. */
  function Stat(m: Metadata, degraded: bool): nat {
    match m
    case MetadataV3(_, _, _, _, _, _, _) => STAT_SYNC_UNCERTAIN
    case MetadataV2(_, _, _, good) => if good && !degraded then 0 else STAT_SYNC_UNCERTAIN + STAT_TIME_QUALITY_UNKNOWN
  }

  /** Magnitude and angle of six phasors, frequency and ROCOF: fourteen fixed-point words. */
  type Signals = s: seq<nat> | |s| == 14 && forall i :: 0 <= i < |s| ==> s[i] <= U16_MAX
    witness [0, 0, 0, 0, 0, 0, 0, 0, 0, 0, 0, 0, 0, 0]

  function Words(s: seq<nat>): (w: seq<byte>)
    ensures |w| == 2 * |s|
  {
    if s == [] then [] else Words(s[..|s| - 1]) + PutU16(s[|s| - 1])
  }

  function DataWords(m: Metadata, degraded: bool, signals: Signals): seq<nat> {
    (if m.MetadataV3? then [Stat(m, degraded), TIME_QUALITY_UNKNOWN] else [Stat(m, degraded)]) + signals
  }

  function DataFrame(d: Descriptor, degraded: bool, signals: Signals, ts: Timestamp): (f: seq<byte>)
    ensures |f| == if d.metadata.MetadataV2? then 46 else 48
  {
    EncodeFrame(VersionOf(d), DataType(VersionOf(d)), d.streamId, ts, Words(DataWords(d.metadata, degraded, signals)))
  }
}

/**
  * What a probe reads: the frames an endpoint sends on one connection, as the probe of its
  * version expects them, and the probe's passage over the byte stream they make up.
  */
module Streams {
  import opened Bytes
  import opened Frames
  import opened Connections
  import opened Decoders
  import opened Probe
  import opened ConfigurationRoundTrip
  import Configuration
  import Layout
  import Timing
  import Crc

  /** An endpoint: its descriptor, the frames and limits compiled from it, and its sample clock. */
  datatype Plant = Plant(d: Configuration.Descriptor, cfg: Config, clock: Timing.WallClock)

  // ----- frames the probe expects ----------------------------------------------------------

  /** What the probe wants of a decoded frame of each kind. */
  predicate Content(p: Plant, kind: FrameKind, f: DecodedFrame)
    requires Timing.ValidRate(p.clock.rate, p.clock.timeBase) && p.d.rate > 0
  {
    var configured := DecodeConfiguration(p.cfg.version, f.body, p.d.rate) == Some(SummaryOf(p.d));
    match kind
    case HeaderFrame => p.cfg.version.V2? && f.frameType == V2_HEADER && HeaderAccepted(f.body)
    case Configuration1Frame => p.cfg.version.V2? && f.frameType == V2_CONFIGURATION_1 && configured
    case Configuration2Frame => p.cfg.version.V2? && f.frameType == V2_CONFIGURATION_2 && configured
    case CapabilityFrame => p.cfg.version.V3? && f.frameType == V3_CAPABILITY && configured
    case StreamConfigurationFrame => p.cfg.version.V3? && f.frameType == V3_STREAM_CONFIGURATION && configured
    case ErrorFrame => false
    case DataFrame(s) =>
      && f.frameType == DataType(p.cfg.version) && DataShape(p.cfg.version, f)
      && Timing.InSocRange(p.clock, s) && f.time == Timing.TimestampForSample(p.clock, s)
  }

  /** A frame that fits the probe's buffer, decodes, carries the endpoint's id and has the content of its kind. */
  predicate Expected(p: Plant, kind: FrameKind, bytes: seq<byte>)
    requires Timing.ValidRate(p.clock.rate, p.clock.timeBase) && p.d.rate > 0
  {
    var f := DecodeFrame(p.cfg.version, bytes);
    |bytes| < MAX_FRAME_BYTES && f.Some? && f.value.id == p.cfg.streamId && Content(p, kind, f.value)
  }

  /** The frames that `Server::new` encodes for an endpoint. */
  function FramesOf(d: Configuration.Descriptor, ts: Timestamp): EndpointFrames
    requires Configuration.ValidDescriptor(d)
  {
    if d.metadata.MetadataV2? then
      FramesV2(Configuration.HeaderFrame(d, ts), Configuration.ConfigurationFrame(d, V2_CONFIGURATION_1, ts),
               Configuration.ConfigurationFrame(d, V2_CONFIGURATION_2, ts))
    else
      FramesV3(Configuration.ConfigurationFrame(d, V3_CAPABILITY, ts),
               Configuration.ConfigurationFrame(d, V3_STREAM_CONFIGURATION, ts))
  }

  /** A frame of the given type byte that carries the endpoint's id and the time it was encoded at. */
  predicate Typed(f: seq<byte>, kind: byte, d: Configuration.Descriptor, ts: Timestamp) {
    && |f| >= 16 && f[1] == kind && Layout.Says(f, 4, 2, d.streamId)
    && Layout.Says(f, 6, 4, ts.soc) && Layout.Says(f, 11, 3, ts.fracsec)
  }

  /** The frames of an endpoint by their type bytes: header, CFG-1 and CFG-2, or the two of version 3. */
  lemma FramesTyped(d: Configuration.Descriptor, ts: Timestamp)
    requires Configuration.ValidDescriptor(d) && ValidTime(ts)
    ensures match FramesOf(d, ts)
            case FramesV2(header, configuration1, configuration2) =>
              && d.metadata.MetadataV2? && Typed(header, 0x12, d, ts) && header[14..30] == d.metadata.station
              && Typed(configuration1, 0x22, d, ts) && Typed(configuration2, 0x32, d, ts)
              && configuration1[14..|configuration1| - 2] == Configuration.BodyV2(d)
              && configuration2[14..|configuration2| - 2] == Configuration.BodyV2(d)
            case FramesV3(capability, configuration) =>
              && d.metadata.MetadataV3? && Typed(capability, 0xA3, d, ts) && Typed(configuration, 0xB3, d, ts)
              && capability[14..|capability| - 2] == Configuration.BodyV3(d)
              && configuration[14..|configuration| - 2] == Configuration.BodyV3(d)
  {
    hide Typed, EncodeFrame, Configuration.BodyV2, Configuration.BodyV3, Configuration.Utf8, Configuration.Printable,
      Configuration.IsPhunit;
    var body := Configuration.ConfigurationBody(d);
    if d.metadata.MetadataV2? {
      OneTyped(V2, V2_HEADER, d, ts, d.metadata.station);
      OneTyped(V2, V2_CONFIGURATION_1, d, ts, body);
      OneTyped(V2, V2_CONFIGURATION_2, d, ts, body);
    } else {
      OneTyped(V3, V3_CAPABILITY, d, ts, body);
      OneTyped(V3, V3_STREAM_CONFIGURATION, d, ts, body);
    }
  }

  lemma OneTyped(v: WireVersion, frameType: nat, d: Configuration.Descriptor, ts: Timestamp, body: seq<byte>)
    requires frameType < 16 && (v.V2? ==> frameType < 8)
    requires d.streamId <= U16_MAX && ValidTime(ts) && |body| <= 2800
    ensures var f := EncodeFrame(v, frameType, d.streamId, ts, body);
            && Typed(f, 16 * frameType + (if v.V2? then 2 else 3), d, ts)
            && |f| == 16 + |body| && f[14..|f| - 2] == body
  {
    hide EncodeFrame, Layout.Number;
    Layout.FrameLayout(v, frameType, d.streamId, ts, body);
  }

  /** A compiled endpoint whose sample clock is aligned. */
  predicate Sound(p: Plant, born: Timestamp) {
    && Configuration.ValidDescriptor(p.d) && ValidTime(born)
    && p.cfg.version == Configuration.VersionOf(p.d) && p.cfg.streamId == p.d.streamId
    && COMMAND_FRAME_BYTES <= p.cfg.limit <= MAX_COMMAND_FRAME_BYTES
    && p.cfg.frames == FramesOf(p.d, born)
    && p.clock.rate == p.d.rate && p.clock.timeBase == p.d.timeBase && Timing.Aligned(p.clock)
  }

  lemma SoundConfig(p: Plant, born: Timestamp)
    requires Sound(p, born)
    ensures ValidConfig(p.cfg)
  {
    hide Timing.Aligned, Configuration.Utf8, Configuration.IsEncodedName, Configuration.IsFixedName,
      Configuration.IsPhunit,
      Configuration.ConfigurationFrame, Configuration.HeaderFrame;
  }

  /** The frames of an endpoint are the ones its probe expects. */
  lemma FramesExpected(p: Plant, born: Timestamp, emitted: Emitted, kind: FrameKind)
    requires Sound(p, born) && Fits(p.cfg, kind) && !kind.ErrorFrame? && !kind.DataFrame?
    ensures Known(p.cfg, emitted, kind) && Expected(p, kind, Whole(p.cfg, emitted, [], kind))
  {
    hide DecodeFrame, Configuration.ConfigurationFrame, Configuration.HeaderFrame, DecodeConfiguration, HeaderAccepted;
    match kind {
      case HeaderFrame => HeaderDecodes(p.d, born);
      case Configuration1Frame => ConfigurationDecodes(p.d, V2_CONFIGURATION_1, born);
      case Configuration2Frame => ConfigurationDecodes(p.d, V2_CONFIGURATION_2, born);
      case CapabilityFrame => ConfigurationDecodes(p.d, V3_CAPABILITY, born);
      case StreamConfigurationFrame => ConfigurationDecodes(p.d, V3_STREAM_CONFIGURATION, born);
      case _ =>
    }
  }

  /** The data frame of a sample within the SOC range. */
  function SampleFrame(p: Plant, sample: nat, degraded: bool, signals: Configuration.Signals): seq<byte>
    requires Timing.ValidRate(p.clock.rate, p.clock.timeBase)
  {
    Configuration.DataFrame(p.d, degraded, signals, Timing.TimestampForSample(p.clock, sample))
  }

  lemma DataFits(p: Plant, sample: nat, degraded: bool, signals: Configuration.Signals)
    requires Timing.ValidRate(p.clock.rate, p.clock.timeBase)
    ensures |SampleFrame(p, sample, degraded, signals)| < MAX_FRAME_BYTES
  {
    hide Timing.TimestampForSample;
  }

  lemma SampleExpected(p: Plant, born: Timestamp, sample: nat, degraded: bool, signals: Configuration.Signals)
    requires Sound(p, born) && Timing.InSocRange(p.clock, sample)
    ensures Expected(p, DataFrame(sample), SampleFrame(p, sample, degraded, signals))
  {
    hide DecodeFrame, Configuration.DataFrame, DecodeConfiguration, Timing.TimestampForSample, Timing.InSocRange,
      DataShape,
      FramesOf, Timing.TicksPerFrame, Timing.ToTicks, Configuration.Utf8, Configuration.IsEncodedName,
      Configuration.IsFixedName;
    DataFits(p, sample, degraded, signals);
    Timing.SampleTimestamp(p.clock, sample);
    DataDecodes(p.d, degraded, signals, Timing.TimestampForSample(p.clock, sample));
  }

  // ----- the byte stream -------------------------------------------------------------------

  /** The kinds are known, none is an error, and every frame is as expected. */
  ghost predicate Clean(p: Plant, emitted: Emitted, kinds: seq<FrameKind>) {
    && Timing.ValidRate(p.clock.rate, p.clock.timeBase) && p.d.rate > 0
    && AllKnown(p.cfg, emitted, kinds)
    && forall i :: 0 <= i < |kinds| ==> Expected(p, kinds[i], Whole(p.cfg, emitted, [], kinds[i]))
  }

  /** The bytes of the first `n` frames. */
  ghost function Flow(p: Plant, emitted: Emitted, kinds: seq<FrameKind>, n: nat): seq<byte>
    requires n <= |kinds| && AllKnown(p.cfg, emitted, kinds)
  {
    Transcript(p.cfg, emitted, [], kinds[..n])
  }

  lemma FlowStep(p: Plant, emitted: Emitted, kinds: seq<FrameKind>, n: nat)
    requires n < |kinds| && AllKnown(p.cfg, emitted, kinds)
    ensures Flow(p, emitted, kinds, n + 1) == Flow(p, emitted, kinds, n) + Whole(p.cfg, emitted, [], kinds[n])
  {
    assert kinds[..n + 1][..n] == kinds[..n];
  }

  lemma {:induction false} FlowPrefix(p: Plant, emitted: Emitted, kinds: seq<FrameKind>, m: nat, n: nat)
    requires m <= n <= |kinds| && AllKnown(p.cfg, emitted, kinds)
    ensures Flow(p, emitted, kinds, m) <= Flow(p, emitted, kinds, n)
  {
    hide Flow;
    if m < n {
      FlowPrefix(p, emitted, kinds, m, n - 1);
      FlowStep(p, emitted, kinds, n - 1);
    }
  }

  /** What the probe holds after `m` frames is the beginning of the frames that follow. */
  ghost predicate Upcoming(p: Plant, emitted: Emitted, kinds: seq<FrameKind>, m: nat, input: seq<byte>) {
    m <= |kinds| && AllKnown(p.cfg, emitted, kinds)
    && Flow(p, emitted, kinds, m) + input <= Flow(p, emitted, kinds, |kinds|)
  }

  lemma DecodedSize(v: WireVersion, bytes: seq<byte>)
    requires DecodeFrame(v, bytes).Some?
    ensures MIN_FRAME_BYTES <= |bytes| && DeclaredSize(bytes) == |bytes|
  {
    hide Crc.ChecksumMatches;
  }

  /** Once four bytes are there, the next frame and its size are determined. */
  lemma NextFrame(p: Plant, emitted: Emitted, kinds: seq<FrameKind>, m: nat, input: seq<byte>)
    requires Clean(p, emitted, kinds) && Upcoming(p, emitted, kinds, m, input) && |input| > 0
    ensures m < |kinds|
    ensures var f := Whole(p.cfg, emitted, [], kinds[m]);
            && MIN_FRAME_BYTES <= |f| < MAX_FRAME_BYTES
            && (|input| >= 4 ==> DeclaredSize(input) == |f|)
            && (|input| >= |f| ==> input[..|f|] == f && Upcoming(p, emitted, kinds, m + 1, input[|f|..]))
  {
    hide Flow, Whole, Known, DecodeFrame, Content;
    var t, all := Flow(p, emitted, kinds, m), Flow(p, emitted, kinds, |kinds|);
    var f := Whole(p.cfg, emitted, [], kinds[m]);
    FlowStep(p, emitted, kinds, m);
    FlowPrefix(p, emitted, kinds, m + 1, |kinds|);
    assert Expected(p, kinds[m], f);
    DecodedSize(p.cfg.version, f);
    assert t + f <= all && t + input <= all;
    CommonPrefix(t, f, input, all);
  }

  lemma CommonPrefix(t: seq<byte>, f: seq<byte>, input: seq<byte>, all: seq<byte>)
    requires t + f <= all && t + input <= all && |f| >= 4
    ensures |input| >= 4 ==> input[2] == f[2] && input[3] == f[3]
    ensures |input| >= |f| ==> input[..|f|] == f && (t + f) + input[|f|..] <= all
  {
    assert forall i :: 0 <= i < |f| ==> all[|t| + i] == f[i];
    assert forall i :: 0 <= i < |input| ==> all[|t| + i] == input[i];
    if |input| >= |f| {
      assert input == f + input[|f|..];
      assert (t + f) + input[|f|..] == t + input;
    }
  }
}

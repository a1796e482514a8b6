/**
  * The handshake script that a probe follows, step by step, and how each side moves along it:
  * the probe over the frames it receives, the server over the commands it receives.
  */
module Handshake {
  import opened Bytes
  import opened Frames
  import opened Receive
  import opened Connections
  import opened Decoders
  import opened Probe
  import opened Streams
  import opened ConfigurationRoundTrip
  import Configuration
  import Timing

  // ----- the script ------------------------------------------------------------------------

  function Script(v: WireVersion): seq<Command> {
    if v.V2? then [Header2, Configuration1, Configuration2, Start] else [Capability, StreamConfiguration, Start]
  }

  /** What the server answers to each command but the last, which starts the data. */
  function Replies(v: WireVersion): seq<FrameKind> {
    if v.V2? then [HeaderFrame, Configuration1Frame, Configuration2Frame]
    else [CapabilityFrame, StreamConfigurationFrame]
  }

  function Steps(v: WireVersion): (n: nat)
    ensures n == |Script(v)| == |Replies(v)| + 1
  {
    if v.V2? then 4 else 3
  }

  function StepOf(v: WireVersion, c: Command): nat {
    match c
    case Header2 => if v.V2? then 0 else 9
    case Configuration1 => if v.V2? then 1 else 9
    case Configuration2 => if v.V2? then 2 else 9
    case Capability => if v.V3? then 0 else 9
    case StreamConfiguration => if v.V3? then 1 else 9
    case Start => if v.V2? then 3 else 2
    case Stop => 9
  }

  /** The number of queued commands from which on the probe knows the configuration. */
  function ConfiguredAt(v: WireVersion): nat { if v.V2? then 3 else 2 }

  lemma ScriptSteps(v: WireVersion, i: nat)
    requires i < Steps(v)
    ensures StepOf(v, Script(v)[i]) == i && CommandWord(v, Script(v)[i]).Some?
    ensures i + 1 == Steps(v) <==> Script(v)[i] == Start
    ensures Script(v)[0] == FirstCommand(v)
  {
  }

  // ----- the probe -------------------------------------------------------------------------

  /** How many commands the probe has queued. */
  function Queued(c: Client): nat {
    match c.state
    case Connecting => 0
    case Sending(command) => StepOf(c.version, command) + 1
    case Awaiting(command) => StepOf(c.version, command) + 1
    case Streaming => Steps(c.version)
  }

  /** How many bytes of commands it has written. */
  function WrittenBytes(c: Client): nat {
    match c.state
    case Connecting => 0
    case Sending(command) => StepOf(c.version, command) * COMMAND_FRAME_BYTES + c.offset
    case _ => Queued(c) * COMMAND_FRAME_BYTES
  }

  /** How many frames it has accepted: one for every command but the newest, and the data frames. */
  function Consumed(c: Client): nat {
    (if Queued(c) == 0 then 0 else Queued(c) - 1) + c.dataFrames
  }

  predicate ClientOk(p: Plant, c: Client) {
    && c.version == p.cfg.version && c.id == p.cfg.streamId && c.rate == p.d.rate && Sane(c)
    && (match c.state
        case Connecting => true
        case Sending(command) =>
          && StepOf(c.version, command) < Steps(c.version) && CommandWord(c.version, command).Some?
          && c.output == CommandBytes(c.version, c.id, command) && |c.output| == COMMAND_FRAME_BYTES
          && c.offset < COMMAND_FRAME_BYTES
        case Awaiting(command) => StepOf(c.version, command) + 1 < Steps(c.version)
        case Streaming => true)
    && (Queued(c) >= ConfiguredAt(c.version) ==> c.configuration == Some(SummaryOf(p.d)))
    && (c.dataFrames > 0 ==> c.state.Streaming?)
  }

  /** The replies come first, then data frames of consecutive samples up to the newest. */
  ghost predicate Shape(v: WireVersion, kinds: seq<FrameKind>, next: nat) {
    forall i :: 0 <= i < |kinds| ==> KindAt(v, kinds[i], i, next + i - |kinds|)
  }

  /** Frame `i` is the reply to command `i`, or else the data of `sample`. */
  predicate KindAt(v: WireVersion, kind: FrameKind, i: nat, sample: int) {
    if i + 1 < Steps(v) then kind == Replies(v)[i] else sample >= 0 && kind == DataFrame(sample)
  }

  /** The probe remembers the timestamp of the data frame it accepted last. */
  ghost predicate LastOk(p: Plant, kinds: seq<FrameKind>, c: Client)
    requires Timing.ValidRate(p.clock.rate, p.clock.timeBase)
  {
    var m := Consumed(c);
    && m <= |kinds|
    && (c.dataFrames == 0 ==> c.last == None)
    && (c.dataFrames > 0 ==>
          && m >= Steps(c.version) && kinds[m - 1].DataFrame? && Timing.InSocRange(p.clock, kinds[m - 1].sample)
          && c.last == Some(Timing.TimestampForSample(p.clock, kinds[m - 1].sample)))
  }

  /** The probe waits for the next frame whenever there is one; a reply is the newest frame. */
  ghost predicate Ready(kinds: seq<FrameKind>, c: Client) {
    var m := Consumed(c);
    m < |kinds| ==>
      if m + 1 < Steps(c.version) then c.state == Awaiting(Script(c.version)[m]) && |kinds| == m + 1
      else c.state == Streaming
  }

  lemma CommandSize(v: WireVersion, id: nat, command: Command)
    requires CommandWord(v, command).Some? && id <= U16_MAX
    ensures |CommandBytes(v, id, command)| == COMMAND_FRAME_BYTES
  {
    CommandRoundTrip(v, id, command, Timestamp(0, 0));
  }

  /** The awaited reply is accepted and the next command queued. */
  lemma ReplyAccepted(p: Plant, born: Timestamp, c: Client, m: nat, f: DecodedFrame)
    requires Sound(p, born) && ClientOk(p, c) && m + 1 < Steps(p.cfg.version)
             && c.state == Awaiting(Script(p.cfg.version)[m])
    requires Content(p, Replies(p.cfg.version)[m], f)
    ensures var r := HandleFrame(c, f);
            && r.Ok? && ClientOk(p, r.value) && r.value.state == ClientState.Sending(Script(p.cfg.version)[m + 1])
            && r.value.offset == 0
            && r.value.dataFrames == c.dataFrames == 0 && r.value.last == c.last && r.value.input == c.input
            && Queued(c) == m + 1 && Queued(r.value) == m + 2
  {
    hide DecodeConfiguration, HeaderAccepted, CommandBytes, FramesOf, Timing.Aligned, Configuration.ValidDescriptor,
      DataAccepted;
    SoundId(p, born);
    CommandSize(p.cfg.version, p.cfg.streamId, Script(p.cfg.version)[m + 1]);
  }

  lemma SoundId(p: Plant, born: Timestamp)
    requires Sound(p, born)
    ensures p.cfg.streamId <= U16_MAX && p.d.rate > 0 && Timing.ValidRate(p.clock.rate, p.clock.timeBase)
  {
    hide FramesOf;
  }

  /** A data frame one sample after the last is accepted. */
  lemma DataFrameAccepted(p: Plant, born: Timestamp, c: Client, sample: nat, f: DecodedFrame)
    requires Sound(p, born) && ClientOk(p, c) && c.state == Streaming && Content(p, DataFrame(sample), f)
    requires c.last.Some? ==> sample > 0 && Timing.InSocRange(p.clock, sample - 1)
                              && c.last.value == Timing.TimestampForSample(p.clock, sample - 1)
    ensures HandleFrame(c, f) == Ok(c.(last := Some(f.time), dataFrames := c.dataFrames + 1))
    ensures ClientOk(p, c.(last := Some(f.time), dataFrames := c.dataFrames + 1))
  {
    hide DecodeConfiguration, CommandBytes, FramesOf, Timing.TimestampForSample, Timing.InSocRange, DataShape;
    Timing.SampleTimestamp(p.clock, sample);
    if c.last.Some? {
      Timing.SampleSpacing(p.clock, sample - 1, sample);
    }
  }

  /** What passing over the buffered frames guarantees. */
  ghost predicate Passed(p: Plant, emitted: Emitted, kinds: seq<FrameKind>, c: Client, d: Client)
    requires AllKnown(p.cfg, emitted, kinds) && Timing.ValidRate(p.clock.rate, p.clock.timeBase)
             && Consumed(c) <= |kinds|
  {
    && ClientOk(p, d) && LastOk(p, kinds, d) && Consumed(d) <= |kinds|
    && Flow(p, emitted, kinds, Consumed(d)) + d.input == Flow(p, emitted, kinds, Consumed(c)) + c.input
    && WrittenBytes(d) == WrittenBytes(c)
    && Queued(c) <= Queued(d) <= Queued(c) + 1
    && (Queued(d) > Queued(c) ==> |kinds| >= Queued(c) && Queued(d) <= Steps(p.cfg.version))
  }

  /** One whole frame at the front of the input. */
  lemma FramePassed(p: Plant, born: Timestamp, emitted: Emitted, kinds: seq<FrameKind>, next: nat, c: Client,
                    f: DecodedFrame)
    requires Sound(p, born) && Clean(p, emitted, kinds) && Shape(p.cfg.version, kinds, next)
    requires ClientOk(p, c) && LastOk(p, kinds, c) && Ready(kinds, c) && Consumed(c) < |kinds|
    requires Content(p, kinds[Consumed(c)], f)
    ensures var r := HandleFrame(c, f);
            && r.Ok? && ClientOk(p, r.value) && LastOk(p, kinds, r.value) && Ready(kinds, r.value)
            && Consumed(r.value) == Consumed(c) + 1 && r.value.input == c.input
            && WrittenBytes(r.value) == WrittenBytes(c)
            && Queued(c) <= Queued(r.value) <= Steps(p.cfg.version)
            && (Queued(r.value) > Queued(c) ==>
                  Consumed(r.value) == |kinds| && |kinds| >= Queued(c) && Queued(r.value) == Queued(c) + 1)
  {
    hide HandleFrame, DecodeConfiguration, CommandBytes, Sound, Clean, Timing.TimestampForSample, Timing.InSocRange;
    var m := Consumed(c);
    if m + 1 < Steps(p.cfg.version) {
      ReplyAccepted(p, born, c, m, f);
      ScriptSteps(p.cfg.version, m);
      ScriptSteps(p.cfg.version, m + 1);
    } else {
      var sample := kinds[m].sample;
      assert kinds[m] == DataFrame(next - (|kinds| - m));
      if c.last.Some? {
        assert kinds[m - 1] == DataFrame(next - (|kinds| - (m - 1)));
      }
      DataFrameAccepted(p, born, c, sample, f);
    }
  }

  /** The probe passes over every whole frame in its input without an error. */
  lemma {:induction false} InputPassed(p: Plant, born: Timestamp, emitted: Emitted, kinds: seq<FrameKind>, next: nat,
                                       c: Client)
    requires Sound(p, born) && Clean(p, emitted, kinds) && Shape(p.cfg.version, kinds, next)
    requires ClientOk(p, c) && LastOk(p, kinds, c) && Ready(kinds, c)
             && Upcoming(p, emitted, kinds, Consumed(c), c.input)
    ensures ProcessInput(c).Ok? && Passed(p, emitted, kinds, c, ProcessInput(c).value)
    decreases |c.input|
  {
    hide HandleFrame, DecodeFrame, Content, Flow, Whole, Known, Sound, LastOk, Ready, ClientOk, Shape, Queued,
      WrittenBytes;
    ClientSane(p, c);
    if |c.input| >= 4 {
      var m := Consumed(c);
      NextFrame(p, emitted, kinds, m, c.input);
      var frame := Whole(p.cfg, emitted, [], kinds[m]);
      var size := |frame|;
      if |c.input| >= size {
        assert Expected(p, kinds[m], frame);
        var f := DecodeFrame(p.cfg.version, frame).value;
        var rest := c.(input := c.input[size..]);
        RestOk(p, kinds, c, rest);
        FramePassed(p, born, emitted, kinds, next, rest, f);
        var d := HandleFrame(rest, f).value;
        InputPassed(p, born, emitted, kinds, next, d);
        ClientSane(p, d);
        if Queued(d) > Queued(c) {
          assert d.input == [];
        }
        FlowStep(p, emitted, kinds, m);
        assert c.input == frame + rest.input;
        PassedTrans(p, emitted, kinds, c, d, ProcessInput(d).value);
      }
    }
  }

  lemma ClientSane(p: Plant, c: Client)
    requires ClientOk(p, c)
    ensures Sane(c) && c.version == p.cfg.version && c.id == p.cfg.streamId
  {
  }

  lemma RestOk(p: Plant, kinds: seq<FrameKind>, c: Client, rest: Client)
    requires ClientOk(p, c) && Timing.ValidRate(p.clock.rate, p.clock.timeBase) && LastOk(p, kinds, c)
             && Ready(kinds, c) && rest == c.(input := rest.input)
    ensures ClientOk(p, rest) && LastOk(p, kinds, rest) && Ready(kinds, rest)
    ensures Consumed(rest) == Consumed(c) && Queued(rest) == Queued(c) && WrittenBytes(rest) == WrittenBytes(c)
  {
  }

  lemma PassedTrans(p: Plant, emitted: Emitted, kinds: seq<FrameKind>, c: Client, d: Client, e: Client)
    requires AllKnown(p.cfg, emitted, kinds) && Timing.ValidRate(p.clock.rate, p.clock.timeBase)
    requires Consumed(c) <= |kinds| && Consumed(d) <= |kinds| && Passed(p, emitted, kinds, d, e)
    requires Flow(p, emitted, kinds, Consumed(d)) + d.input == Flow(p, emitted, kinds, Consumed(c)) + c.input
    requires WrittenBytes(d) == WrittenBytes(c) && Queued(c) <= Queued(d) <= Steps(p.cfg.version)
    requires Queued(d) > Queued(c) ==> Consumed(d) == |kinds| && |kinds| >= Queued(c) && Queued(d) == Queued(c) + 1
    requires Queued(d) > Queued(c) ==> e == d
    ensures Passed(p, emitted, kinds, c, e)
  {
  }
}

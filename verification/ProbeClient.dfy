/** The probe's client as it runs: fields updated in place over a fixed input buffer. */
module ProbeClient {
  import opened Bytes
  import opened Frames
  import opened Decoders
  import opened Probe
  import Connections
  import Receive

  /** The bytes of successive reads. */
  function Joined(chunks: seq<seq<byte>>): seq<byte> {
    if chunks == [] then [] else Joined(chunks[..|chunks| - 1]) + chunks[|chunks| - 1]
  }

  lemma {:induction false} JoinedGrows(chunks: seq<seq<byte>>, n: nat)
    requires n <= |chunks|
    ensures |Joined(chunks[..n])| <= |Joined(chunks)|
    decreases |chunks|
  {
    if n < |chunks| {
      assert chunks[..|chunks| - 1][..n] == chunks[..n];
      JoinedGrows(chunks[..|chunks| - 1], n);
    } else {
      assert chunks[..n] == chunks;
    }
  }

  lemma JoinedStep(chunks: seq<seq<byte>>, i: nat)
    requires i < |chunks|
    ensures Joined(chunks[..i + 1]) == Joined(chunks[..i]) + chunks[i]
  {
    assert chunks[..i + 1][..i] == chunks[..i];
  }

  lemma NothingJoined(chunks: seq<seq<byte>>)
    ensures Joined(chunks[..0]) == []
  {
  }

  class ProbeClient {
    const version: WireVersion
    const id: nat
    const rate: nat
    const input: Receive.ReceiveBuffer
    var output: seq<byte>
    var outputOffset: nat
    var state: ClientState
    var configuration: Option<Summary>
    var last: Option<Timestamp>
    var dataFrames: nat

    ghost predicate Valid()
      reads this, input, input.bytes
    {
      input.Valid() && input.limit == MAX_FRAME_BYTES && Sane(State())
    }

    ghost function State(): Client
      reads this, input, input.bytes
      requires input.Valid()
    {
      Client(version, id, rate, input.Contents(), output, outputOffset, state, configuration, last, dataFrames)
    }

    constructor (version: WireVersion, id: nat, rate: nat)
      requires rate > 0
      ensures Valid() && State() == NewClient(version, id, rate)
    {
      this.version := version;
      this.id := id;
      this.rate := rate;
      input := new Receive.ReceiveBuffer(MAX_FRAME_BYTES);
      output := [];
      outputOffset := 0;
      state := Connecting;
      configuration := None;
      last := None;
      dataFrames := 0;
    }

    method Queue(command: Command)
      requires Valid() && CommandWord(version, command).Some?
      modifies this
      ensures Valid() && State() == QueueCommand(old(State()), command)
    {
      hide CommandBytes;
      output := CommandBytes(version, id, command);
      outputOffset := 0;
      state := Sending(command);
    }

    /** The bytes of `r` are what the socket accepted. */
    method WriteReady(outcome: Connections.WriteOutcome) returns (r: Result<seq<byte>, ProbeError>)
      requires Valid() && (outcome.Wrote? ==> outcome.count <= |Outgoing(Connected(State()))|)
      modifies this
      ensures match Probe.WriteReady(old(State()), outcome)
              case Err(e) => r == Err(e)
              case Ok(w) => r == Ok(w.bytes) && Valid() && State() == w.client
    {
      hide CommandBytes;
      if state == Connecting {
        Queue(FirstCommand(version));
      }
      if !state.Sending? {
        return Ok([]);
      }
      match outcome {
        case WriteBlocked => return Ok([]);
        case WriteFailed => return Err(WriteError);
        case Wrote(count) =>
          if count == 0 {
            return Err(PeerClosed);
          }
          var bytes := output[outputOffset..outputOffset + count];
          assert bytes == output[outputOffset..][..count];
          outputOffset := outputOffset + count;
          if outputOffset == |output| {
            match state.command {
              case Stop => return Err(SentStop);
              case Start => state := Streaming;
              case command => state := Awaiting(command);
            }
          }
          r := Ok(bytes);
      }
    }

    method HandleFrame(f: DecodedFrame) returns (r: Result<(), ProbeError>)
      requires Valid()
      modifies this
      ensures match Probe.HandleFrame(old(State()), f)
              case Err(e) => r == Err(e)
              case Ok(c) => r == Ok(()) && Valid() && State() == c
    {
      hide DecodeConfiguration, DataAccepted, HeaderAccepted, CommandBytes;
      r := Ok(());
      if state == Streaming && f.frameType == DataType(version) {
        if configuration.None? {
          return Err(NoConfiguration);
        }
        if !DataAccepted(version, f, configuration.value, last) {
          return Err(BadData);
        }
        last := Some(f.time);
        dataFrames := dataFrames + 1;
      } else if version.V2? && state == Awaiting(Header2) && f.frameType == V2_HEADER {
        if !HeaderAccepted(f.body) {
          return Err(BadHeader);
        }
        Queue(Configuration1);
      } else if (version.V2? && state == Awaiting(Configuration1) && f.frameType == V2_CONFIGURATION_1)
                || (version.V3? && state == Awaiting(Capability) && f.frameType == V3_CAPABILITY)
      {
        var decoded := DecodeConfiguration(version, f.body, rate);
        if decoded.None? {
          return Err(BadConfiguration);
        }
        SummaryFits(version, f.body, rate);
        configuration := decoded;
        Queue(if version.V2? then Configuration2 else StreamConfiguration);
      } else if (version.V2? && state == Awaiting(Configuration2) && f.frameType == V2_CONFIGURATION_2)
                || (version.V3? && state == Awaiting(StreamConfiguration) && f.frameType == V3_STREAM_CONFIGURATION)
      {
        var decoded := DecodeConfiguration(version, f.body, rate);
        if decoded.None? {
          return Err(BadConfiguration);
        }
        if configuration != decoded {
          return Err(ConfigurationsDisagree);
        }
        Queue(Start);
      } else {
        r := Err(if version.V3? && f.frameType == V3_ERROR_RESPONSE then ErrorResponse else UnexpectedFrame);
      }
    }

    /** Reads until the socket would block; a full buffer is an error. */
    method Fill(chunks: seq<seq<byte>>) returns (full: bool)
      requires Valid()
      modifies input, input.bytes
      ensures full <==> |old(State()).input| + |Joined(chunks)| >= MAX_FRAME_BYTES
      ensures !full ==> Valid() && State() == old(State()).(input := old(State()).input + Joined(chunks))
    {
      hide Joined;
      ghost var start := input.Contents();
      NothingJoined(chunks);
      for i := 0 to |chunks|
        invariant input.Valid()
        invariant if |start| + |Joined(chunks[..i])| < MAX_FRAME_BYTES then input.Contents()
                                                                         == start + Joined(chunks[..i])
          else input.length == MAX_FRAME_BYTES
      {
        JoinedStep(chunks, i);
        JoinedGrows(chunks, i + 1);
        if input.length == MAX_FRAME_BYTES {
          return true;
        }
        input.Fill(chunks[i]);
      }
      assert chunks[..|chunks|] == chunks;
      full := input.length == MAX_FRAME_BYTES;
    }

    method ReadReady(chunks: seq<seq<byte>>) returns (r: Result<(), ProbeError>)
      requires Valid()
      modifies this, input, input.bytes
      ensures match Probe.ReadReady(old(State()), Joined(chunks))
              case Err(e) => r == Err(e)
              case Ok(c) => r == Ok(()) && Valid() && State() == c
    {
      hide DecodeFrame, Joined, Probe.HandleFrame;
      var full := Fill(chunks);
      if full {
        return Err(BufferFull);
      }
      ghost var filled := State();
      while input.length >= 4
        invariant Valid() && ProcessInput(State()) == ProcessInput(filled)
        decreases input.length
      {
        ghost var c := State();
        var size := U16(input.bytes[2], input.bytes[3]);
        assert size == DeclaredSize(c.input);
        if SizeRefused(version, size) {
          return Err(BadSize);
        }
        if input.length < size {
          break;
        }
        var frame := input.bytes[..size];
        assert frame == c.input[..size];
        var decoded := DecodeFrame(version, frame);
        if decoded.None? {
          return Err(BadFrame);
        }
        DecodedNotEmpty(version, frame);
        input.DropFront(size);
        if decoded.value.id != id {
          return Err(WrongIdentity);
        }
        var handled := HandleFrame(decoded.value);
        if handled.Err? {
          return handled;
        }
      }
      r := Ok(());
    }
  }

  lemma DecodedNotEmpty(v: WireVersion, bytes: seq<byte>)
    requires DecodeFrame(v, bytes).Some?
    ensures |bytes| >= MIN_FRAME_BYTES
  {
  }
}

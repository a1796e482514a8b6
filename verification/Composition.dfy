/**
  * Probe and server together over two byte channels: any fragmentation, any interleaving of
  * reads, partial writes and reporting ticks.
  */
module Composition {
  import opened Bytes
  import opened Frames
  import opened Receive
  import opened Connections
  import opened Probe
  import opened Streams
  import opened Handshake
  import Endpoints
  import Configuration
  import Timing

  // ----- the commands on the wire ----------------------------------------------------------

  /** The bytes of the first `n` commands of the script. */
  function CommandFlow(v: WireVersion, id: nat, n: nat): seq<byte>
    requires n <= Steps(v)
  {
    if n == 0 then [] else ScriptSteps(v, n - 1); CommandFlow(v, id, n - 1) + CommandBytes(v, id, Script(v)[n - 1])
  }

  lemma {:induction false} CommandFlowSize(v: WireVersion, id: nat, n: nat)
    requires n <= Steps(v) && id <= U16_MAX
    ensures |CommandFlow(v, id, n)| == n * COMMAND_FRAME_BYTES
  {
    hide CommandBytes;
    if n > 0 {
      CommandFlowSize(v, id, n - 1);
      ScriptSteps(v, n - 1);
      CommandSize(v, id, Script(v)[n - 1]);
    }
  }

  lemma {:induction false} CommandFlowAt(v: WireVersion, id: nat, n: nat, i: nat)
    requires i < n <= Steps(v) && id <= U16_MAX
    ensures |CommandFlow(v, id, n)| == n * COMMAND_FRAME_BYTES && CommandWord(v, Script(v)[i]).Some?
    ensures CommandFlow(v, id, n)[i * COMMAND_FRAME_BYTES..(i + 1) * COMMAND_FRAME_BYTES]
         == CommandBytes(v, id, Script(v)[i])
  {
    hide CommandBytes, Script;
    CommandFlowSize(v, id, n);
    CommandFlowSize(v, id, n - 1);
    ScriptSteps(v, i);
    ScriptSteps(v, n - 1);
    CommandSize(v, id, Script(v)[n - 1]);
    var front, last := CommandFlow(v, id, n - 1), CommandBytes(v, id, Script(v)[n - 1]);
    if i + 1 < n {
      CommandFlowAt(v, id, n - 1, i);
      SliceOfFront(front, last, i * COMMAND_FRAME_BYTES, (i + 1) * COMMAND_FRAME_BYTES);
    } else {
      assert (front + last)[|front|..|front| + |last|] == last;
    }
  }

  lemma SliceOfFront(a: seq<byte>, b: seq<byte>, from: nat, to: nat)
    requires from <= to <= |a|
    ensures (a + b)[from..to] == a[from..to]
  {
  }

  // ----- the server on a part of the script ------------------------------------------------

  /** How many commands of the script the server has handled. */
  function Handled(v: WireVersion, c: Connection): nat {
    if c.streaming then Steps(v) else |InFlight(c)|
  }

  /** A proper part of a command is waited for. */
  lemma PartWaits(p: Plant, command: Command, part: seq<byte>)
    requires ValidConfig(p.cfg) && CommandWord(p.cfg.version, command).Some?
    requires |part| < COMMAND_FRAME_BYTES && part <= CommandBytes(p.cfg.version, p.cfg.streamId, command)
    ensures NextCommand(p.cfg.version, p.cfg.limit, part).NeedMore?
  {
    hide EncodeCommand, Parse, ParseCommand;
    var f := CommandBytes(p.cfg.version, p.cfg.streamId, command);
    CommandRoundTrip(p.cfg.version, p.cfg.streamId, command, Timestamp(0, 0));
    if |part| >= 4 {
      assert part[2] == f[2] && part[3] == f[3];
    }
  }

  /** A whole command is extracted. */
  lemma WholeTaken(p: Plant, command: Command, bytes: seq<byte>)
    requires ValidConfig(p.cfg) && CommandWord(p.cfg.version, command).Some?
    requires bytes == CommandBytes(p.cfg.version, p.cfg.streamId, command)
    ensures NextCommand(p.cfg.version, p.cfg.limit, bytes)
         == Received(Accepted(CommandRequest(p.cfg.streamId, command)), COMMAND_FRAME_BYTES)
    ensures |bytes| == COMMAND_FRAME_BYTES
  {
    hide EncodeCommand, Parse, ParseCommand;
    CommandRoundTrip(p.cfg.version, p.cfg.streamId, command, Timestamp(0, 0));
    assert bytes[..COMMAND_FRAME_BYTES] == bytes;
  }

  /** The connection after it handled command `h` of the script. */
  function AfterCommand(v: WireVersion, c: Connection, h: nat, now: nat): Connection
    requires h < Steps(v)
  {
    var d := RecordValidCommand(c.(receive := []), now);
    if h + 1 < Steps(v) then d.(pending := Pending.Sending(Replies(v)[h], 0)) else d.(streaming := true)
  }

  lemma CommandHandled(p: Plant, c: Connection, h: nat, env: Env, stats: Stats)
    requires ValidConfig(p.cfg) && c.pending.Idle? && !c.closeAfterFlush && h < Steps(p.cfg.version)
    requires CommandWord(p.cfg.version, Script(p.cfg.version)[h]).Some?
    requires c.receive == CommandBytes(p.cfg.version, p.cfg.streamId, Script(p.cfg.version)[h])
    ensures Process(p.cfg, c, env, stats) == Served(true, AfterCommand(p.cfg.version, c, h, env.now), stats)
  {
    hide NextCommand, CommandBytes;
    var command := Script(p.cfg.version)[h];
    WholeTaken(p, command, c.receive);
    assert c.receive[COMMAND_FRAME_BYTES..] == [];
    var turn := Turn(p.cfg, c.(receive := []), Accepted(CommandRequest(p.cfg.streamId, command)), env, stats);
    assert turn == Served(true, AfterCommand(p.cfg.version, c, h, env.now), stats);
    NothingWaits(p);
    assert Process(p.cfg, turn.connection, env, stats) == Served(true, turn.connection, stats);
  }

  lemma NothingWaits(p: Plant)
    ensures NextCommand(p.cfg.version, p.cfg.limit, []).NeedMore?
  {
  }

  /** What the server has buffered is part of the next command of the script, or all of it. */
  predicate Buffered(p: Plant, c: Connection, h: nat) {
    && h <= Steps(p.cfg.version)
    && if h == Steps(p.cfg.version) then c.receive == []
       else
         var command := Script(p.cfg.version)[h];
         CommandWord(p.cfg.version, command).Some? && c.receive <= CommandBytes(p.cfg.version, p.cfg.streamId, command)
  }

  /** The command loop handles the next command once it is whole and nothing is pending. */
  predicate Takes(c: Connection) { c.pending.Idle? && |c.receive| == COMMAND_FRAME_BYTES }

  lemma ProcessIs(p: Plant, c: Connection, h: nat, env: Env, stats: Stats)
    requires ValidConfig(p.cfg) && !c.closeAfterFlush && Buffered(p, c, h)
    ensures Takes(c) ==> h < Steps(p.cfg.version)
    ensures Process(p.cfg, c, env, stats)
         == if Takes(c) then Served(true, AfterCommand(p.cfg.version, c, h, env.now), stats) else Served(true, c, stats)
  {
    hide NextCommand, CommandBytes, AfterCommand;
    if c.pending.Idle? {
      if h == Steps(p.cfg.version) {
        NothingWaits(p);
      } else {
        var command := Script(p.cfg.version)[h];
        CommandSize(p.cfg.version, p.cfg.streamId, command);
        if |c.receive| < COMMAND_FRAME_BYTES {
          PartWaits(p, command, c.receive);
        } else {
          assert c.receive == CommandBytes(p.cfg.version, p.cfg.streamId, command);
          CommandHandled(p, c, h, env, stats);
        }
      }
    }
  }

  // ----- the two sides together ------------------------------------------------------------

  /** One probe, one connection of the endpoint, and the bytes in transit between them. */
  datatype System = System(
    client: Client,
    up: seq<byte>,
    server: Connection,
    down: seq<byte>,
    data: seq<byte>,
    emitted: Emitted,
    next: nat,
    stats: Stats,
    open: bool)

  function Kinds(s: System): seq<FrameKind> { InFlight(s.server) }

  ghost predicate EmittedOk(p: Plant, emitted: Emitted, next: nat)
    requires Timing.ValidRate(p.clock.rate, p.clock.timeBase) && p.d.rate > 0
  {
    forall t :: t in emitted ==> t < next && Expected(p, DataFrame(t), emitted[t])
  }

  ghost predicate ServerOk(p: Plant, s: System)
    requires Timing.ValidRate(p.clock.rate, p.clock.timeBase) && p.d.rate > 0
  {
    && Live(p.cfg, s.data, s.emitted, s.server) && !s.server.closeAfterFlush
    && EmittedOk(p, s.emitted, s.next) && Shape(p.cfg.version, Kinds(s), s.next)
    && (if s.server.streaming then |Kinds(s)| + 1 >= Steps(p.cfg.version) else |Kinds(s)| < Steps(p.cfg.version))
    && (s.server.firstValidCommandAt.None? <==> Handled(p.cfg.version, s.server) == 0)
  }

  /** The server has handled all queued commands, or all but the newest. */
  predicate InStep(p: Plant, s: System) {
    Handled(p.cfg.version, s.server) <= Queued(s.client) <= Handled(p.cfg.version, s.server) + 1
  }

  /** What is buffered at the server or in transit to it are the written bytes of unhandled commands. */
  predicate Upstream(p: Plant, s: System) {
    var v := p.cfg.version;
    var from, to := Handled(v, s.server) * COMMAND_FRAME_BYTES, WrittenBytes(s.client);
    && from <= to <= |CommandFlow(v, p.cfg.streamId, Steps(v))|
    && s.server.receive + s.up == CommandFlow(v, p.cfg.streamId, Steps(v))[from..to]
  }

  /** What the server has sent is what the probe has accepted, has buffered, and has in transit to it. */
  ghost predicate Downstream(p: Plant, s: System) {
    && AllKnown(p.cfg, s.emitted, Kinds(s)) && Consumed(s.client) <= |Kinds(s)|
    && s.server.sent == Flow(p, s.emitted, Kinds(s), Consumed(s.client)) + s.client.input + s.down
  }

  ghost predicate Joint(p: Plant, s: System)
    requires Timing.ValidRate(p.clock.rate, p.clock.timeBase) && p.d.rate > 0
  {
    && ClientOk(p, s.client) && ServerOk(p, s) && InStep(p, s) && Upstream(p, s) && Downstream(p, s)
    && LastOk(p, Kinds(s), s.client)
  }

  // ----- consequences of the invariant -----------------------------------------------------

  lemma StepsInjective(v: WireVersion, command: Command, i: nat)
    requires i < Steps(v) && StepOf(v, command) == i
    ensures command == Script(v)[i]
  {
  }

  lemma QueuedBound(p: Plant, c: Client)
    requires ClientOk(p, c)
    ensures Queued(c) <= Steps(p.cfg.version) && WrittenBytes(c) <= Queued(c) * COMMAND_FRAME_BYTES
    ensures c.state.Sending? ==> WrittenBytes(c) < Queued(c) * COMMAND_FRAME_BYTES
    ensures c.state.Awaiting? ==> Queued(c) < Steps(p.cfg.version)
  {
  }

  /** Whenever a frame is there for the probe, the probe waits for just that frame. */
  lemma ProbeIsReady(p: Plant, s: System)
    requires Timing.ValidRate(p.clock.rate, p.clock.timeBase) && p.d.rate > 0 && Joint(p, s)
    ensures Ready(Kinds(s), s.client)
  {
    hide Live, Shape, EmittedOk, Downstream, CommandFlow, LastOk, Sane;
    QueuedBound(p, s.client);
    var m := Consumed(s.client);
    if m < |Kinds(s)| && m + 1 < Steps(p.cfg.version) && s.client.state.Awaiting? {
      StepsInjective(p.cfg.version, s.client.state.command, m);
    }
  }

  lemma KindFits(p: Plant, born: Timestamp, i: nat)
    requires Sound(p, born) && i + 1 < Steps(p.cfg.version)
    ensures var kind := Replies(p.cfg.version)[i]; Fits(p.cfg, kind) && !kind.ErrorFrame? && !kind.DataFrame?
  {
    hide Sound;
    SoundConfig(p, born);
  }

  /** Everything sent or being sent is a frame the probe expects. */
  lemma KindsAreClean(p: Plant, born: Timestamp, s: System)
    requires Sound(p, born) && Timing.ValidRate(p.clock.rate, p.clock.timeBase) && p.d.rate > 0 && ServerOk(p, s)
    ensures Clean(p, s.emitted, Kinds(s))
  {
    hide Live, Sound, Whole, Expected, Replies;
    var kinds := Kinds(s);
    KindsKnown(p, s);
    forall i | 0 <= i < |kinds|
      ensures Known(p.cfg, s.emitted, kinds[i]) && Expected(p, kinds[i], Whole(p.cfg, s.emitted, [], kinds[i]))
    {
      assert Known(p.cfg, s.emitted, kinds[i]);
      if i + 1 < Steps(p.cfg.version) {
        KindFits(p, born, i);
        FramesExpected(p, born, s.emitted, kinds[i]);
      } else {
        DataWhole(p, s.emitted, kinds[i]);
      }
    }
  }

  lemma DataWhole(p: Plant, emitted: Emitted, kind: FrameKind)
    requires Known(p.cfg, emitted, kind) && kind.DataFrame?
    ensures kind.sample in emitted && Whole(p.cfg, emitted, [], kind) == emitted[kind.sample]
  {
  }

  lemma KindsKnown(p: Plant, s: System)
    requires Live(p.cfg, s.data, s.emitted, s.server)
    ensures AllKnown(p.cfg, s.emitted, Kinds(s))
  {
  }

  /** The bytes sent are the beginning of the frames sent or being sent. */
  lemma SentIsFlow(p: Plant, s: System)
    requires Live(p.cfg, s.data, s.emitted, s.server) && !s.server.closeAfterFlush
    ensures AllKnown(p.cfg, s.emitted, Kinds(s))
    ensures s.server.sent <= Flow(p, s.emitted, Kinds(s), |Kinds(s)|)
  {
    hide Rising;
    var c, kinds := s.server, Kinds(s);
    KindsKnown(p, s);
    assert kinds[..|kinds|] == kinds;
    TranscriptIgnoresError(p.cfg, s.emitted, c.errorFrame, [], c.delivered);
    if c.pending.Sending? {
      assert kinds[..|kinds| - 1] == c.delivered;
      assert Whole(p.cfg, s.emitted, c.errorFrame, c.pending.kind) == Whole(p.cfg, s.emitted, [], c.pending.kind);
    }
  }

  // ----- the probe reads -------------------------------------------------------------------

  /** Passing over frames keeps the invariant. */
  lemma AfterReading(p: Plant, s: System, n: nat, d: Client)
    requires Timing.ValidRate(p.clock.rate, p.clock.timeBase) && p.d.rate > 0 && Joint(p, s) && n <= |s.down|
    requires ClientOk(p, d) && LastOk(p, Kinds(s), d) && AllKnown(p.cfg, s.emitted, Kinds(s))
             && Consumed(d) <= |Kinds(s)|
    requires Flow(p, s.emitted, Kinds(s), Consumed(d)) + d.input + s.down[n..] == s.server.sent
    requires WrittenBytes(d) == WrittenBytes(s.client) && Queued(s.client) <= Queued(d) <= Queued(s.client) + 1
    requires Queued(d) > Queued(s.client) ==> |Kinds(s)| >= Queued(s.client) && Queued(d) <= Steps(p.cfg.version)
    ensures Joint(p, s.(client := d, down := s.down[n..]))
  {
    hide ServerOk, CommandFlow, Flow, ClientOk, LastOk, Queued, WrittenBytes, Consumed, Handled;
    SameServer(p, s, s.(client := d, down := s.down[n..]));
    HandledFew(p, s);
  }

  /** Before the data start, one frame stands for each handled command. */
  lemma HandledFew(p: Plant, s: System)
    requires Timing.ValidRate(p.clock.rate, p.clock.timeBase) && p.d.rate > 0 && ServerOk(p, s)
    ensures var h := Handled(p.cfg.version, s.server); h == |Kinds(s)| || h == Steps(p.cfg.version)
  {
  }

  /** The probe reads what has arrived, and no branch rejects it. */
  lemma ProbeReads(p: Plant, born: Timestamp, s: System, n: nat)
    requires Sound(p, born) && Timing.ValidRate(p.clock.rate, p.clock.timeBase) && p.d.rate > 0 && Joint(p, s)
    requires n <= |s.down| && |s.client.input| + n < MAX_FRAME_BYTES
    ensures Sane(s.client) && ReadReady(s.client, s.down[..n]).Ok?
    ensures Joint(p, s.(client := ReadReady(s.client, s.down[..n]).value, down := s.down[n..]))
    ensures WrittenBytes(ReadReady(s.client, s.down[..n]).value) == WrittenBytes(s.client)
  {
    hide Live, Sound, Shape, EmittedOk, Upstream, InStep, Flow, ProcessInput, Clean, Ready, ClientOk, LastOk,
      Consumed, Queued, WrittenBytes;
    var kinds, c := Kinds(s), s.client.(input := s.client.input + s.down[..n]);
    ProbeIsReady(p, s);
    KindsAreClean(p, born, s);
    ClientSane(p, s.client);
    RestOk(p, kinds, s.client, c);
    SentIsFlow(p, s);
    assert s.server.sent == (Flow(p, s.emitted, kinds, Consumed(c)) + c.input) + s.down[n..];
    InputPassed(p, born, s.emitted, kinds, s.next, c);
    AfterReading(p, s, n, ProcessInput(c).value);
  }

  // ----- the probe writes ------------------------------------------------------------------

  /** The probe connects or writes a part of its command, which goes into the upstream channel. */
  lemma ProbeWrites(p: Plant, born: Timestamp, s: System, outcome: WriteOutcome)
    requires Sound(p, born) && Timing.ValidRate(p.clock.rate, p.clock.timeBase) && p.d.rate > 0 && Joint(p, s)
    requires outcome.WriteBlocked? || (outcome.Wrote? && 0 < outcome.count <= |Outgoing(Connected(s.client))|)
    ensures WriteReady(s.client, outcome).Ok?
    ensures var w := WriteReady(s.client, outcome).value; Joint(p, s.(client := w.client, up := s.up + w.bytes))
  {
    hide Joint, Sound, WriteReady, Connected;
    SoundId(p, born);
    ConnectedOk(p, s);
    var c := Connected(s.client);
    ConnectedWrites(s.client, outcome);
    if c.state.Sending? && outcome.Wrote? {
      WriteOk(p, s.(client := c), outcome.count);
    } else {
      NothingWritten(c, outcome);
      assert s.up + [] == s.up;
    }
  }

  lemma ConnectedWrites(c: Client, outcome: WriteOutcome)
    requires outcome.Wrote? ==> outcome.count <= |Outgoing(Connected(c))|
    ensures Connected(Connected(c)) == Connected(c) && WriteReady(c, outcome) == WriteReady(Connected(c), outcome)
  {
    hide CommandBytes;
  }

  lemma NothingWritten(c: Client, outcome: WriteOutcome)
    requires !c.state.Connecting? && !outcome.WriteFailed? && !(c.state.Sending? && outcome.Wrote?)
    requires outcome.Wrote? ==> outcome.count <= |Outgoing(Connected(c))|
    ensures WriteReady(c, outcome) == Ok(Written(c, []))
  {
  }

  /** Connecting queues the first command and nothing else. */
  lemma ConnectedOk(p: Plant, s: System)
    requires p.cfg.streamId <= U16_MAX && Timing.ValidRate(p.clock.rate, p.clock.timeBase) && p.d.rate > 0
             && Joint(p, s)
    ensures Joint(p, s.(client := Connected(s.client))) && !Connected(s.client).state.Connecting?
  {
    hide Live, Shape, EmittedOk, CommandFlow, Flow, CommandBytes;
    CommandSize(p.cfg.version, p.cfg.streamId, FirstCommand(p.cfg.version));
    var d := Connected(s.client);
    assert Consumed(d) == Consumed(s.client) && WrittenBytes(d) == WrittenBytes(s.client);
  }

  /** A write moves the offset, and on the last byte the state. */
  lemma WriteEffect(p: Plant, c: Client, count: nat)
    requires ClientOk(p, c) && c.state.Sending? && 0 < count <= |Outgoing(c)|
    ensures var r := WriteReady(c, Wrote(count));
            && r.Ok? && ClientOk(p, r.value.client) && r.value.bytes == c.output[c.offset..c.offset + count]
            && Queued(r.value.client) == Queued(c) && Consumed(r.value.client) == Consumed(c)
            && WrittenBytes(r.value.client) == WrittenBytes(c) + count
            && r.value.client.input == c.input && r.value.client.last == c.last
            && r.value.client.dataFrames == c.dataFrames
            && r.value.client.version == c.version
  {
    hide CommandBytes;
    var i := StepOf(c.version, c.state.command);
    StepsInjective(c.version, c.state.command, i);
    ScriptSteps(c.version, i);
  }

  /** The written part of the command continues the flow of commands. */
  lemma WriteContinues(p: Plant, s: System, t: System, count: nat)
    requires p.cfg.streamId <= U16_MAX && ClientOk(p, s.client) && Upstream(p, s) && s.client.state.Sending?
             && s.client.offset + count <= COMMAND_FRAME_BYTES
    requires t.server == s.server && t.up == s.up + s.client.output[s.client.offset..s.client.offset + count]
    requires WrittenBytes(t.client) == WrittenBytes(s.client) + count
    ensures Upstream(p, t)
  {
    hide CommandBytes, CommandFlow, Handled, Sane, Script, StepOf;
    var c, v := s.client, p.cfg.version;
    var i := StepOf(v, c.state.command);
    StepsInjective(v, c.state.command, i);
    CommandFlowAt(v, p.cfg.streamId, Steps(v), i);
    var from, start := Handled(v, s.server) * COMMAND_FRAME_BYTES, i * COMMAND_FRAME_BYTES;
    assert WrittenBytes(c) == start + c.offset;
    FlowContinues(CommandFlow(v, p.cfg.streamId, Steps(v)), from, start, c.output, c.offset, count);
    assert t.server.receive + t.up == (s.server.receive + s.up) + c.output[c.offset..c.offset + count];
  }

  lemma WriteOk(p: Plant, s: System, count: nat)
    requires p.cfg.streamId <= U16_MAX && Timing.ValidRate(p.clock.rate, p.clock.timeBase) && p.d.rate > 0
             && Joint(p, s)
    requires s.client.state.Sending? && 0 < count <= |Outgoing(s.client)|
    ensures WriteReady(s.client, Wrote(count)).Ok?
    ensures var w := WriteReady(s.client, Wrote(count)).value; Joint(p, s.(client := w.client, up := s.up + w.bytes))
  {
    hide ServerOk, Flow, CommandBytes, WriteReady, Consumed, Queued, Handled, Upstream, WrittenBytes, ClientOk;
    WriteEffect(p, s.client, count);
    var w := WriteReady(s.client, Wrote(count)).value;
    var t := s.(client := w.client, up := s.up + w.bytes);
    OutputSize(p, s.client);
    WriteContinues(p, s, t, count);
    SameServer(p, s, t);
  }

  lemma OutputSize(p: Plant, c: Client)
    requires ClientOk(p, c) && c.state.Sending?
    ensures |c.output| == COMMAND_FRAME_BYTES && c.offset < COMMAND_FRAME_BYTES
  {
  }

  /** The server's side does not depend on the client. */
  lemma SameServer(p: Plant, s: System, t: System)
    requires Timing.ValidRate(p.clock.rate, p.clock.timeBase) && p.d.rate > 0 && ServerOk(p, s)
    requires t.server == s.server && t.data == s.data && t.emitted == s.emitted && t.next == s.next
    ensures ServerOk(p, t)
  {
  }

  lemma FlowContinues(flow: seq<byte>, from: nat, start: nat, output: seq<byte>, offset: nat, count: nat)
    requires start + |output| <= |flow| && flow[start..start + |output|] == output && offset + count <= |output|
             && from <= start + offset
    ensures flow[from..start + offset] + output[offset..offset + count] == flow[from..start + offset + count]
  {
    assert forall k :: 0 <= k < |output| ==> flow[start + k] == output[k];
    assert output[offset..offset + count] == flow[start + offset..start + offset + count];
  }

  // ----- the server reads ------------------------------------------------------------------

  /** What the server has buffered is a part of the next command. */
  lemma BufferedPart(p: Plant, s: System)
    requires p.cfg.streamId <= U16_MAX && Timing.ValidRate(p.clock.rate, p.clock.timeBase) && p.d.rate > 0
             && Joint(p, s)
    ensures Buffered(p, s.server, Handled(p.cfg.version, s.server))
    ensures |s.server.receive| + |s.up| <= COMMAND_FRAME_BYTES
  {
    hide Live, Shape, EmittedOk, Downstream, CommandFlow, LastOk, Sane, CommandBytes, Queued, WrittenBytes;
    var v, h := p.cfg.version, Handled(p.cfg.version, s.server);
    QueuedBound(p, s.client);
    var flow := CommandFlow(v, p.cfg.streamId, Steps(v));
    if h < Steps(v) {
      CommandFlowAt(v, p.cfg.streamId, Steps(v), h);
      var from, to := h * COMMAND_FRAME_BYTES, WrittenBytes(s.client);
      assert flow[from..to] <= flow[from..from + COMMAND_FRAME_BYTES];
      assert s.server.receive <= flow[from..to];
    }
  }

  /** Handling the next command keeps both sides in step. */
  lemma CommandKeeps(p: Plant, s: System, h: nat, now: nat)
    requires Timing.ValidRate(p.clock.rate, p.clock.timeBase) && p.d.rate > 0 && Joint(p, s)
    requires h == Handled(p.cfg.version, s.server) < Steps(p.cfg.version) && Takes(s.server)
    requires Live(p.cfg, s.data, s.emitted, AfterCommand(p.cfg.version, s.server, h, now))
    ensures Joint(p, s.(server := AfterCommand(p.cfg.version, s.server, h, now)))
  {
    hide Live, EmittedOk, CommandFlow, Flow, ClientOk, LastOk, Queued, WrittenBytes, Consumed, Upstream, Shape, Handled;
    var v, c := p.cfg.version, s.server;
    var d := AfterCommand(v, c, h, now);
    var t := s.(server := d);
    AfterCommandKinds(p, s, h, now);
    CommandConsumed(p, s, t, h);
    KindsKnown(p, s);
    KindsKnown(p, t);
    FlowFrame(p, s.emitted, Kinds(s), Kinds(t), Consumed(s.client));
    LastFrame(p, Kinds(s), Kinds(t), s.client);
  }

  /** The reply of the command is appended, or the last command starts the data. */
  lemma AfterCommandKinds(p: Plant, s: System, h: nat, now: nat)
    requires h == Handled(p.cfg.version, s.server) < Steps(p.cfg.version) && s.server.pending.Idle?
    requires Shape(p.cfg.version, Kinds(s), s.next)
    ensures var t := s.(server := AfterCommand(p.cfg.version, s.server, h, now));
            && Handled(p.cfg.version, t.server) == h + 1 && t.server.receive == []
            && Kinds(s) <= Kinds(t) && Shape(p.cfg.version, Kinds(t), s.next) && t.server.firstValidCommandAt.Some?
            && (if t.server.streaming then |Kinds(t)| + 1 >= Steps(p.cfg.version)
                else |Kinds(t)| < Steps(p.cfg.version))
  {
    var t := s.(server := AfterCommand(p.cfg.version, s.server, h, now));
    assert Kinds(t) == if h + 1 < Steps(p.cfg.version) then Kinds(s) + [Replies(p.cfg.version)[h]] else Kinds(s);
    assert |Kinds(s)| == h;
    assert forall i :: 0 <= i < h ==> Kinds(t)[i] == Kinds(s)[i];
  }

  lemma CommandConsumed(p: Plant, s: System, t: System, h: nat)
    requires ClientOk(p, s.client) && Upstream(p, s) && InStep(p, s) && h == Handled(p.cfg.version, s.server)
             && |s.server.receive| == COMMAND_FRAME_BYTES
    requires t.client == s.client && t.up == s.up && Handled(p.cfg.version, t.server) == h + 1 && t.server.receive == []
    ensures Upstream(p, t) && InStep(p, t)
  {
    hide CommandFlow, Handled, Queued, WrittenBytes, ClientOk;
    var v := p.cfg.version;
    QueuedBound(p, s.client);
    SliceTail(CommandFlow(v, p.cfg.streamId, Steps(v)), h * COMMAND_FRAME_BYTES, WrittenBytes(s.client),
              s.server.receive, s.up);
  }

  lemma SliceTail(flow: seq<byte>, from: nat, to: nat, head: seq<byte>, tail: seq<byte>)
    requires from <= to <= |flow| && head + tail == flow[from..to] && |head| == COMMAND_FRAME_BYTES
    ensures from + COMMAND_FRAME_BYTES <= to && [] + tail == flow[from + COMMAND_FRAME_BYTES..to]
  {
    assert tail == (head + tail)[|head|..];
  }

  /** Frames already passed are not touched by what is appended. */
  lemma FlowFrame(p: Plant, emitted: Emitted, kinds: seq<FrameKind>, more: seq<FrameKind>, m: nat)
    requires kinds <= more && m <= |kinds| && AllKnown(p.cfg, emitted, kinds) && AllKnown(p.cfg, emitted, more)
    ensures Flow(p, emitted, more, m) == Flow(p, emitted, kinds, m)
  {
    assert more[..m] == kinds[..m];
  }

  lemma LastFrame(p: Plant, kinds: seq<FrameKind>, more: seq<FrameKind>, c: Client)
    requires Timing.ValidRate(p.clock.rate, p.clock.timeBase) && LastOk(p, kinds, c) && kinds <= more
    ensures LastOk(p, more, c)
  {
    hide Timing.InSocRange, Timing.TimestampForSample;
    var m := Consumed(c);
    assert m > 0 ==> more[m - 1] == kinds[m - 1];
  }

  /** The command loop never rejects, never closes, and keeps the invariant. */
  lemma ProcessMoves(p: Plant, born: Timestamp, s: System, env: Env, stats: Stats)
    requires Sound(p, born) && Timing.ValidRate(p.clock.rate, p.clock.timeBase) && p.d.rate > 0 && Joint(p, s)
    ensures var r := Process(p.cfg, s.server, env, stats);
            r.open && r.stats == stats && r.connection.sent == s.server.sent && Joint(p, s.(server := r.connection))
  {
    hide Live, EmittedOk, CommandFlow, Flow, ClientOk, LastOk, Sound, Process, Upstream, Downstream, Shape, InStep,
      Buffered, AfterCommand, Takes;
    SoundId(p, born);
    SoundConfig(p, born);
    BufferedPart(p, s);
    var h := Handled(p.cfg.version, s.server);
    ProcessIs(p, s.server, h, env, stats);
    ProcessKeeps(p.cfg, s.data, s.emitted, s.server, env, stats);
    if Takes(s.server) {
      CommandKeeps(p, s, h, env.now);
    }
  }

  /** The bytes that a sequence of reads delivers. */
  function Delivered(outcomes: seq<ReadOutcome>): seq<byte> {
    if outcomes == [] then []
    else (if outcomes[0].Data? then outcomes[0].bytes else []) + Delivered(outcomes[1..])
  }

  /** While the buffer has room for everything, reading appends everything. */
  lemma {:induction false} ReadsAppend(buffer: seq<byte>, limit: nat, outcomes: seq<ReadOutcome>)
    requires |buffer| + |Delivered(outcomes)| <= limit && forall i :: 0 <= i < |outcomes| ==> outcomes[i].Data?
    ensures Reads(buffer, limit, outcomes) == (Open, buffer + Delivered(outcomes))
    decreases |outcomes|
  {
    if outcomes == [] {
      assert buffer + Delivered(outcomes) == buffer;
    } else {
      var chunk := outcomes[0].bytes;
      if |buffer| >= limit {
        assert buffer + Delivered(outcomes) == buffer;
      } else {
        ReadsAppend(buffer + chunk, limit, outcomes[1..]);
        assert (buffer + chunk) + Delivered(outcomes[1..]) == buffer + Delivered(outcomes);
      }
    }
  }

  /** Moving bytes from the channel into the buffer. */
  lemma ArrivalKeeps(p: Plant, s: System, n: nat)
    requires ValidConfig(p.cfg) && Timing.ValidRate(p.clock.rate, p.clock.timeBase) && p.d.rate > 0 && Joint(p, s)
    requires n <= |s.up| && |s.server.receive| + n <= p.cfg.limit
    ensures Joint(p, Arrived(s, n))
  {
    hide EmittedOk, CommandFlow, Flow, ClientOk, LastOk, Shape, Rising, Transcript, Whole;
    var t := Arrived(s, n);
    assert Kinds(t) == Kinds(s);
    assert t.server.receive + t.up == s.server.receive + s.up;
  }

  /** The system once the delivered bytes are buffered. */
  function Arrived(s: System, n: nat): System
    requires n <= |s.up|
  {
    s.(server := s.server.(receive := s.server.receive + s.up[..n]), up := s.up[n..])
  }

  /** Reading what fits is buffering it and running the command loop. */
  lemma ReadIsProcess(p: Plant, born: Timestamp, s: System, outcomes: seq<ReadOutcome>, env: Env)
    requires Sound(p, born) && Timing.ValidRate(p.clock.rate, p.clock.timeBase) && p.d.rate > 0 && Joint(p, s)
    requires Delivered(outcomes) <= s.up && forall i :: 0 <= i < |outcomes| ==> outcomes[i].Data?
    ensures var t := Arrived(s, |Delivered(outcomes)|);
            && Joint(p, t)
            && ReadConnection(p.cfg, s.server, outcomes, env, s.stats) == Process(p.cfg, t.server, env, s.stats)
  {
    hide Live, EmittedOk, CommandFlow, Flow, ClientOk, LastOk, Sound, Process, Upstream, Downstream, Shape, InStep,
      Delivered, Reads;
    SoundId(p, born);
    SoundConfig(p, born);
    BufferedPart(p, s);
    var n := |Delivered(outcomes)|;
    ReadsAppend(s.server.receive, p.cfg.limit, outcomes);
    assert Delivered(outcomes) == s.up[..n];
    ArrivalKeeps(p, s, n);
    ProcessMoves(p, born, Arrived(s, n), env, s.stats);
  }

  lemma ServerReads(p: Plant, born: Timestamp, s: System, outcomes: seq<ReadOutcome>, env: Env)
    requires Sound(p, born) && Timing.ValidRate(p.clock.rate, p.clock.timeBase) && p.d.rate > 0 && Joint(p, s)
    requires Delivered(outcomes) <= s.up && forall i :: 0 <= i < |outcomes| ==> outcomes[i].Data?
    ensures var r := ReadConnection(p.cfg, s.server, outcomes, env, s.stats);
            r.open && Joint(p, s.(server := r.connection, up := s.up[|Delivered(outcomes)|..], stats := r.stats))
  {
    hide Joint, Sound, Process, Delivered, ReadConnection;
    ReadIsProcess(p, born, s, outcomes, env);
    var t := Arrived(s, |Delivered(outcomes)|);
    ProcessMoves(p, born, t, env, s.stats);
    StatsIrrelevant(p, t.(server := Process(p.cfg, t.server, env, s.stats).connection), s.stats);
  }

  lemma StatsIrrelevant(p: Plant, s: System, stats: Stats)
    requires Timing.ValidRate(p.clock.rate, p.clock.timeBase) && p.d.rate > 0 && Joint(p, s)
    ensures Joint(p, s.(stats := stats))
  {
    hide Live, EmittedOk, CommandFlow, Flow, ClientOk, LastOk, Shape;
  }

  // ----- the server writes -----------------------------------------------------------------

  /** A write moves bytes of the pending frame into the downstream channel. */
  lemma AdvanceMoves(p: Plant, s: System, count: nat)
    requires Timing.ValidRate(p.clock.rate, p.clock.timeBase) && p.d.rate > 0 && Joint(p, s)
    requires s.server.pending.Sending? && Fits(p.cfg, s.server.pending.kind)
    requires s.server.pending.offset + count <= |Selected(p.cfg, s.data, s.server.errorFrame, s.server.pending.kind)|
    ensures var c := s.server;
            var d := Advance(c, Selected(p.cfg, s.data, c.errorFrame, c.pending.kind), count);
            c.sent <= d.sent && Joint(p, s.(server := d, down := s.down + d.sent[|c.sent|..]))
  {
    hide Live, EmittedOk, CommandFlow, Flow, ClientOk, LastOk, Shape, Selected, WellSent, Advance;
    var c := s.server;
    SelectedIsWhole(p.cfg, s.data, s.emitted, c);
    AdvanceKeeps(p.cfg, s.data, s.emitted, c, count);
    var bytes := Selected(p.cfg, s.data, c.errorFrame, c.pending.kind);
    var d := Advance(c, bytes, count);
    AdvanceEffect(c, bytes, count);
    var part := d.sent[|c.sent|..];
    var t := Flow(p, s.emitted, Kinds(s), Consumed(s.client)) + s.client.input;
    assert (t + s.down) + part == t + (s.down + part);
    SameCommands(p, s, s.(server := d, down := s.down + part));
  }

  /** A write only moves bytes: what is in flight, buffered and decided stays. */
  lemma AdvanceEffect(c: Connection, bytes: seq<byte>, count: nat)
    requires c.pending.Sending? && c.pending.offset + count <= |bytes|
    ensures var d := Advance(c, bytes, count);
            && c.sent <= d.sent && d.sent == c.sent + d.sent[|c.sent|..] && InFlight(d) == InFlight(c)
            && d.receive == c.receive && d.streaming == c.streaming && d.closeAfterFlush == c.closeAfterFlush
            && d.firstValidCommandAt == c.firstValidCommandAt
  {
    var d := Advance(c, bytes, count);
    assert d.sent == c.sent + bytes[c.pending.offset..c.pending.offset + count];
  }

  /** `flush_connection`, and the commands that a completed frame lets through. */
  lemma FlushMoves(p: Plant, born: Timestamp, s: System, outcome: WriteOutcome, env: Env)
    requires Sound(p, born) && Timing.ValidRate(p.clock.rate, p.clock.timeBase) && p.d.rate > 0 && Joint(p, s)
    requires s.server.pending.Sending? ==> Fits(p.cfg, s.server.pending.kind)
    requires outcome.WriteBlocked? || (outcome.Wrote? && Writable(p, s, outcome.count))
    ensures var r := Flush(p.cfg, s.data, s.server, outcome, env, s.stats);
            && r.open && s.server.sent <= r.connection.sent
            && Joint(p, s.(server := r.connection, down := s.down + r.connection.sent[|s.server.sent|..],
                     stats := r.stats))
  {
    hide Live, EmittedOk, CommandFlow, Flow, ClientOk, LastOk, Sound, Process, Upstream, Downstream, Shape, InStep,
      Selected, Advance;
    var c := s.server;
    assert s.down + c.sent[|c.sent|..] == s.down;
    if c.pending.Sending? && outcome.Wrote? {
      var bytes := Selected(p.cfg, s.data, c.errorFrame, c.pending.kind);
      AdvanceMoves(p, s, outcome.count);
      var d := Advance(c, bytes, outcome.count);
      var t := s.(server := d, down := s.down + d.sent[|c.sent|..]);
      var counted := if c.pending.kind.DataFrame? then s.stats.(sentData := s.stats.sentData + 1) else s.stats;
      StatsIrrelevant(p, t, s.stats);
      ProcessMoves(p, born, t, env, counted);
      StatsIrrelevant(p, t.(server := Process(p.cfg, d, env, counted).connection), counted);
    } else {
      assert s.(server := c, down := s.down + c.sent[|c.sent|..], stats := s.stats) == s;
    }
  }

  /** A `write` takes at least one byte and at most what is left of the pending frame. */
  predicate Writable(p: Plant, s: System, count: nat) {
    && count > 0
    && (s.server.pending.Sending? && Fits(p.cfg, s.server.pending.kind) ==>
          s.server.pending.offset + count <= |Selected(p.cfg, s.data, s.server.errorFrame, s.server.pending.kind)|)
  }

  // ----- a reporting tick ------------------------------------------------------------------

  /** The shared buffer takes the frame of the next sample. */
  lemma RewriteMoves(p: Plant, born: Timestamp, s: System, frame: seq<byte>)
    requires Sound(p, born) && Timing.ValidRate(p.clock.rate, p.clock.timeBase) && p.d.rate > 0 && Joint(p, s)
    requires Expected(p, DataFrame(s.next), frame)
    requires s.server.streaming ==> s.server.pending.Idle?
    ensures var emitted := s.emitted[s.next := frame];
            && Live(p.cfg, frame, emitted, s.server) && EmittedOk(p, emitted, s.next + 1)
            && AllKnown(p.cfg, emitted, Kinds(s))
            && Flow(p, emitted, Kinds(s), Consumed(s.client)) == Flow(p, s.emitted, Kinds(s), Consumed(s.client))
  {
    hide Expected, CommandFlow, ClientOk, LastOk, Sound, Upstream, Shape, InStep, Rising, Transcript, Whole;
    assert s.next !in s.emitted;
    Endpoints.LiveSurvivesRewrite(p.cfg, s.data, s.emitted, s.server, s.next, frame);
    TranscriptGrows(p.cfg, s.emitted, s.next, frame, [], Kinds(s));
    TranscriptGrows(p.cfg, s.emitted, s.next, frame, [], Kinds(s)[..Consumed(s.client)]);
  }

  /** A tick while the connection does not stream; another subscriber may have it rewritten. */
  lemma QuietTick(p: Plant, born: Timestamp, s: System, frame: seq<byte>, rewritten: bool)
    requires Sound(p, born) && Timing.ValidRate(p.clock.rate, p.clock.timeBase) && p.d.rate > 0 && Joint(p, s)
    requires Expected(p, DataFrame(s.next), frame) && !s.server.streaming
    ensures Joint(p, if rewritten then s.(data := frame, emitted := s.emitted[s.next := frame], next := s.next + 1)
                  else s.(next := s.next + 1))
  {
    hide Expected, CommandFlow, ClientOk, LastOk, Sound, Upstream, InStep, Live, Flow;
    RewriteMoves(p, born, s, frame);
    SameCommands(p, s, s.(data := frame, emitted := s.emitted[s.next := frame], next := s.next + 1));
    SameCommands(p, s, s.(next := s.next + 1));
  }

  /** The commands in transit do not depend on the data. */
  lemma SameCommands(p: Plant, s: System, t: System)
    requires Upstream(p, s) && InStep(p, s) && t.client == s.client && t.up == s.up
    requires t.server.receive == s.server.receive && t.server.streaming == s.server.streaming
    requires Handled(p.cfg.version, t.server) == Handled(p.cfg.version, s.server)
    ensures Upstream(p, t) && InStep(p, t)
  {
    hide CommandFlow, Handled;
  }

  /** A tick queues the rewritten buffer on the idle streaming connection. */
  lemma QueueMoves(p: Plant, born: Timestamp, s: System, frame: seq<byte>)
    requires Sound(p, born) && Timing.ValidRate(p.clock.rate, p.clock.timeBase) && p.d.rate > 0 && Joint(p, s)
    requires Expected(p, DataFrame(s.next), frame) && s.server.streaming && s.server.pending.Idle? && frame != []
    ensures Joint(p, s.(data := frame, emitted := s.emitted[s.next := frame], next := s.next + 1,
                  server := s.server.(pending := Pending.Sending(DataFrame(s.next), 0))))
  {
    hide Expected, CommandFlow, ClientOk, LastOk, Sound, Upstream, InStep, Live, Flow;
    RewriteMoves(p, born, s, frame);
    var emitted := s.emitted[s.next := frame];
    var c := s.server.(pending := Pending.Sending(DataFrame(s.next), 0));
    var t := s.(data := frame, emitted := emitted, next := s.next + 1, server := c);
    SamplesBelow(p, s);
    Endpoints.QueueDataKeeps(p.cfg, frame, emitted, s.server, s.next);
    assert Kinds(t) == Kinds(s) + [DataFrame(s.next)];
    KindsKnown(p, t);
    FlowFrame(p, emitted, Kinds(s), Kinds(t), Consumed(s.client));
    LastFrame(p, Kinds(s), Kinds(t), s.client);
    SameCommands(p, s, t);
    ShapeGrows(p.cfg.version, Kinds(s), s.next);
  }

  lemma ShapeGrows(v: WireVersion, kinds: seq<FrameKind>, next: nat)
    requires Shape(v, kinds, next) && |kinds| + 1 >= Steps(v)
    ensures Shape(v, kinds + [DataFrame(next)], next + 1)
  {
    var more := kinds + [DataFrame(next)];
    assert forall i :: 0 <= i < |kinds| ==> more[i] == kinds[i];
  }

  lemma SamplesBelow(p: Plant, s: System)
    requires Timing.ValidRate(p.clock.rate, p.clock.timeBase) && p.d.rate > 0 && ServerOk(p, s)
    ensures forall i :: 0 <= i < |s.server.delivered| && s.server.delivered[i].DataFrame? ==>
                          s.server.delivered[i].sample < s.next
  {
    hide Shape, Expected;
    assert AllKnown(p.cfg, s.emitted, s.server.delivered);
  }

  // ----- runs ------------------------------------------------------------------------------

  /**
    * What can happen next. The channels deliver any part of what is in transit; a tick names the
    * signals of its sample and whether another subscriber streams.
    */
  datatype Step =
    | ProbeWrite(outcome: WriteOutcome)
    | ProbeRead(count: nat)
    | ServerRead(outcomes: seq<ReadOutcome>, env: Env)
    | ServerWrite(outcome: WriteOutcome, env: Env)
    | Tick(degraded: bool, signals: Configuration.Signals, peerStreams: bool, outcome: WriteOutcome, env: Env)
    | Deadline(now: nat)

  datatype Movement = Moved(system: System) | ProbeFailed(error: ProbeError) | Panicked

  /** The steps of an open connection whose sockets do not fail, with fewer than 4096 bytes unread. */
  predicate Enabled(p: Plant, s: System, step: Step)
    requires Timing.ValidRate(p.clock.rate, p.clock.timeBase)
  {
    && s.open
    && match step
       case ProbeWrite(outcome) =>
         outcome.WriteBlocked? || (outcome.Wrote? && 0 < outcome.count <= |Outgoing(Connected(s.client))|)
       case ProbeRead(count) => count <= |s.down| && |s.client.input| + count < MAX_FRAME_BYTES
       case ServerRead(outcomes, _) =>
         Delivered(outcomes) <= s.up && forall i :: 0 <= i < |outcomes| ==> outcomes[i].Data?
       case ServerWrite(outcome, _) => outcome.WriteBlocked? || (outcome.Wrote? && Writable(p, s, outcome.count))
       case Tick(degraded, signals, _, outcome, _) =>
         && Timing.InSocRange(p.clock, s.next)
         && (outcome.WriteBlocked?
             || (outcome.Wrote? && 0 < outcome.count <= |SampleFrame(p, s.next, degraded, signals)|))
       case Deadline(_) => true
  }

  /** The steps by which the server closes the connection: an expired deadline, or a tick that finds it slow. */
  predicate Closes(s: System, step: Step) {
    match step
    case Deadline(now) => DeadlineExpired(s.server, now)
    case Tick(_, _, _, _, _) => s.server.streaming && s.server.pending.Sending?
    case _ => false
  }

  /** The system after `flush_connection`. */
  function Flushing(p: Plant, s: System, outcome: WriteOutcome, env: Env): Movement {
    if s.server.pending.Sending? && !Fits(p.cfg, s.server.pending.kind) then Panicked
    else
      var r := Flush(p.cfg, s.data, s.server, outcome, env, s.stats);
      if |r.connection.sent| < |s.server.sent| then Panicked
      else
        Moved(s.(server := r.connection, down := s.down + r.connection.sent[|s.server.sent|..], stats := r.stats,
              open := s.open && r.open))
  }

  /** One step; a panic of the source and an error of the probe are outcomes of their own. */
  function Next(p: Plant, s: System, step: Step): Movement
    requires Timing.ValidRate(p.clock.rate, p.clock.timeBase) && Enabled(p, s, step)
  {
    hide Flush, ProcessInput, ReadConnection, SampleFrame;
    if Closes(s, step) then Moved(s.(open := false))
    else match step
         case Deadline(_) => Moved(s)
         case ProbeWrite(outcome) =>
           (match WriteReady(s.client, outcome)
            case Err(e) => ProbeFailed(e)
            case Ok(w) => Moved(s.(client := w.client, up := s.up + w.bytes)))
         case ProbeRead(count) =>
           if !Sane(s.client) then Panicked
           else
             (match ReadReady(s.client, s.down[..count])
              case Err(e) => ProbeFailed(e)
              case Ok(c) => Moved(s.(client := c, down := s.down[count..])))
         case ServerRead(outcomes, env) =>
           var r := ReadConnection(p.cfg, s.server, outcomes, env, s.stats);
           Moved(s.(server := r.connection, up := s.up[|Delivered(outcomes)|..], stats := r.stats,
                 open := s.open && r.open))
         case ServerWrite(outcome, env) => Flushing(p, s, outcome, env)
         case Tick(degraded, signals, peerStreams, outcome, env) =>
           var frame := SampleFrame(p, s.next, degraded, signals);
           var t := if s.server.streaming || peerStreams
                    then s.(data := frame, emitted := s.emitted[s.next := frame], next := s.next + 1)
                    else s.(next := s.next + 1);
           if !s.server.streaming then Moved(t)
           else Flushing(p, t.(server := t.server.(pending := Pending.Sending(DataFrame(s.next), 0))), outcome, env)
  }

  lemma PendingFits(p: Plant, s: System)
    requires Timing.ValidRate(p.clock.rate, p.clock.timeBase) && p.d.rate > 0 && Joint(p, s)
    ensures s.server.pending.Sending? ==> Fits(p.cfg, s.server.pending.kind)
  {
  }

  lemma FlushingMoves(p: Plant, born: Timestamp, s: System, outcome: WriteOutcome, env: Env)
    requires Sound(p, born) && Timing.ValidRate(p.clock.rate, p.clock.timeBase) && p.d.rate > 0 && Joint(p, s)
    requires s.open && (outcome.WriteBlocked? || (outcome.Wrote? && Writable(p, s, outcome.count)))
    ensures Flushing(p, s, outcome, env).Moved?
    ensures Flushing(p, s, outcome, env).system.open && Joint(p, Flushing(p, s, outcome, env).system)
  {
    hide Flush, Live, EmittedOk, CommandFlow, Flow, ClientOk, LastOk, Sound, Upstream, Downstream, Shape, InStep,
      Selected, ServerOk, Fits;
    PendingFits(p, s);
    FlushMoves(p, born, s, outcome, env);
  }

  lemma TickMoves(p: Plant, born: Timestamp, s: System, step: Step)
    requires Sound(p, born) && Timing.ValidRate(p.clock.rate, p.clock.timeBase) && p.d.rate > 0 && Joint(p, s)
    requires step.Tick? && Enabled(p, s, step) && !Closes(s, step)
    ensures Next(p, s, step).Moved? && Next(p, s, step).system.open && Joint(p, Next(p, s, step).system)
  {
    hide Flush, Joint, Sound, Expected, SampleFrame, Timing.InSocRange, Flushing;
    SampleExpected(p, born, s.next, step.degraded, step.signals);
    var frame := SampleFrame(p, s.next, step.degraded, step.signals);
    ExpectedNotEmpty(p, s.next, frame);
    if s.server.streaming {
      QueueMoves(p, born, s, frame);
      var t := s.(data := frame, emitted := s.emitted[s.next := frame], next := s.next + 1,
      server := s.server.(pending := Pending.Sending(DataFrame(s.next), 0)));
      assert step.outcome.Wrote? ==> Writable(p, t, step.outcome.count);
      FlushingMoves(p, born, t, step.outcome, step.env);
    } else {
      QuietTick(p, born, s, frame, step.peerStreams);
    }
  }

  lemma ExpectedNotEmpty(p: Plant, sample: nat, frame: seq<byte>)
    requires Timing.ValidRate(p.clock.rate, p.clock.timeBase) && p.d.rate > 0 && Expected(p, DataFrame(sample), frame)
    ensures frame != []
  {
    hide Content;
    DecodedSize(p.cfg.version, frame);
  }

  /** No enabled step is rejected or panics, every step keeps the invariant, and only the two closing steps close. */
  lemma StepMoves(p: Plant, born: Timestamp, s: System, step: Step)
    requires Sound(p, born) && Timing.ValidRate(p.clock.rate, p.clock.timeBase) && p.d.rate > 0 && Joint(p, s)
             && Enabled(p, s, step)
    ensures Next(p, s, step).Moved? && Joint(p, Next(p, s, step).system)
    ensures Next(p, s, step).system.open <==> !Closes(s, step)
  {
    hide Flush, Joint, Sound, Expected, SampleFrame, Timing.InSocRange, Flushing, ReadConnection, WriteReady, ReadReady,
      DeadlineExpired;
    match step {
      case Deadline(_) => OpenIrrelevant(p, s, false);
      case ProbeWrite(outcome) => ProbeWrites(p, born, s, outcome);
      case ProbeRead(count) => ProbeReads(p, born, s, count);
      case ServerRead(outcomes, env) => ServerReads(p, born, s, outcomes, env);
      case ServerWrite(outcome, env) => FlushingMoves(p, born, s, outcome, env);
      case Tick(_, _, _, _, _) =>
        if Closes(s, step) {
          OpenIrrelevant(p, s, false);
        } else {
          TickMoves(p, born, s, step);
        }
    }
  }

  lemma OpenIrrelevant(p: Plant, s: System, open: bool)
    requires Timing.ValidRate(p.clock.rate, p.clock.timeBase) && p.d.rate > 0 && Joint(p, s)
    ensures Joint(p, s.(open := open))
  {
    hide Live, EmittedOk, CommandFlow, Flow, ClientOk, LastOk, Shape;
  }

  /** A fresh connection before the probe has written anything; ticks may have gone by. */
  function Start(p: Plant, id: nat, now: nat, stats: Stats, next: nat): System {
    System(NewClient(p.cfg.version, p.cfg.streamId, p.d.rate), [], NewConnection(id, now), [], [], map[], next, stats,
           true)
  }

  lemma StartIsJoint(p: Plant, born: Timestamp, id: nat, now: nat, stats: Stats, next: nat)
    requires Sound(p, born) && Timing.ValidRate(p.clock.rate, p.clock.timeBase) && p.d.rate > 0
    ensures Joint(p, Start(p, id, now, stats, next))
  {
    hide Sound, Live, CommandFlow, Expected;
    var s := Start(p, id, now, stats, next);
    assert Kinds(s) == [] && Kinds(s)[..0] == [];
    SoundId(p, born);
    CommandFlowSize(p.cfg.version, p.cfg.streamId, Steps(p.cfg.version));
    StartIsLive(p.cfg, id, now);
  }

  lemma StartIsLive(cfg: Config, id: nat, now: nat)
    ensures Live(cfg, [], map[], NewConnection(id, now))
  {
  }

  ghost predicate Follows(p: Plant, s: System, step: Step, t: System)
    requires Timing.ValidRate(p.clock.rate, p.clock.timeBase)
  {
    Enabled(p, s, step) && Next(p, s, step) == Moved(t)
  }

  ghost predicate IsRun(p: Plant, states: seq<System>, steps: seq<Step>)
    requires Timing.ValidRate(p.clock.rate, p.clock.timeBase)
  {
    |states| == |steps| + 1 && forall k :: 0 <= k < |steps| ==> Follows(p, states[k], steps[k], states[k + 1])
  }

  lemma {:induction false} RunIsJoint(p: Plant, born: Timestamp, states: seq<System>, steps: seq<Step>, k: nat)
    requires Sound(p, born) && Timing.ValidRate(p.clock.rate, p.clock.timeBase) && p.d.rate > 0
    requires IsRun(p, states, steps) && Joint(p, states[0]) && k < |states|
    ensures Joint(p, states[k])
  {
    hide Joint, Sound, Next, Enabled;
    if k > 0 {
      RunIsJoint(p, born, states, steps, k - 1);
      assert Follows(p, states[k - 1], steps[k - 1], states[k]);
      StepMoves(p, born, states[k - 1], steps[k - 1]);
    }
  }

  /**
    * Probe and server agree: from a fresh connection, over every interleaving and fragmentation,
    * no step makes the probe reject anything and nothing panics; and the server closes the
    * connection exactly by an expired deadline or by a tick that finds it slow.
    */
  lemma ProbeNeverRejects(p: Plant, born: Timestamp, id: nat, now: nat, stats: Stats, next: nat,
                          states: seq<System>, steps: seq<Step>, step: Step)
    requires Sound(p, born) && Timing.ValidRate(p.clock.rate, p.clock.timeBase)
    requires IsRun(p, states, steps) && states[0] == Start(p, id, now, stats, next)
    requires Enabled(p, states[|states| - 1], step)
    ensures var last := states[|states| - 1];
            && Next(p, last, step).Moved?
            && (Next(p, last, step).system.open <==> !Closes(last, step))
  {
    hide Joint, Sound, Next, Enabled, Start, IsRun, Closes;
    SoundId(p, born);
    RunLength(p, states, steps);
    StartIsJoint(p, born, id, now, stats, next);
    RunIsJoint(p, born, states, steps, |states| - 1);
    StepMoves(p, born, states[|states| - 1], step);
  }

  /**
    * When a deadline closes: before the first command fifteen seconds after the connection was
    * accepted, between commands after three hundred idle seconds, and never while streaming.
    */
  lemma DeadlineExactly(p: Plant, born: Timestamp, id: nat, now: nat, stats: Stats, next: nat,
                        states: seq<System>, steps: seq<Step>, k: nat, at: nat)
    requires Sound(p, born) && Timing.ValidRate(p.clock.rate, p.clock.timeBase)
    requires IsRun(p, states, steps) && states[0] == Start(p, id, now, stats, next) && k < |states|
    ensures var c := states[k].server;
            Closes(states[k], Deadline(at)) <==>
            && !c.streaming
            && (if InFlight(c) == [] then at - c.acceptedAt >= 15_000_000_000
                else at - c.lastValidCommandAt >= 300_000_000_000)
  {
    hide Sound, IsRun, Live, Shape, EmittedOk, Upstream, Downstream, LastOk, ClientOk, InStep;
    SoundId(p, born);
    RunLength(p, states, steps);
    StartIsJoint(p, born, id, now, stats, next);
    RunIsJoint(p, born, states, steps, k);
    assert ServerOk(p, states[k]);
  }

  lemma RunLength(p: Plant, states: seq<System>, steps: seq<Step>)
    requires Timing.ValidRate(p.clock.rate, p.clock.timeBase) && IsRun(p, states, steps)
    ensures |states| == |steps| + 1
  {
  }

  // ----- quiescence ------------------------------------------------------------------------

  /** Nothing is in transit, half read or half written. */
  predicate Quiescent(s: System) {
    s.up == [] && s.down == [] && s.client.input == [] && s.server.pending.Idle?
  }

  /** The command loop leaves no whole command behind. */
  lemma ProcessDrains(p: Plant, born: Timestamp, s: System, env: Env, stats: Stats)
    requires Sound(p, born) && Timing.ValidRate(p.clock.rate, p.clock.timeBase) && p.d.rate > 0 && Joint(p, s)
    ensures !Takes(Process(p.cfg, s.server, env, stats).connection)
  {
    hide Live, EmittedOk, CommandFlow, Flow, ClientOk, LastOk, Sound, Process, Upstream, Downstream, Shape, InStep,
      Buffered;
    SoundId(p, born);
    SoundConfig(p, born);
    BufferedPart(p, s);
    ProcessIs(p, s.server, Handled(p.cfg.version, s.server), env, stats);
  }

  lemma FlushDrains(p: Plant, born: Timestamp, s: System, outcome: WriteOutcome, env: Env)
    requires Sound(p, born) && Timing.ValidRate(p.clock.rate, p.clock.timeBase) && p.d.rate > 0 && Joint(p, s)
             && !Takes(s.server)
    requires s.server.pending.Sending? ==> Fits(p.cfg, s.server.pending.kind)
    requires outcome.WriteBlocked? || (outcome.Wrote? && Writable(p, s, outcome.count))
    ensures !Takes(Flush(p.cfg, s.data, s.server, outcome, env, s.stats).connection)
  {
    hide Live, EmittedOk, CommandFlow, Flow, ClientOk, LastOk, Sound, Process, Upstream, Downstream, Shape, InStep,
      Selected, Advance;
    var c := s.server;
    if c.pending.Sending? && outcome.Wrote? {
      AdvanceMoves(p, s, outcome.count);
      var d := Advance(c, Selected(p.cfg, s.data, c.errorFrame, c.pending.kind), outcome.count);
      var counted := if c.pending.kind.DataFrame? then s.stats.(sentData := s.stats.sentData + 1) else s.stats;
      ProcessDrains(p, born, s.(server := d, down := s.down + d.sent[|c.sent|..]), env, counted);
    }
  }

  lemma ReadDrains(p: Plant, born: Timestamp, s: System, outcomes: seq<ReadOutcome>, env: Env)
    requires Sound(p, born) && Timing.ValidRate(p.clock.rate, p.clock.timeBase) && p.d.rate > 0 && Joint(p, s)
    requires Delivered(outcomes) <= s.up && forall i :: 0 <= i < |outcomes| ==> outcomes[i].Data?
    ensures !Takes(ReadConnection(p.cfg, s.server, outcomes, env, s.stats).connection)
  {
    hide Joint, Sound, Process, Delivered, ReadConnection, Takes;
    ReadIsProcess(p, born, s, outcomes, env);
    ProcessDrains(p, born, Arrived(s, |Delivered(outcomes)|), env, s.stats);
  }

  lemma StepDrains(p: Plant, born: Timestamp, s: System, step: Step)
    requires Sound(p, born) && Timing.ValidRate(p.clock.rate, p.clock.timeBase) && p.d.rate > 0 && Joint(p, s)
             && Enabled(p, s, step)
    requires !Takes(s.server) && Next(p, s, step).Moved?
    ensures !Takes(Next(p, s, step).system.server)
  {
    hide Flush, Joint, Sound, Expected, SampleFrame, Timing.InSocRange, ReadConnection, WriteReady, ReadReady;
    PendingFits(p, s);
    match step {
      case ServerRead(outcomes, env) => ReadDrains(p, born, s, outcomes, env);
      case ServerWrite(outcome, env) => FlushDrains(p, born, s, outcome, env);
      case Tick(degraded, signals, _, outcome, env) =>
        if s.server.streaming && s.server.pending.Idle? {
          var frame := SampleFrame(p, s.next, degraded, signals);
          SampleExpected(p, born, s.next, degraded, signals);
          ExpectedNotEmpty(p, s.next, frame);
          QueueMoves(p, born, s, frame);
          var t := s.(data := frame, emitted := s.emitted[s.next := frame], next := s.next + 1,
          server := s.server.(pending := Pending.Sending(DataFrame(s.next), 0)));
          assert outcome.Wrote? ==> Writable(p, t, outcome.count);
          FlushDrains(p, born, t, outcome, env);
        }
      case _ =>
    }
  }

  lemma {:induction false} RunDrains(p: Plant, born: Timestamp, states: seq<System>, steps: seq<Step>, k: nat)
    requires Sound(p, born) && Timing.ValidRate(p.clock.rate, p.clock.timeBase) && p.d.rate > 0
    requires IsRun(p, states, steps) && Joint(p, states[0]) && !Takes(states[0].server) && k < |states|
    ensures !Takes(states[k].server)
  {
    hide Joint, Sound, Next, Enabled, Takes;
    if k > 0 {
      RunDrains(p, born, states, steps, k - 1);
      RunIsJoint(p, born, states, steps, k - 1);
      assert Follows(p, states[k - 1], steps[k - 1], states[k]);
      StepDrains(p, born, states[k - 1], steps[k - 1]);
    }
  }

  /** At rest the probe has accepted every frame the server sent. */
  lemma AllAccepted(p: Plant, born: Timestamp, s: System)
    requires Sound(p, born) && Timing.ValidRate(p.clock.rate, p.clock.timeBase) && p.d.rate > 0 && Joint(p, s)
             && Quiescent(s)
    ensures Consumed(s.client) == |s.server.delivered|
  {
    hide Live, Sound, Shape, EmittedOk, CommandFlow, Flow, Clean, ClientOk, LastOk, Upstream, Consumed;
    var kinds, m := Kinds(s), Consumed(s.client);
    KindsAreClean(p, born, s);
    IdleSent(p, s);
    assert s.server.sent == Flow(p, s.emitted, kinds, m);
    if m < |kinds| {
      FlowStep(p, s.emitted, kinds, m);
      FlowPrefix(p, s.emitted, kinds, m + 1, |kinds|);
      CleanFrame(p, s.emitted, kinds, m);
    }
  }

  lemma IdleSent(p: Plant, s: System)
    requires Live(p.cfg, s.data, s.emitted, s.server) && s.server.pending.Idle?
    ensures Kinds(s) == s.server.delivered && AllKnown(p.cfg, s.emitted, Kinds(s))
    ensures s.server.sent == Flow(p, s.emitted, Kinds(s), |Kinds(s)|)
  {
    var kinds := s.server.delivered;
    TranscriptIgnoresError(p.cfg, s.emitted, s.server.errorFrame, [], kinds);
    assert kinds[..|kinds|] == kinds;
  }

  lemma CleanFrame(p: Plant, emitted: Emitted, kinds: seq<FrameKind>, m: nat)
    requires Clean(p, emitted, kinds) && m < |kinds|
    ensures Known(p.cfg, emitted, kinds[m]) && |Whole(p.cfg, emitted, [], kinds[m])| > 0
  {
    hide Content, Whole;
    DecodedSize(p.cfg.version, Whole(p.cfg, emitted, [], kinds[m]));
  }

  /**
    * No deadlock and no loss: whenever everything is at rest, the probe is not waiting for a
    * reply, and it has accepted exactly the frames the server delivered, so its count of data
    * frames is what the server sent beyond the replies.
    */
  lemma HandshakeCompletes(p: Plant, born: Timestamp, id: nat, now: nat, stats: Stats, next: nat, states: seq<System>,
                           steps: seq<Step>, k: nat)
    requires Sound(p, born) && Timing.ValidRate(p.clock.rate, p.clock.timeBase)
    requires IsRun(p, states, steps) && states[0] == Start(p, id, now, stats, next) && k < |states|
             && Quiescent(states[k])
    ensures var s := states[k];
            && !s.client.state.Awaiting?
            && (s.client.state.Streaming? ==>
                  s.server.streaming && s.client.dataFrames + Steps(p.cfg.version) == |s.server.delivered| + 1)
  {
    hide Sound, IsRun, Joint, Quiescent;
    SoundId(p, born);
    RunLength(p, states, steps);
    StartIsJoint(p, born, id, now, stats, next);
    RunIsJoint(p, born, states, steps, k);
    RunDrains(p, born, states, steps, k);
    RestMeans(p, born, states[k]);
  }

  lemma RestMeans(p: Plant, born: Timestamp, s: System)
    requires Sound(p, born) && Timing.ValidRate(p.clock.rate, p.clock.timeBase) && p.d.rate > 0
    requires Joint(p, s) && !Takes(s.server) && Quiescent(s)
    ensures !s.client.state.Awaiting?
    ensures s.client.state.Streaming? ==>
              s.server.streaming && s.client.dataFrames + Steps(p.cfg.version) == |s.server.delivered| + 1
  {
    hide Sound, Live, Shape, EmittedOk, CommandFlow, LastOk, Downstream, Sane, CommandBytes;
    SoundId(p, born);
    AllAccepted(p, born, s);
    BufferedPart(p, s);
    QueuedBound(p, s.client);
    assert |s.server.receive| < COMMAND_FRAME_BYTES;
  }
}

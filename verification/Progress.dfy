/** From every reachable state the handshake can be completed: some step always makes headway. */
module Progress {
  import opened Bytes
  import opened Frames
  import opened Receive
  import opened Connections
  import opened Probe
  import opened Streams
  import opened Handshake
  import opened Composition
  import Timing
  import Decoders

  // ----- how much is left to do ------------------------------------------------------------

  /** The bytes of the pending frame that are not yet written. */
  function Unwritten(p: Plant, s: System): nat {
    var c := s.server;
    if c.pending.Sending? && Fits(p.cfg, c.pending.kind) then
      var size := |Selected(p.cfg, s.data, c.errorFrame, c.pending.kind)|;
      if c.pending.offset <= size then size - c.pending.offset else 0
    else 0
  }

  /** The commands not yet written, in transit and buffered, the frame being written, the bytes in transit back. */
  function Work(p: Plant, s: System): nat
    requires WrittenBytes(s.client) <= Steps(p.cfg.version) * COMMAND_FRAME_BYTES
  {
    30_000 * (Steps(p.cfg.version) * COMMAND_FRAME_BYTES - WrittenBytes(s.client))
    + 20_000 * |s.up| + 10_000 * |s.server.receive| + 2 * Unwritten(p, s) + |s.down|
  }

  lemma WorkDefined(p: Plant, s: System)
    requires Timing.ValidRate(p.clock.rate, p.clock.timeBase) && p.d.rate > 0 && Joint(p, s)
    ensures WrittenBytes(s.client) <= Steps(p.cfg.version) * COMMAND_FRAME_BYTES
  {
    hide ServerOk, Upstream, Downstream, LastOk;
    QueuedBound(p, s.client);
  }

  /** No frame is longer than the probe's buffer. */
  lemma UnwrittenBound(p: Plant, born: Timestamp, s: System)
    requires Sound(p, born) && Timing.ValidRate(p.clock.rate, p.clock.timeBase) && p.d.rate > 0 && Joint(p, s)
    ensures Unwritten(p, s) < MAX_FRAME_BYTES
    ensures s.server.pending.Sending? ==>
              && Fits(p.cfg, s.server.pending.kind) && Unwritten(p, s) > 0
              && s.server.pending.offset + Unwritten(p, s)
                 == |Selected(p.cfg, s.data, s.server.errorFrame, s.server.pending.kind)|
  {
    hide Sound, Shape, EmittedOk, Upstream, Downstream, LastOk, ClientOk, Transcript, Rising, Content, Expected;
    var c := s.server;
    if c.pending.Sending? {
      PendingFits(p, s);
      SelectedIsWhole(p.cfg, s.data, s.emitted, c);
      KindsAreClean(p, born, s);
      var last := |Kinds(s)| - 1;
      assert Kinds(s)[last] == c.pending.kind;
      WholeIgnoresError(p, s.emitted, c.errorFrame, c.pending.kind);
      ExpectedSize(p, c.pending.kind, Whole(p.cfg, s.emitted, [], c.pending.kind));
    }
  }

  lemma WholeIgnoresError(p: Plant, emitted: Emitted, error: seq<byte>, kind: FrameKind)
    requires Known(p.cfg, emitted, kind) && !kind.ErrorFrame?
    ensures Whole(p.cfg, emitted, error, kind) == Whole(p.cfg, emitted, [], kind)
  {
  }

  lemma ExpectedSize(p: Plant, kind: FrameKind, bytes: seq<byte>)
    requires Timing.ValidRate(p.clock.rate, p.clock.timeBase) && p.d.rate > 0 && Expected(p, kind, bytes)
    ensures |bytes| < MAX_FRAME_BYTES && !kind.ErrorFrame?
  {
    hide Decoders.DecodeConfiguration, Decoders.DataShape;
  }

  // ----- headway ---------------------------------------------------------------------------

  /** The command loop turns a buffered command into less work than the command was. */
  lemma ProcessWork(p: Plant, born: Timestamp, s: System, env: Env, stats: Stats)
    requires Sound(p, born) && Timing.ValidRate(p.clock.rate, p.clock.timeBase) && p.d.rate > 0 && Joint(p, s)
    requires WrittenBytes(s.client) <= Steps(p.cfg.version) * COMMAND_FRAME_BYTES
    ensures Work(p, s.(server := Process(p.cfg, s.server, env, stats).connection)) <= Work(p, s)
  {
    hide Joint, Sound, Process, Unwritten, WrittenBytes, Steps;
    var h := Handled(p.cfg.version, s.server);
    ProcessEffect(p, born, s, env, stats);
    ProcessMoves(p, born, s, env, stats);
    UnwrittenBound(p, born, s.(server := Process(p.cfg, s.server, env, stats).connection));
  }

  lemma ProcessEffect(p: Plant, born: Timestamp, s: System, env: Env, stats: Stats)
    requires Sound(p, born) && Timing.ValidRate(p.clock.rate, p.clock.timeBase) && p.d.rate > 0 && Joint(p, s)
    ensures var d := Process(p.cfg, s.server, env, stats).connection;
            d == s.server || (|s.server.receive| == COMMAND_FRAME_BYTES && d.receive == [])
  {
    hide Live, EmittedOk, CommandFlow, Flow, ClientOk, LastOk, Sound, Process, Upstream, Downstream, Shape, InStep,
      Buffered;
    SoundId(p, born);
    SoundConfig(p, born);
    BufferedPart(p, s);
    ProcessIs(p, s.server, Handled(p.cfg.version, s.server), env, stats);
  }

  /** Between two replies the probe has room for everything in transit. */
  lemma InTransitFits(p: Plant, born: Timestamp, s: System)
    requires Sound(p, born) && Timing.ValidRate(p.clock.rate, p.clock.timeBase) && p.d.rate > 0 && Joint(p, s)
             && s.client.state.Awaiting?
    ensures |s.client.input| + |s.down| < MAX_FRAME_BYTES
  {
    hide Live, Sound, Shape, EmittedOk, Upstream, Flow, Clean, LastOk, Sane;
    var kinds, m := Kinds(s), Consumed(s.client);
    QueuedBound(p, s.client);
    KindsAreClean(p, born, s);
    SentIsFlow(p, s);
    assert m <= |kinds| <= m + 1;
    var t := Flow(p, s.emitted, kinds, m);
    assert t + (s.client.input + s.down) == s.server.sent;
    if m < |kinds| {
      FlowStep(p, s.emitted, kinds, m);
      CleanSize(p, s.emitted, kinds, m);
    }
  }

  lemma CleanSize(p: Plant, emitted: Emitted, kinds: seq<FrameKind>, m: nat)
    requires Clean(p, emitted, kinds) && m < |kinds|
    ensures Known(p.cfg, emitted, kinds[m]) && |Whole(p.cfg, emitted, [], kinds[m])| < MAX_FRAME_BYTES
  {
    hide Content, Whole;
  }

  /** The step to take next: write a command, read it, write the reply, read the reply. */
  function Choice(p: Plant, s: System, env: Env): Step {
    if s.client.state.Connecting? || s.client.state.Sending? then ProbeWrite(Wrote(|Outgoing(Connected(s.client))|))
    else if s.up != [] then ServerRead([Data(s.up)], env)
    else if s.server.pending.Sending? then ServerWrite(Wrote(Unwritten(p, s)), env)
    else ProbeRead(|s.down|)
  }

  lemma ProbeWriteWork(p: Plant, born: Timestamp, s: System, env: Env)
    requires Sound(p, born) && Timing.ValidRate(p.clock.rate, p.clock.timeBase) && p.d.rate > 0 && Joint(p, s)
    requires s.client.state.Connecting? || s.client.state.Sending?
    ensures var n := |Outgoing(Connected(s.client))|;
            && n > 0 && WriteReady(s.client, Wrote(n)).Ok?
            && var w := WriteReady(s.client, Wrote(n)).value;
            |w.bytes| == n && WrittenBytes(w.client) == WrittenBytes(s.client) + n
  {
    hide ServerOk, Sound, Upstream, Downstream, LastOk, CommandBytes, CommandFlow;
    SoundId(p, born);
    ConnectedOk(p, s);
    var c := Connected(s.client);
    OutputSize(p, c);
    WriteEffect(p, c, |Outgoing(c)|);
    assert WriteReady(s.client, Wrote(|Outgoing(c)|)) == WriteReady(c, Wrote(|Outgoing(c)|));
  }

  // ----- nothing whole is left lying -------------------------------------------------------

  /** The probe's input holds no whole frame. */
  predicate NoWholeFrame(input: seq<byte>) { |input| < 4 || |input| < DeclaredSize(input) }

  lemma {:induction false} InputDrained(c: Client)
    requires Sane(c) && ProcessInput(c).Ok?
    ensures NoWholeFrame(ProcessInput(c).value.input)
    decreases |c.input|
  {
    hide Decoders.DecodeFrame, HandleFrame;
    if |c.input| >= 4 && |c.input| >= DeclaredSize(c.input) {
      var size := DeclaredSize(c.input);
      var f := Decoders.DecodeFrame(c.version, c.input[..size]).value;
      DecodedSize(c.version, c.input[..size]);
      InputDrained(HandleFrame(c.(input := c.input[size..]), f).value);
    }
  }

  /** Neither side has left a whole frame or command unread. */
  predicate Drained(s: System) { !Takes(s.server) && NoWholeFrame(s.client.input) }

  /** A probe that waits while no command is on its way has a reply coming. */
  lemma ReplyComing(p: Plant, born: Timestamp, s: System)
    requires Sound(p, born) && Timing.ValidRate(p.clock.rate, p.clock.timeBase) && p.d.rate > 0 && Joint(p, s)
             && !Takes(s.server)
    requires s.client.state.Awaiting? && s.up == [] && s.server.pending.Idle?
    ensures |Kinds(s)| == Consumed(s.client) + 1
  {
    hide Live, Sound, Shape, EmittedOk, CommandFlow, Downstream, LastOk, Sane;
    QueuedBound(p, s.client);
    SoundId(p, born);
    BufferedPart(p, s);
  }

  /** A probe that waits with nothing left to move has been given no reply: this cannot be. */
  lemma NotStuck(p: Plant, born: Timestamp, s: System)
    requires Sound(p, born) && Timing.ValidRate(p.clock.rate, p.clock.timeBase) && p.d.rate > 0 && Joint(p, s)
             && Drained(s)
    requires s.client.state.Awaiting? && s.up == [] && s.server.pending.Idle?
    ensures s.down != []
  {
    hide Live, Sound, Shape, EmittedOk, Upstream, InStep, Flow, Clean, LastOk, ClientOk, Consumed, Takes;
    var kinds, m := Kinds(s), Consumed(s.client);
    ReplyComing(p, born, s);
    KindsAreClean(p, born, s);
    IdleSent(p, s);
    FlowStep(p, s.emitted, kinds, m);
    WholeIsThere(p, s.emitted, kinds, m, s.client.input, s.server.sent, s.down);
  }

  lemma WholeIsThere(p: Plant, emitted: Emitted, kinds: seq<FrameKind>, m: nat, input: seq<byte>, sent: seq<byte>,
                     down: seq<byte>)
    requires Clean(p, emitted, kinds) && |kinds| == m + 1 && NoWholeFrame(input)
    requires sent == Flow(p, emitted, kinds, m) + input + down && sent == Flow(p, emitted, kinds, m + 1)
    ensures down != []
  {
    hide Flow, Whole, Expected, Known;
    var t := Flow(p, emitted, kinds, m);
    FlowStep(p, emitted, kinds, m);
    if down == [] {
      CleanFrame(p, emitted, kinds, m);
      var f := Whole(p.cfg, emitted, [], kinds[m]);
      assert t + input == t + f;
      SameTail(t, input, f);
      NextFrame(p, emitted, kinds, m, input);
    }
  }

  lemma SameTail(t: seq<byte>, a: seq<byte>, b: seq<byte>)
    requires t + a == t + b
    ensures a == b
  {
    assert a == (t + a)[|t|..] && b == (t + b)[|t|..];
  }

  // ----- one step --------------------------------------------------------------------------

  /** What a step that makes headway leaves behind. */
  ghost predicate Headway(p: Plant, s: System, step: Step)
    requires Timing.ValidRate(p.clock.rate, p.clock.timeBase) && p.d.rate > 0
    requires WrittenBytes(s.client) <= Steps(p.cfg.version) * COMMAND_FRAME_BYTES
  {
    && Enabled(p, s, step) && Next(p, s, step).Moved?
    && var t := Next(p, s, step).system;
    && t.open && Joint(p, t) && Drained(t) && WrittenBytes(t.client) <= Steps(p.cfg.version) * COMMAND_FRAME_BYTES
    && Work(p, t) < Work(p, s)
  }

  lemma WriteHeadway(p: Plant, born: Timestamp, s: System)
    requires Sound(p, born) && Timing.ValidRate(p.clock.rate, p.clock.timeBase) && p.d.rate > 0 && Joint(p, s)
             && Drained(s) && s.open
    requires s.client.state.Connecting? || s.client.state.Sending?
    requires WrittenBytes(s.client) <= Steps(p.cfg.version) * COMMAND_FRAME_BYTES
    ensures Headway(p, s, ProbeWrite(Wrote(|Outgoing(Connected(s.client))|)))
  {
    hide Joint, Sound, WriteReady, Unwritten, WrittenBytes, Steps, Connected, Takes, NoWholeFrame;
    var n := |Outgoing(Connected(s.client))|;
    ProbeWriteWork(p, born, s, Env(0, born));
    ProbeWrites(p, born, s, Wrote(n));
    var w := WriteReady(s.client, Wrote(n)).value;
    var t := s.(client := w.client, up := s.up + w.bytes);
    WorkDefined(p, t);
    OutcomeKeepsInput(s.client, Wrote(n));
    assert Unwritten(p, t) == Unwritten(p, s) by { SameUnwritten(p, s, t); }
  }

  lemma SameUnwritten(p: Plant, s: System, t: System)
    requires t.server == s.server && t.data == s.data
    ensures Unwritten(p, t) == Unwritten(p, s)
  {
  }

  lemma ReadHeadway(p: Plant, born: Timestamp, s: System, env: Env)
    requires Sound(p, born) && Timing.ValidRate(p.clock.rate, p.clock.timeBase) && p.d.rate > 0 && Joint(p, s)
             && Drained(s) && s.open && s.up != []
    requires WrittenBytes(s.client) <= Steps(p.cfg.version) * COMMAND_FRAME_BYTES
    ensures Headway(p, s, ServerRead([Data(s.up)], env))
  {
    hide Joint, Sound, Unwritten, WrittenBytes, Steps, Takes, NoWholeFrame, ReadConnection, Process;
    var outcomes := [Data(s.up)];
    OneDelivery(s.up);
    ReadIsProcess(p, born, s, outcomes, env);
    ServerReads(p, born, s, outcomes, env);
    ReadDrains(p, born, s, outcomes, env);
    var t := Arrived(s, |s.up|);
    ProcessWork(p, born, t, env, s.stats);
    ArrivalWork(p, s);
    var d := Process(p.cfg, t.server, env, s.stats).connection;
    SameUnwritten(p, t.(server := d), Next(p, s, ServerRead(outcomes, env)).system);
  }

  lemma OneDelivery(bytes: seq<byte>)
    ensures Delivered([Data(bytes)]) == bytes
  {
    assert [Data(bytes)][1..] == [];
  }

  lemma ArrivalWork(p: Plant, s: System)
    requires s.up != [] && WrittenBytes(s.client) <= Steps(p.cfg.version) * COMMAND_FRAME_BYTES
    ensures Work(p, Arrived(s, |s.up|)) < Work(p, s)
  {
    hide WrittenBytes, Steps;
    assert Unwritten(p, Arrived(s, |s.up|)) == Unwritten(p, s);
  }

  lemma ReplyHeadway(p: Plant, born: Timestamp, s: System)
    requires Sound(p, born) && Timing.ValidRate(p.clock.rate, p.clock.timeBase) && p.d.rate > 0 && Joint(p, s)
             && Drained(s) && s.open
    requires s.client.state.Awaiting? && s.up == [] && s.server.pending.Idle?
    requires WrittenBytes(s.client) <= Steps(p.cfg.version) * COMMAND_FRAME_BYTES
    ensures Headway(p, s, ProbeRead(|s.down|))
  {
    hide Joint, Sound, Unwritten, WrittenBytes, Steps, Takes, NoWholeFrame, ProcessInput;
    NotStuck(p, born, s);
    InTransitFits(p, born, s);
    ProbeReads(p, born, s, |s.down|);
    var c := s.client.(input := s.client.input + s.down[..|s.down|]);
    InputDrained(c);
    var t := s.(client := ProcessInput(c).value, down := s.down[|s.down|..]);
    WorkDefined(p, t);
    SameUnwritten(p, s, t);
  }

  /** The chosen step makes headway as long as the probe has not sent its last command. */
  lemma ChoiceHeadway(p: Plant, born: Timestamp, s: System, env: Env)
    requires Sound(p, born) && Timing.ValidRate(p.clock.rate, p.clock.timeBase) && p.d.rate > 0 && Joint(p, s)
             && Drained(s) && s.open
    requires !s.client.state.Streaming? && WrittenBytes(s.client) <= Steps(p.cfg.version) * COMMAND_FRAME_BYTES
    ensures Headway(p, s, Choice(p, s, env))
  {
    hide Joint, Sound, Unwritten, WrittenBytes, Steps, Drained, Headway, Connected;
    if s.client.state.Connecting? || s.client.state.Sending? {
      WriteHeadway(p, born, s);
    } else if s.up != [] {
      ReadHeadway(p, born, s, env);
    } else if s.server.pending.Sending? {
      FlushHeadway(p, born, s, env);
    } else {
      ReplyHeadway(p, born, s);
    }
  }

  lemma FlushHeadway(p: Plant, born: Timestamp, s: System, env: Env)
    requires Sound(p, born) && Timing.ValidRate(p.clock.rate, p.clock.timeBase) && p.d.rate > 0 && Joint(p, s)
             && Drained(s) && s.open
    requires s.server.pending.Sending? && WrittenBytes(s.client) <= Steps(p.cfg.version) * COMMAND_FRAME_BYTES
    ensures Headway(p, s, ServerWrite(Wrote(Unwritten(p, s)), env))
  {
    hide Joint, Sound, Unwritten, WrittenBytes, Steps, Takes, NoWholeFrame, Process, Selected, Fits;
    var c, n := s.server, Unwritten(p, s);
    UnwrittenBound(p, born, s);
    FlushingMoves(p, born, s, Wrote(n), env);
    FlushDrains(p, born, s, Wrote(n), env);
    AdvanceMoves(p, s, n);
    var d := Advance(c, Selected(p.cfg, s.data, c.errorFrame, c.pending.kind), n);
    var t := s.(server := d, down := s.down + d.sent[|c.sent|..]);
    var counted := if c.pending.kind.DataFrame? then s.stats.(sentData := s.stats.sentData + 1) else s.stats;
    NotClosing(p, s);
    ProcessWork(p, born, t, env, counted);
    ProcessMoves(p, born, t, env, counted);
    NothingUnwritten(p, t);
    var u := t.(server := Process(p.cfg, d, env, counted).connection);
    SameUnwritten(p, u, Next(p, s, ServerWrite(Wrote(n), env)).system);
  }

  lemma NotClosing(p: Plant, s: System)
    requires Timing.ValidRate(p.clock.rate, p.clock.timeBase) && p.d.rate > 0 && Joint(p, s)
    ensures !s.server.closeAfterFlush
  {
  }

  lemma NothingUnwritten(p: Plant, s: System)
    requires s.server.pending.Idle?
    ensures Unwritten(p, s) == 0
  {
  }

  // ----- to the end ------------------------------------------------------------------------

  /** Putting a step in front of a run. */
  lemma RunFrom(p: Plant, s: System, step: Step, states: seq<System>, steps: seq<Step>)
    requires Timing.ValidRate(p.clock.rate, p.clock.timeBase) && IsRun(p, states, steps)
    requires Enabled(p, s, step) && Next(p, s, step) == Moved(states[0])
    ensures IsRun(p, [s] + states, [step] + steps)
  {
    hide Enabled, Next;
    var more, all := [s] + states, [step] + steps;
    assert Follows(p, s, step, states[0]);
    forall k | 0 <= k < |all|
      ensures Follows(p, more[k], all[k], more[k + 1])
    {
      if k > 0 {
        assert Follows(p, states[k - 1], steps[k - 1], states[k]);
      }
    }
  }

  /** From every drained state of an undisturbed connection the handshake can be brought to its end. */
  lemma {:induction false} CanFinish(p: Plant, born: Timestamp, s: System, env: Env) returns (states: seq<System>,
                                                                                              steps: seq<Step>)
    requires Sound(p, born) && Timing.ValidRate(p.clock.rate, p.clock.timeBase) && p.d.rate > 0 && Joint(p, s)
             && Drained(s) && s.open
    requires WrittenBytes(s.client) <= Steps(p.cfg.version) * COMMAND_FRAME_BYTES
    ensures IsRun(p, states, steps) && states[0] == s && states[|states| - 1].client.state.Streaming?
    decreases Work(p, s)
  {
    hide Joint, Sound, Work, WrittenBytes, Steps, Drained, Enabled, Next, Choice;
    if s.client.state.Streaming? {
      states, steps := [s], [];
    } else {
      ChoiceHeadway(p, born, s, env);
      var t := Next(p, s, Choice(p, s, env)).system;
      var rest, more := CanFinish(p, born, t, env);
      RunFrom(p, s, Choice(p, s, env), rest, more);
      states, steps := [s] + rest, [Choice(p, s, env)] + more;
    }
  }

  /** Every step leaves both sides drained. */
  lemma StepDrained(p: Plant, born: Timestamp, s: System, step: Step)
    requires Sound(p, born) && Timing.ValidRate(p.clock.rate, p.clock.timeBase) && p.d.rate > 0 && Joint(p, s)
    requires Drained(s) && Enabled(p, s, step) && Next(p, s, step).Moved?
    ensures Drained(Next(p, s, step).system)
  {
    hide Joint, Sound, Takes, NoWholeFrame, Flush, ReadConnection, SampleFrame, Timing.InSocRange, DeadlineExpired,
      WriteReady, ProcessInput;
    StepDrains(p, born, s, step);
    match step {
      case ProbeWrite(outcome) => OutcomeKeepsInput(s.client, outcome);
      case ProbeRead(count) => InputDrained(s.client.(input := s.client.input + s.down[..count]));
      case _ =>
    }
  }

  lemma OutcomeKeepsInput(c: Client, outcome: WriteOutcome)
    requires outcome.Wrote? ==> outcome.count <= |Outgoing(Connected(c))|
    requires WriteReady(c, outcome).Ok?
    ensures WriteReady(c, outcome).value.client.input == c.input
  {
    hide CommandBytes;
  }

  lemma {:induction false} RunDrained(p: Plant, born: Timestamp, states: seq<System>, steps: seq<Step>, k: nat)
    requires Sound(p, born) && Timing.ValidRate(p.clock.rate, p.clock.timeBase) && p.d.rate > 0
    requires IsRun(p, states, steps) && Joint(p, states[0]) && Drained(states[0]) && k < |states|
    ensures Drained(states[k])
  {
    hide Joint, Sound, Next, Enabled, Drained;
    if k > 0 {
      RunDrained(p, born, states, steps, k - 1);
      RunIsJoint(p, born, states, steps, k - 1);
      assert Follows(p, states[k - 1], steps[k - 1], states[k]);
      StepDrained(p, born, states[k - 1], steps[k - 1]);
    }
  }

  /**
    * From every state of every run of a fresh connection, as long as it is open, the handshake can
    * be brought to its end.
    */
  lemma AlwaysCanFinish(p: Plant, born: Timestamp, id: nat, now: nat, stats: Stats, next: nat,
                        states: seq<System>, steps: seq<Step>, k: nat, env: Env)
    returns (more: seq<System>, chosen: seq<Step>)
    requires Sound(p, born) && Timing.ValidRate(p.clock.rate, p.clock.timeBase)
    requires IsRun(p, states, steps) && states[0] == Composition.Start(p, id, now, stats, next)
    requires k < |states| && states[k].open
    ensures IsRun(p, more, chosen) && more[0] == states[k] && more[|more| - 1].client.state.Streaming?
  {
    hide Joint, Sound, IsRun;
    SoundId(p, born);
    StartIsJoint(p, born, id, now, stats, next);
    RunIsJoint(p, born, states, steps, k);
    RunDrained(p, born, states, steps, k);
    WorkDefined(p, states[k]);
    more, chosen := CanFinish(p, born, states[k], env);
  }

  /** In particular from a fresh connection: the probe gets through both configurations to streaming. */
  lemma StreamingIsReached(p: Plant, born: Timestamp, id: nat, now: nat, stats: Stats, next: nat, env: Env)
    returns (states: seq<System>, steps: seq<Step>)
    requires Sound(p, born) && Timing.ValidRate(p.clock.rate, p.clock.timeBase)
    ensures IsRun(p, states, steps) && states[0] == Composition.Start(p, id, now, stats, next)
    ensures states[|states| - 1].client.state.Streaming?
  {
    hide Joint, Sound, IsRun;
    SoundId(p, born);
    StartIsJoint(p, born, id, now, stats, next);
    var s := Composition.Start(p, id, now, stats, next);
    WorkDefined(p, s);
    states, steps := CanFinish(p, born, s, env);
  }
}

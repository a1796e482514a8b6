/**
  * One PDC connection of an endpoint: command processing, the pending frame and partial writes.
  *
  * A connection carries two histories beside the source's fields: `sent`, the bytes its socket
  * has accepted, and `delivered`, the frames completed so far. A pending data frame is labelled
  * with the sample it was queued for. The steps never read these; they read the shared data
  * buffer, which is passed in, and the theorem is that the two agree.
  */
module Connections {
  import opened Bytes
  import opened Frames
  import opened Receive

  datatype FrameKind =
    | HeaderFrame | Configuration1Frame | Configuration2Frame
    | CapabilityFrame | StreamConfigurationFrame
    | ErrorFrame
    | DataFrame(sample: nat)

  datatype Pending = Idle | Sending(kind: FrameKind, offset: nat)

  datatype Connection = Connection(
    id: nat,
    receive: seq<byte>,
    pending: Pending,
    errorFrame: seq<byte>,
    streaming: bool,
    closeAfterFlush: bool,
    acceptedAt: nat,
    firstValidCommandAt: Option<nat>,
    lastValidCommandAt: nat,
    sent: seq<byte>,
    delivered: seq<FrameKind>)

  datatype EndpointFrames =
    | FramesV2(header: seq<byte>, configuration1: seq<byte>, configuration2: seq<byte>)
    | FramesV3(capability: seq<byte>, streamConfiguration: seq<byte>)

  datatype Config = Config(version: WireVersion, streamId: nat, limit: nat, frames: EndpointFrames)

  datatype Stats = Stats(
    accepted: nat, closed: nat, rejected: nat, malformed: nat, unsupported: nat, slow: nat, sentData: nat)

  /** The clock readings that a step takes: monotonic time, and wall time for error responses. */
  datatype Env = Env(now: nat, errorTime: Timestamp)

  datatype WriteOutcome = Wrote(count: nat) | WriteBlocked | WriteFailed

  /** The result of a step on one connection; `open` is the source's boolean, false means close. */
  datatype Served = Served(open: bool, connection: Connection, stats: Stats)

  const REJECTED_COMMAND := 1
  const WRONG_STREAM := 2

  predicate ValidConfig(cfg: Config) {
    && cfg.streamId <= U16_MAX
    && COMMAND_FRAME_BYTES <= cfg.limit <= MAX_COMMAND_FRAME_BYTES
    && match cfg.frames
       case FramesV2(h, c1, c2) => cfg.version.V2? && h != [] && c1 != [] && c2 != []
       case FramesV3(c, s) => cfg.version.V3? && c != [] && s != []
  }

  /** The frame kinds an endpoint of this version can ever have pending. */
  predicate Fits(cfg: Config, kind: FrameKind) {
    match kind
    case HeaderFrame => cfg.frames.FramesV2?
    case Configuration1Frame => cfg.frames.FramesV2?
    case Configuration2Frame => cfg.frames.FramesV2?
    case CapabilityFrame => cfg.frames.FramesV3?
    case StreamConfigurationFrame => cfg.frames.FramesV3?
    case ErrorFrame => cfg.frames.FramesV3?
    case DataFrame(_) => true
  }

  /** The bytes that `flush_connection` selects; a kind that does not fit is its `unreachable!`. */
  function Selected(cfg: Config, data: seq<byte>, errorFrame: seq<byte>, kind: FrameKind): seq<byte>
    requires Fits(cfg, kind)
  {
    match kind
    case HeaderFrame => cfg.frames.header
    case Configuration1Frame => cfg.frames.configuration1
    case Configuration2Frame => cfg.frames.configuration2
    case CapabilityFrame => cfg.frames.capability
    case StreamConfigurationFrame => cfg.frames.streamConfiguration
    case ErrorFrame => errorFrame
    case DataFrame(_) => data
  }

  function ErrorResponse(id: nat, code: nat, ts: Timestamp): Frame {
    EncodeFrame(V3, V3_ERROR_RESPONSE, id, ts, PutU16(code) + PutU16(0))
  }

  function NewConnection(id: nat, now: nat): Connection {
    Connection(id, [], Idle, [], false, false, now, None, now, [], [])
  }

  // ----- the steps -------------------------------------------------------------------------

  function QueueError(c: Connection, id: nat, code: nat, env: Env): Connection {
    c.(errorFrame := ErrorResponse(id, code, env.errorTime),
    pending := Sending(ErrorFrame, 0), streaming := false, closeAfterFlush := true)
  }

  function RecordValidCommand(c: Connection, now: nat): Connection {
    c.(firstValidCommandAt := if c.firstValidCommandAt.None? then Some(now) else c.firstValidCommandAt,
    lastValidCommandAt := now)
  }

  /** A step that changes only what the connection will do next, not what it has received or sent. */
  predicate Quiet(c: Connection, stats: Stats, r: Served) {
    && r.connection.id == c.id && r.connection.receive == c.receive
    && r.connection.sent == c.sent && r.connection.delivered == c.delivered
    && r.stats.accepted == stats.accepted && r.stats.closed == stats.closed && r.stats.sentData == stats.sentData
  }

  function HandleCommand(cfg: Config, c: Connection, command: Command, stats: Stats): (r: Served)
    ensures Quiet(c, stats, r)
    ensures c.pending.Idle? ==> r.stats.slow == stats.slow
  {
    if c.pending.Sending? then Served(false, c, stats.(slow := stats.slow + 1))
    else match (cfg.version, command)
         case (_, Stop) => Served(true, c.(streaming := false), stats)
         case (_, Start) => Served(true, c.(streaming := true), stats)
         case (V2, Header2) => Served(true, c.(pending := Sending(HeaderFrame, 0)), stats)
         case (V2, Configuration1) => Served(true, c.(pending := Sending(Configuration1Frame, 0)), stats)
         case (V2, Configuration2) => Served(true, c.(pending := Sending(Configuration2Frame, 0)), stats)
         case (V3, Capability) => Served(true, c.(pending := Sending(CapabilityFrame, 0)), stats)
         case (V3, StreamConfiguration) => Served(true, c.(pending := Sending(StreamConfigurationFrame, 0)), stats)
         case _ => Served(false, c, stats.(unsupported := stats.unsupported + 1))
  }

  /** A rejected input: version 3 answers with an error frame and closes after it, version 2 closes. */
  function Reject(cfg: Config, c: Connection, id: nat, code: nat, env: Env, stats: Stats): (r: Served)
    ensures Quiet(c, stats, r) && r.stats == stats
  {
    if cfg.version.V3? then Served(true, QueueError(c, id, code, env), stats) else Served(false, c, stats)
  }

  /** One turn of the command loop, given what the receive buffer yielded. */
  function Turn(cfg: Config, c: Connection, command: ReceivedCommand, env: Env, stats: Stats): (r: Served)
    ensures Quiet(c, stats, r)
    ensures c.pending.Idle? ==> r.stats.slow == stats.slow
  {
    match command
    case Rejected(id) =>
      Reject(cfg, c, id, REJECTED_COMMAND, env, stats.(unsupported := stats.unsupported + 1))
    case Accepted(request) =>
      if request.id != cfg.streamId then
        Reject(cfg, c, request.id, WRONG_STREAM, env, stats.(malformed := stats.malformed + 1))
      else
        HandleCommand(cfg, RecordValidCommand(c, env.now), request.command, stats)
  }

  /** `process_buffered_commands`: commands are taken until a frame is pending or bytes run out. */
  function Process(cfg: Config, c: Connection, env: Env, stats: Stats): Served
    decreases |c.receive|
  {
    hide NextCommand;
    if c.pending.Sending? || c.closeAfterFlush then Served(true, c, stats)
    else match NextCommand(cfg.version, cfg.limit, c.receive)
         case NeedMore => Served(true, c, stats)
         case Malformed(id) =>
           Reject(cfg, c, if id.Some? then id.value else cfg.streamId, REJECTED_COMMAND, env,
                  stats.(malformed := stats.malformed + 1))
         case Received(command, size) =>
           var turn := Turn(cfg, c.(receive := c.receive[size..]), command, env, stats);
           if turn.open then Process(cfg, turn.connection, env, turn.stats) else turn
  }

  /** The socket accepted `count` more bytes of the pending frame. */
  function Advance(c: Connection, bytes: seq<byte>, count: nat): Connection
    requires c.pending.Sending? && c.pending.offset + count <= |bytes|
  {
    var from, to := c.pending.offset, c.pending.offset + count;
    if to < |bytes| then c.(sent := c.sent + bytes[from..to], pending := Sending(c.pending.kind, to))
    else c.(sent := c.sent + bytes[from..to], pending := Idle, delivered := c.delivered + [c.pending.kind])
  }

  /** `flush_connection` with the outcome of its single `write`. */
  function Flush(cfg: Config, data: seq<byte>, c: Connection, outcome: WriteOutcome, env: Env, stats: Stats): Served
    requires c.pending.Sending? ==> Fits(cfg, c.pending.kind)
  {
    hide Process;
    if c.pending.Idle? then Served(true, c, stats)
    else
      var bytes := Selected(cfg, data, c.errorFrame, c.pending.kind);
      match outcome
      case WriteBlocked => Served(true, c, stats)
      case WriteFailed => Served(false, c, stats)
      case Wrote(count) =>
        if count == 0 || c.pending.offset + count > |bytes| then Served(false, c, stats)
        else
          var next := Advance(c, bytes, count);
          if next.pending.Sending? then Served(true, next, stats)
          else
            var counted := if c.pending.kind.DataFrame? then stats.(sentData := stats.sentData + 1) else stats;
            if c.closeAfterFlush then Served(false, next, counted) else Process(cfg, next, env, counted)
  }

  function ReadConnection(cfg: Config, c: Connection, outcomes: seq<ReadOutcome>, env: Env, stats: Stats): Served {
    if c.closeAfterFlush then Served(true, c, stats)
    else
      var (result, buffer) := Reads(c.receive, cfg.limit, outcomes);
      var filled := c.(receive := buffer);
      match result
      case Closed => Served(false, filled, stats)
      case Failed => Served(false, filled, stats.(malformed := stats.malformed + 1))
      case _ =>
        var p := Process(cfg, filled, env, stats);
        if !p.open || result.Open? then p
        else p.(open := p.connection.closeAfterFlush && p.connection.pending.Sending?)
  }

  const FIRST_VALID_COMMAND_DEADLINE := 15_000_000_000
  const IDLE_NON_STREAMING_DEADLINE := 300_000_000_000

  predicate DeadlineExpired(c: Connection, now: nat) {
    if c.firstValidCommandAt.None? then now - c.acceptedAt >= FIRST_VALID_COMMAND_DEADLINE
    else !c.streaming && now - c.lastValidCommandAt >= IDLE_NON_STREAMING_DEADLINE
  }

  // ----- what a connection has sent --------------------------------------------------------

  /** The frame each sample was encoded to; entries are never changed. */
  type Emitted = map<nat, seq<byte>>

  predicate Known(cfg: Config, emitted: Emitted, kind: FrameKind) {
    Fits(cfg, kind) && (kind.DataFrame? ==> kind.sample in emitted)
  }

  /** The whole frame of a kind, with a data frame taken from its own sample and not the buffer. */
  function Whole(cfg: Config, emitted: Emitted, errorFrame: seq<byte>, kind: FrameKind): seq<byte>
    requires Known(cfg, emitted, kind)
  {
    Selected(cfg, if kind.DataFrame? then emitted[kind.sample] else [], errorFrame, kind)
  }

  predicate AllKnown(cfg: Config, emitted: Emitted, kinds: seq<FrameKind>) {
    forall i :: 0 <= i < |kinds| ==> Known(cfg, emitted, kinds[i])
  }

  /** The concatenation of whole frames. */
  function Transcript(cfg: Config, emitted: Emitted, errorFrame: seq<byte>, kinds: seq<FrameKind>): seq<byte>
    requires AllKnown(cfg, emitted, kinds)
    decreases |kinds|
  {
    if kinds == [] then []
    else
      Transcript(cfg, emitted, errorFrame, kinds[..|kinds| - 1])
      + Whole(cfg, emitted, errorFrame, kinds[|kinds| - 1])
  }

  /** Data frames appear in strictly increasing sample order. */
  predicate Rising(kinds: seq<FrameKind>) {
    forall i, j :: 0 <= i < j < |kinds| && kinds[i].DataFrame? && kinds[j].DataFrame? ==>
                     kinds[i].sample < kinds[j].sample
  }

  function InFlight(c: Connection): seq<FrameKind> {
    if c.pending.Idle? then c.delivered else c.delivered + [c.pending.kind]
  }

  /**
    * No torn frames: the bytes written are the delivered frames, whole and in order, followed by
    * a prefix of the pending frame, where every data frame is the encoding of one sample.
    */
  ghost predicate WellSent(cfg: Config, emitted: Emitted, c: Connection) {
    && AllKnown(cfg, emitted, c.delivered)
    && Rising(InFlight(c))
    && match c.pending
       case Idle => c.sent == Transcript(cfg, emitted, c.errorFrame, c.delivered)
       case Sending(kind, offset) =>
         && Known(cfg, emitted, kind)
         && offset <= |Whole(cfg, emitted, c.errorFrame, kind)|
         && c.sent == Transcript(cfg, emitted, c.errorFrame, c.delivered)
                      + Whole(cfg, emitted, c.errorFrame, kind)[..offset]
  }

  /** What holds of every connection that still occupies a slot. */
  ghost predicate Live(cfg: Config, data: seq<byte>, emitted: Emitted, c: Connection) {
    && WellSent(cfg, emitted, c)
    && |c.receive| <= cfg.limit
    && ErrorFrame !in c.delivered
    && (c.closeAfterFlush <==> c.pending.Sending? && c.pending.kind.ErrorFrame?)
    && (c.closeAfterFlush ==> !c.streaming)
    && match c.pending
       case Idle => true
       case Sending(kind, offset) =>
         && offset < |Whole(cfg, emitted, c.errorFrame, kind)|
         && (kind.DataFrame? ==> c.streaming && emitted[kind.sample] == data)
  }

  // ----- preservation ----------------------------------------------------------------------

  lemma {:induction false} TranscriptIgnoresError(cfg: Config, emitted: Emitted, a: seq<byte>, b: seq<byte>,
                                                  kinds: seq<FrameKind>)
    requires AllKnown(cfg, emitted, kinds) && ErrorFrame !in kinds
    ensures Transcript(cfg, emitted, a, kinds) == Transcript(cfg, emitted, b, kinds)
    decreases |kinds|
  {
    if kinds != [] {
      var last := kinds[|kinds| - 1];
      assert last in kinds;
      TranscriptIgnoresError(cfg, emitted, a, b, kinds[..|kinds| - 1]);
    }
  }

  lemma {:induction false} TranscriptGrows(cfg: Config, emitted: Emitted, sample: nat, frame: seq<byte>,
                                           error: seq<byte>, kinds: seq<FrameKind>)
    requires AllKnown(cfg, emitted, kinds) && sample !in emitted
    ensures AllKnown(cfg, emitted[sample := frame], kinds)
    ensures Transcript(cfg, emitted[sample := frame], error, kinds) == Transcript(cfg, emitted, error, kinds)
    decreases |kinds|
  {
    if kinds != [] {
      var last := kinds[|kinds| - 1];
      assert Known(cfg, emitted, last);
      TranscriptGrows(cfg, emitted, sample, frame, error, kinds[..|kinds| - 1]);
    }
  }

  /** Encoding a new sample leaves what every connection has sent well-formed. */
  lemma WellSentGrows(cfg: Config, emitted: Emitted, sample: nat, frame: seq<byte>, c: Connection)
    requires WellSent(cfg, emitted, c) && sample !in emitted
    ensures WellSent(cfg, emitted[sample := frame], c)
  {
    TranscriptGrows(cfg, emitted, sample, frame, c.errorFrame, c.delivered);
  }

  /** Queueing a frame on an idle connection starts at its first byte. */
  lemma QueueKeeps(cfg: Config, data: seq<byte>, emitted: Emitted, c: Connection, d: Connection, kind: FrameKind)
    requires Live(cfg, data, emitted, c) && c.pending.Idle?
    requires Known(cfg, emitted, kind) && (kind.DataFrame? ==> Rising(c.delivered + [kind]))
    requires d.sent == c.sent && d.delivered == c.delivered && d.pending == Sending(kind, 0)
    ensures WellSent(cfg, emitted, d)
  {
    TranscriptIgnoresError(cfg, emitted, c.errorFrame, d.errorFrame, c.delivered);
    assert Whole(cfg, emitted, d.errorFrame, kind)[..0] == [];
  }

  lemma RejectKeeps(cfg: Config, data: seq<byte>, emitted: Emitted, c: Connection, id: nat, code: nat, env: Env,
                    stats: Stats)
    requires ValidConfig(cfg) && Live(cfg, data, emitted, c) && c.pending.Idle?
    ensures Live(cfg, data, emitted, Reject(cfg, c, id, code, env, stats).connection)
  {
    hide Transcript, Rising;
    if cfg.version.V3? {
      QueueKeeps(cfg, data, emitted, c, QueueError(c, id, code, env), ErrorFrame);
      assert |ErrorResponse(id, code, env.errorTime)| > 0;
    }
  }

  lemma TurnKeeps(cfg: Config, data: seq<byte>, emitted: Emitted, c: Connection, command: ReceivedCommand, env: Env,
                  stats: Stats)
    requires ValidConfig(cfg) && Live(cfg, data, emitted, c) && c.pending.Idle?
    ensures Live(cfg, data, emitted, Turn(cfg, c, command, env, stats).connection)
  {
    match command {
      case Rejected(id) =>
        RejectKeeps(cfg, data, emitted, c, id, REJECTED_COMMAND, env, stats.(unsupported := stats.unsupported + 1));
      case Accepted(request) =>
        if request.id != cfg.streamId {
          RejectKeeps(cfg, data, emitted, c, request.id, WRONG_STREAM, env, stats.(malformed := stats.malformed + 1));
        } else {
          HandleKeeps(cfg, data, emitted, c, request.command, env.now, stats);
        }
    }
  }

  lemma HandleKeeps(cfg: Config, data: seq<byte>, emitted: Emitted, c: Connection, command: Command, now: nat,
                    stats: Stats)
    requires ValidConfig(cfg) && Live(cfg, data, emitted, c) && c.pending.Idle?
    ensures Live(cfg, data, emitted, HandleCommand(cfg, RecordValidCommand(c, now), command, stats).connection)
  {
    hide Transcript, Rising;
    var d := RecordValidCommand(c, now);
    assert InFlight(d) == InFlight(c);
    var h := HandleCommand(cfg, d, command, stats).connection;
    if h.pending.Sending? {
      QueueKeeps(cfg, data, emitted, c, h, h.pending.kind);
    } else {
      assert InFlight(h) == InFlight(c);
    }
  }

  /**
    * Command processing keeps the connection live, sends nothing itself, and never reaches the
    * slow-client branch of `handle_command`: a frame pending there would have stopped the loop.
    */
  lemma {:induction false} ProcessKeeps(cfg: Config, data: seq<byte>, emitted: Emitted, c: Connection, env: Env,
                                        stats: Stats)
    requires ValidConfig(cfg) && Live(cfg, data, emitted, c)
    ensures var p := Process(cfg, c, env, stats);
            && Live(cfg, data, emitted, p.connection) && p.connection.id == c.id
            && p.connection.sent == c.sent && p.connection.delivered == c.delivered
            && p.stats.slow == stats.slow && p.stats.accepted == stats.accepted && p.stats.closed == stats.closed
            && p.stats.sentData == stats.sentData
            && (p.connection.pending.Sending? && p.connection.pending.kind.DataFrame? ==> p.connection == c)
    decreases |c.receive|
  {
    hide Live, WellSent, Rising, NextCommand;
    if c.pending.Idle? && !c.closeAfterFlush {
      match NextCommand(cfg.version, cfg.limit, c.receive) {
        case NeedMore =>
        case Malformed(id) =>
          RejectKeeps(cfg, data, emitted, c, if id.Some? then id.value else cfg.streamId, REJECTED_COMMAND, env,
                      stats.(malformed := stats.malformed + 1));
        case Received(command, size) =>
          var d := c.(receive := c.receive[size..]);
          ShorterBufferKeeps(cfg, data, emitted, c, size);
          TurnKeeps(cfg, data, emitted, d, command, env, stats);
          var turn := Turn(cfg, d, command, env, stats);
          if turn.open {
            ProcessKeeps(cfg, data, emitted, turn.connection, env, turn.stats);
          }
      }
    }
  }

  lemma ShorterBufferKeeps(cfg: Config, data: seq<byte>, emitted: Emitted, c: Connection, size: nat)
    requires Live(cfg, data, emitted, c) && size <= |c.receive|
    ensures Live(cfg, data, emitted, c.(receive := c.receive[size..]))
  {
    assert InFlight(c.(receive := c.receive[size..])) == InFlight(c);
  }

  /** The bytes selected for a live pending frame are the whole frame of its kind. */
  lemma SelectedIsWhole(cfg: Config, data: seq<byte>, emitted: Emitted, c: Connection)
    requires Live(cfg, data, emitted, c) && c.pending.Sending?
    ensures Known(cfg, emitted, c.pending.kind)
    ensures Selected(cfg, data, c.errorFrame, c.pending.kind) == Whole(cfg, emitted, c.errorFrame, c.pending.kind)
  {
  }

  /** A completed write moves the frame from pending to delivered. */
  lemma CompletionKeeps(cfg: Config, data: seq<byte>, emitted: Emitted, c: Connection)
    requires Live(cfg, data, emitted, c) && c.pending.Sending?
    ensures Known(cfg, emitted, c.pending.kind)
    ensures var bytes := Selected(cfg, data, c.errorFrame, c.pending.kind);
            var done := c.(sent := c.sent + bytes[c.pending.offset..], pending := Idle,
                        delivered := c.delivered + [c.pending.kind]);
            && WellSent(cfg, emitted, done)
            && (!c.closeAfterFlush ==> Live(cfg, data, emitted, done))
  {
    hide Rising;
    SelectedIsWhole(cfg, data, emitted, c);
    var kind, offset := c.pending.kind, c.pending.offset;
    var bytes := Selected(cfg, data, c.errorFrame, kind);
    var grown := c.delivered + [kind];
    assert grown == InFlight(c);
    assert AllKnown(cfg, emitted, grown);
    assert Transcript(cfg, emitted, c.errorFrame, grown)
        == Transcript(cfg, emitted, c.errorFrame, c.delivered) + bytes by {
      assert grown[..|grown| - 1] == c.delivered && grown[|grown| - 1] == kind;
    }
    hide Transcript;
    assert bytes[..offset] + bytes[offset..] == bytes;
    var t := Transcript(cfg, emitted, c.errorFrame, c.delivered);
    assert (t + bytes[..offset]) + bytes[offset..] == t + (bytes[..offset] + bytes[offset..]);
  }

  lemma PartialKeeps(cfg: Config, data: seq<byte>, emitted: Emitted, c: Connection, count: nat)
    requires Live(cfg, data, emitted, c) && c.pending.Sending?
    requires Known(cfg, emitted, c.pending.kind)
    requires c.pending.offset + count < |Selected(cfg, data, c.errorFrame, c.pending.kind)|
    ensures var bytes := Selected(cfg, data, c.errorFrame, c.pending.kind);
            Live(cfg, data, emitted, c.(sent := c.sent + bytes[c.pending.offset..c.pending.offset + count],
                 pending := Sending(c.pending.kind, c.pending.offset + count)))
  {
    hide Rising, Transcript;
    SelectedIsWhole(cfg, data, emitted, c);
    var kind, offset := c.pending.kind, c.pending.offset;
    var bytes := Selected(cfg, data, c.errorFrame, kind);
    assert bytes[..offset] + bytes[offset..offset + count] == bytes[..offset + count];
    var d := c.(sent := c.sent + bytes[offset..offset + count], pending := Sending(kind, offset + count));
    assert InFlight(d) == InFlight(c);
  }

  lemma AdvanceKeeps(cfg: Config, data: seq<byte>, emitted: Emitted, c: Connection, count: nat)
    requires Live(cfg, data, emitted, c) && c.pending.Sending?
    requires Known(cfg, emitted, c.pending.kind)
    requires c.pending.offset + count <= |Selected(cfg, data, c.errorFrame, c.pending.kind)|
    ensures var next := Advance(c, Selected(cfg, data, c.errorFrame, c.pending.kind), count);
            && WellSent(cfg, emitted, next)
            && (next.pending.Sending? || !c.closeAfterFlush ==> Live(cfg, data, emitted, next))
            && DataCount(next.delivered)
               == DataCount(c.delivered) + (if next.pending.Idle? && c.pending.kind.DataFrame? then 1 else 0)
  {
    hide Live, WellSent, DataCount, Selected;
    var bytes := Selected(cfg, data, c.errorFrame, c.pending.kind);
    var from, to := c.pending.offset, c.pending.offset + count;
    DataCountAppend(c.delivered, c.pending.kind);
    if to < |bytes| {
      PartialKeeps(cfg, data, emitted, c, count);
      LiveIsWellSent(cfg, data, emitted, Advance(c, bytes, count));
    } else {
      CompletionKeeps(cfg, data, emitted, c);
      assert bytes[from..to] == bytes[from..];
    }
  }

  /** What a flush of a live connection guarantees, in every outcome. */
  ghost predicate Flushed(cfg: Config, data: seq<byte>, emitted: Emitted, c: Connection, stats: Stats, f: Served) {
    && WellSent(cfg, emitted, f.connection) && f.connection.id == c.id
    && (f.open ==> Live(cfg, data, emitted, f.connection))
    && f.stats.slow == stats.slow && f.stats.accepted == stats.accepted && f.stats.closed == stats.closed
    && f.stats.sentData + DataCount(c.delivered) == stats.sentData + DataCount(f.connection.delivered)
    && c.sent <= f.connection.sent && c.delivered <= f.connection.delivered
  }

  /** Flushing keeps the connection well-sent in every outcome, and live while it stays open. */
  lemma FlushKeeps(cfg: Config, data: seq<byte>, emitted: Emitted, c: Connection, outcome: WriteOutcome, env: Env,
                   stats: Stats)
    requires ValidConfig(cfg) && Live(cfg, data, emitted, c)
    ensures c.pending.Sending? ==> Fits(cfg, c.pending.kind)
    ensures Flushed(cfg, data, emitted, c, stats, Flush(cfg, data, c, outcome, env, stats))
  {
    hide Live, WellSent, Process, DataCount, Selected;
    LiveIsWellSent(cfg, data, emitted, c);
    if c.pending.Sending? {
      SelectedIsWhole(cfg, data, emitted, c);
      var bytes := Selected(cfg, data, c.errorFrame, c.pending.kind);
      if outcome.Wrote? && 0 < outcome.count && c.pending.offset + outcome.count <= |bytes| {
        AdvanceKeeps(cfg, data, emitted, c, outcome.count);
        var next := Advance(c, bytes, outcome.count);
        if next.pending.Idle? && !c.closeAfterFlush {
          var counted := if c.pending.kind.DataFrame? then stats.(sentData := stats.sentData + 1) else stats;
          ProcessKeeps(cfg, data, emitted, next, env, counted);
          LiveIsWellSent(cfg, data, emitted, Process(cfg, next, env, counted).connection);
        }
      }
    }
  }

  lemma LiveIsWellSent(cfg: Config, data: seq<byte>, emitted: Emitted, c: Connection)
    requires Live(cfg, data, emitted, c)
    ensures WellSent(cfg, emitted, c)
  {
  }

  function DataCount(kinds: seq<FrameKind>): nat {
    if kinds == [] then 0
    else DataCount(kinds[..|kinds| - 1]) + (if kinds[|kinds| - 1].DataFrame? then 1 else 0)
  }

  lemma DataCountAppend(kinds: seq<FrameKind>, kind: FrameKind)
    ensures DataCount(kinds + [kind]) == DataCount(kinds) + (if kind.DataFrame? then 1 else 0)
  {
    assert (kinds + [kind])[..|kinds|] == kinds;
  }

  lemma ReadKeeps(cfg: Config, data: seq<byte>, emitted: Emitted, c: Connection, outcomes: seq<ReadOutcome>, env: Env,
                  stats: Stats)
    requires ValidConfig(cfg) && Live(cfg, data, emitted, c)
    ensures var r := ReadConnection(cfg, c, outcomes, env, stats);
            && Live(cfg, data, emitted, r.connection) && r.connection.id == c.id
            && r.connection.sent == c.sent && r.connection.delivered == c.delivered
            && r.stats.slow == stats.slow && r.stats.accepted == stats.accepted && r.stats.closed == stats.closed
            && r.stats.sentData == stats.sentData
  {
    hide Process, Reads, Rising, Transcript;
    if !c.closeAfterFlush {
      ReadsBounded(c.receive, cfg.limit, outcomes);
      var filled := c.(receive := Reads(c.receive, cfg.limit, outcomes).1);
      assert InFlight(filled) == InFlight(c);
      ProcessKeeps(cfg, data, emitted, filled, env, stats);
    }
  }

  /** Commands accepted by a version's parser are the ones its handler knows. */
  lemma AcceptedCommandIsHandled(cfg: Config, c: Connection, buffer: seq<byte>, stats: Stats)
    requires ValidConfig(cfg) && c.pending.Idle?
    requires NextCommand(cfg.version, cfg.limit, buffer).Received?
    requires NextCommand(cfg.version, cfg.limit, buffer).command.Accepted?
    ensures HandleCommand(cfg, c, NextCommand(cfg.version, cfg.limit, buffer).command.request.command, stats).open
  {
    hide Parse;
  }
}

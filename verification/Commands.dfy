/**
  * What a connection does with the bytes it has received, told from the bytes themselves: which
  * frames ask for what, what is obeyed, and how everything else is refused.
  */
module Commands {
  import opened Bytes
  import opened Frames
  import opened Receive
  import opened Connections
  import Crc

  // ----- bytes on the wire -----------------------------------------------------------------

  predicate WholeFrame(v: WireVersion, f: seq<byte>) {
    && |f| >= 16 && f[0] == 0xAA && (v.V2? ==> f[1] < 0x80) && U16(f[2], f[3]) == |f|
    && Crc.ChecksumMatches(f)
  }

  /** The command words; both versions leave the high byte zero. */
  function WireByte(v: WireVersion, command: Command): Option<byte> {
    match (v, command)
    case (V2, Stop) => Some(1)
    case (V2, Start) => Some(2)
    case (V2, Header2) => Some(3)
    case (V2, Configuration1) => Some(4)
    case (V2, Configuration2) => Some(5)
    case (V3, Stop) => Some(0x10)
    case (V3, Start) => Some(0x20)
    case (V3, Capability) => Some(0x40)
    case (V3, StreamConfiguration) => Some(0x60)
    case _ => None
  }

  /** Eighteen bytes that ask the stream `id` for `command`. */
  predicate Asks(v: WireVersion, f: seq<byte>, id: nat, command: Command) {
    && WholeFrame(v, f) && |f| == 18 && f[1] == (if v.V2? then 0x42 else 0xC3)
    && U16(f[4], f[5]) == id
    && f[14] == 0 && Some(f[15]) == WireByte(v, command)
  }

  predicate AsksFor(v: WireVersion, f: seq<byte>, command: Command) {
    |f| == 18 && Asks(v, f, U16(f[4], f[5]), command)
  }

  predicate AsksSomething(v: WireVersion, f: seq<byte>) {
    |f| == 18 && exists command :: AsksFor(v, f, command)
  }

  lemma WholeFrameParses(v: WireVersion, f: seq<byte>)
    ensures Parse(v, f) == Ok(f) <==> WholeFrame(v, f)
    ensures Parse(v, f).Ok? ==> Parse(v, f) == Ok(f)
  {
    hide Crc.ChecksumMatches;
  }

  lemma CommandRead(v: WireVersion, f: Frame)
    requires WholeFrame(v, f)
    ensures ParseCommand(v, f).Ok? <==> AsksSomething(v, f)
    ensures ParseCommand(v, f).Ok? ==> Asks(v, f, ParseCommand(v, f).value.id, ParseCommand(v, f).value.command)
  {
    hide Crc.ChecksumMatches;
    if ParseCommand(v, f).Ok? {
      assert AsksFor(v, f, ParseCommand(v, f).value.command);
    }
    if |f| == 18 && exists command :: AsksFor(v, f, command) {
      var command :| AsksFor(v, f, command);
      assert U16(f[14], f[15]) == f[15];
      assert CommandOfWord(v, f[15]) == Some(command);
    }
  }

  lemma AskedOnce(v: WireVersion, f: seq<byte>, id: nat, command: Command, other: nat, also: Command)
    requires Asks(v, f, id, command) && Asks(v, f, other, also)
    ensures id == other && command == also
  {
    hide Crc.ChecksumMatches;
  }

  /** Every command frame of the encoder asks for what it encodes. */
  lemma EncodedCommandAsks(v: WireVersion, id: nat, command: Command, ts: Timestamp)
    requires id <= U16_MAX && ValidTime(ts) && CommandWord(v, command).Some?
    ensures Asks(v, EncodeCommand(v, id, command, ts), id, command)
  {
    hide Crc.ChecksumMatches, Crc.Seal, Header, EncodeCommand;
    CommandRoundTrip(v, id, command, ts);
    var f := EncodeCommand(v, id, command, ts);
    WholeFrameParses(v, f);
    CommandRead(v, f);
  }

  // ----- taking a frame off the buffer -----------------------------------------------------

  /**
    * Extraction decided by the bytes: wait while the declared size is not there, refuse a size over
    * the limit or a frame that is not whole, and otherwise take exactly that frame.
    */
  lemma ExtractionExactly(v: WireVersion, limit: nat, buffer: seq<byte>)
    ensures var next := NextCommand(v, limit, buffer);
            var n := |buffer|;
            if n < 4 then next == NeedMore
            else
              var size := U16(buffer[2], buffer[3]);
              && (next.NeedMore? <==> n < size <= limit)
              && (next.Malformed? <==> size > limit || (size <= n && !WholeFrame(v, buffer[..size])))
              && (next.Malformed? ==>
                    next.idcode == if n >= 6 then Some(U16(buffer[4], buffer[5])) else None)
              && (next.Received? ==>
                    var f := buffer[..size];
                    && next.size == size && |f| >= 16
                    && next.command.Accepted? == AsksSomething(v, f)
                    && (next.command.Accepted? ==>
                          Asks(v, f, next.command.request.id, next.command.request.command))
                    && (next.command.Rejected? ==> next.command.idcode == U16(f[4], f[5])))
  {
    hide Parse, WholeFrame, Asks, ParseCommand;
    if |buffer| >= 4 {
      var size := DeclaredSize(buffer);
      if size <= |buffer| {
        var f := buffer[..size];
        WholeFrameParses(v, f);
        if Parse(v, f).Ok? {
          WholeIsFrame(v, f);
          CommandRead(v, f);
        }
      }
    }
  }

  lemma WholeIsFrame(v: WireVersion, f: seq<byte>)
    requires WholeFrame(v, f)
    ensures |f| >= 16
  {
  }

  // ----- obeying and refusing --------------------------------------------------------------

  /** The frame that answers a request. */
  function Answer(command: Command): FrameKind
    requires !command.Stop? && !command.Start?
  {
    match command
    case Header2 => HeaderFrame
    case Configuration1 => Configuration1Frame
    case Configuration2 => Configuration2Frame
    case Capability => CapabilityFrame
    case StreamConfiguration => StreamConfigurationFrame
  }

  predicate Listening(c: Connection) {
    c.pending.Idle? && !c.closeAfterFlush
  }

  /** The connection with the frame taken off its buffer and the command's instant recorded. */
  function Recorded(c: Connection, size: nat, now: nat): Connection
    requires size <= |c.receive|
  {
    c.(receive := c.receive[size..], lastValidCommandAt := now,
    firstValidCommandAt := Some(if c.firstValidCommandAt.Some? then c.firstValidCommandAt.value else now))
  }

  /**
    * A command for the connection's own stream is obeyed: stop and start only turn streaming off
    * and on and go on with the rest of the buffer, every request is answered with its frame.
    */
  lemma OwnCommandObeyed(cfg: Config, c: Connection, command: Command, env: Env, stats: Stats)
    requires ValidConfig(cfg) && Listening(c) && |c.receive| >= 18
    requires Asks(cfg.version, c.receive[..18], cfg.streamId, command)
    ensures var d := Recorded(c, 18, env.now);
            Process(cfg, c, env, stats)
            == match command
               case Stop => Process(cfg, d.(streaming := false), env, stats)
               case Start => Process(cfg, d.(streaming := true), env, stats)
               case _ => Served(true, d.(pending := Sending(Answer(command), 0)), stats)
  {
    hide NextCommand, Asks;
    AskedIsTaken(cfg.version, cfg.limit, c.receive, cfg.streamId, command);
    var next := NextCommand(cfg.version, cfg.limit, c.receive);
    AskedWord(cfg.version, c.receive[..18], cfg.streamId, command);
    var d := c.(receive := c.receive[18..]);
    assert RecordValidCommand(d, env.now) == Recorded(c, 18, env.now);
    var turn := Turn(cfg, d, next.command, env, stats);
    assert Process(cfg, c, env, stats) == Process(cfg, turn.connection, env, turn.stats);
  }

  lemma AskedWord(v: WireVersion, f: seq<byte>, id: nat, command: Command)
    requires Asks(v, f, id, command)
    ensures WireByte(v, command).Some?
  {
  }

  /** A command at the front of the buffer is the one extracted. */
  lemma AskedIsTaken(v: WireVersion, limit: nat, buffer: seq<byte>, id: nat, command: Command)
    requires limit >= 18 && |buffer| >= 18 && Asks(v, buffer[..18], id, command)
    ensures NextCommand(v, limit, buffer) == Received(Accepted(CommandRequest(id, command)), 18)
  {
    hide NextCommand, Asks, WholeFrame, AsksSomething;
    ExtractionExactly(v, limit, buffer);
    AskedFrame(v, buffer, id, command);
    var next := NextCommand(v, limit, buffer);
    AskedOnce(v, buffer[..18], id, command, next.command.request.id, next.command.request.command);
  }

  /** What the first eighteen bytes say is what the declared size says. */
  lemma AskedFrame(v: WireVersion, buffer: seq<byte>, id: nat, command: Command)
    requires |buffer| >= 18 && Asks(v, buffer[..18], id, command)
    ensures U16(buffer[2], buffer[3]) == 18 && WholeFrame(v, buffer[..18]) && AsksSomething(v, buffer[..18])
  {
    hide Crc.ChecksumMatches;
    assert AsksFor(v, buffer[..18], command);
  }

  /** The twenty bytes of an error response. */
  predicate SaysError(f: seq<byte>, id: nat, code: nat, ts: Timestamp) {
    && |f| == 20 && WholeFrame(V3, f) && f[1] == 0xF3 && U16(f[4], f[5]) == id
    && TimeOf(f) == ts && f[10] == 0
    && U16(f[14], f[15]) == code && f[16] == 0 && f[17] == 0
  }

  lemma ErrorResponseSays(id: nat, code: nat, ts: Timestamp)
    requires id <= U16_MAX && code <= U16_MAX && ValidTime(ts)
    ensures SaysError(ErrorResponse(id, code, ts), id, code, ts)
  {
    hide Crc.ChecksumMatches, Crc.Seal, Header, EncodeFrame;
    var body := PutU16(code) + PutU16(0);
    EncodedFrameParses(V3, V3_ERROR_RESPONSE, id, ts, body);
    var f := ErrorResponse(id, code, ts);
    U16RoundTrip(code);
    assert f[14] == Body(f)[0] && f[15] == Body(f)[1] && f[16] == Body(f)[2] && f[17] == Body(f)[3];
  }

  /**
    * A refusal: nothing is sent, no valid command is recorded and `size` bytes are taken. Version 2
    * closes at once; version 3 stops streaming and closes once its error response is sent.
    */
  predicate Refused(cfg: Config, c: Connection, r: Served, size: nat, id: nat, code: nat, env: Env)
    requires size <= |c.receive|
  {
    var d := r.connection;
    && d.receive == c.receive[size..]
    && d.firstValidCommandAt == c.firstValidCommandAt && d.lastValidCommandAt == c.lastValidCommandAt
    && d.id == c.id && d.acceptedAt == c.acceptedAt && d.sent == c.sent && d.delivered == c.delivered
    && match cfg.version
       case V2 => !r.open && d.pending.Idle?
       case V3 =>
         && r.open && d.pending == Sending(ErrorFrame, 0) && d.closeAfterFlush && !d.streaming
         && SaysError(d.errorFrame, id, code, env.errorTime)
  }

  lemma RejectRefuses(cfg: Config, c: Connection, size: nat, id: nat, code: nat, env: Env, stats: Stats)
    requires c.pending.Idle? && size <= |c.receive| && id <= U16_MAX && code <= U16_MAX && ValidTime(env.errorTime)
    ensures var r := Reject(cfg, c.(receive := c.receive[size..]), id, code, env, stats);
            Refused(cfg, c, r, size, id, code, env) && (r.open ==> Process(cfg, r.connection, env, stats) == r)
  {
    hide SaysError, ErrorResponse;
    ErrorResponseSays(id, code, env.errorTime);
  }

  /**
    * A command for another stream is refused with code 2: it counts as malformed and changes
    * neither streaming nor any deadline.
    */
  lemma OtherStreamRefused(cfg: Config, c: Connection, id: nat, command: Command, env: Env, stats: Stats)
    requires ValidConfig(cfg) && Listening(c) && |c.receive| >= 18 && ValidTime(env.errorTime)
    requires Asks(cfg.version, c.receive[..18], id, command) && id != cfg.streamId
    ensures var r := Process(cfg, c, env, stats);
            && r.stats == stats.(malformed := stats.malformed + 1)
            && Refused(cfg, c, r, 18, id, 2, env)
  {
    hide NextCommand, Asks, Refused, Reject, HandleCommand;
    AskedIsTaken(cfg.version, cfg.limit, c.receive, id, command);
    AskedId(cfg.version, c.receive[..18], id, command);
    RejectRefuses(cfg, c, 18, id, 2, env, stats.(malformed := stats.malformed + 1));
  }

  lemma AskedId(v: WireVersion, f: seq<byte>, id: nat, command: Command)
    requires Asks(v, f, id, command)
    ensures id <= U16_MAX
  {
  }

  /** A whole frame that is no command of this version is refused with code 1 and counts as unsupported. */
  lemma UnknownCommandRefused(cfg: Config, c: Connection, size: nat, env: Env, stats: Stats)
    requires ValidConfig(cfg) && Listening(c) && 4 <= size <= |c.receive| && size <= cfg.limit
    requires WholeFrame(cfg.version, c.receive[..size]) && !AsksSomething(cfg.version, c.receive[..size])
    requires ValidTime(env.errorTime)
    ensures var r := Process(cfg, c, env, stats);
            && |c.receive| >= 6
            && r.stats == stats.(unsupported := stats.unsupported + 1)
            && Refused(cfg, c, r, size, U16(c.receive[4], c.receive[5]), 1, env)
  {
    hide NextCommand, Refused, Reject, AsksSomething, WholeFrame;
    SizeOfWhole(cfg.version, c.receive, size);
    ExtractionExactly(cfg.version, cfg.limit, c.receive);
    RejectRefuses(cfg, c, size, U16(c.receive[4], c.receive[5]), 1, env,
                  stats.(unsupported := stats.unsupported + 1));
  }

  lemma SizeOfWhole(v: WireVersion, buffer: seq<byte>, size: nat)
    requires size <= |buffer| && WholeFrame(v, buffer[..size])
    ensures size >= 16 && U16(buffer[2], buffer[3]) == size
  {
  }

  /**
    * A prefix that can never become a whole frame is refused with code 1, under the id in its bytes
    * if they have arrived and the connection's own otherwise; it stays in the buffer.
    */
  lemma BrokenPrefixRefused(cfg: Config, c: Connection, env: Env, stats: Stats)
    requires ValidConfig(cfg) && Listening(c) && |c.receive| >= 4 && ValidTime(env.errorTime)
    requires var size := U16(c.receive[2], c.receive[3]);
             size > cfg.limit || (size <= |c.receive| && !WholeFrame(cfg.version, c.receive[..size]))
    ensures var r := Process(cfg, c, env, stats);
            var id := if |c.receive| >= 6 then U16(c.receive[4], c.receive[5]) else cfg.streamId;
            && r.stats == stats.(malformed := stats.malformed + 1)
            && Refused(cfg, c, r, 0, id, 1, env)
  {
    hide NextCommand, Refused, Reject, AsksSomething, WholeFrame;
    ExtractionExactly(cfg.version, cfg.limit, c.receive);
    var id := if |c.receive| >= 6 then U16(c.receive[4], c.receive[5]) else cfg.streamId;
    assert c.(receive := c.receive[0..]) == c;
    RejectRefuses(cfg, c, 0, id, 1, env, stats.(malformed := stats.malformed + 1));
  }

  /** Otherwise nothing happens: part of a frame waits, and so does everything behind a pending frame. */
  lemma NothingToDo(cfg: Config, c: Connection, env: Env, stats: Stats)
    requires Listening(c) ==>
               |c.receive| < 4 || |c.receive| < U16(c.receive[2], c.receive[3]) <= cfg.limit
    ensures Process(cfg, c, env, stats) == Served(true, c, stats)
  {
    hide NextCommand;
    ExtractionExactly(cfg.version, cfg.limit, c.receive);
  }

  // ----- reading and writing ---------------------------------------------------------------

  function Joined(chunks: seq<seq<byte>>): seq<byte> {
    if chunks == [] then [] else chunks[0] + Joined(chunks[1..])
  }

  function Reported(chunks: seq<seq<byte>>): seq<ReadOutcome> {
    if chunks == [] then [] else [Data(chunks[0])] + Reported(chunks[1..])
  }

  /** Any number of reads, then one that brings no bytes: the buffer holds everything that came. */
  lemma {:induction false} ReadsExactly(buffer: seq<byte>, limit: nat, chunks: seq<seq<byte>>, last: ReadOutcome,
                                        rest: seq<ReadOutcome>)
    requires |buffer| + |Joined(chunks)| < limit && !last.Data?
    ensures var (result, filled) := Reads(buffer, limit, Reported(chunks) + [last] + rest);
            && filled == buffer + Joined(chunks)
            && result == match last
                         case ReadError => Failed
                         case EndOfStream => if filled == [] then Closed else ClosedWithBufferedData
                         case _ => Open
    decreases |chunks|
  {
    var outcomes := Reported(chunks) + [last] + rest;
    if chunks == [] {
      assert outcomes[0] == last;
      assert buffer + Joined(chunks) == buffer;
    } else {
      assert outcomes[0] == Data(chunks[0]) && outcomes[1..] == Reported(chunks[1..]) + [last] + rest;
      assert buffer + chunks[0] + Joined(chunks[1..]) == buffer + Joined(chunks);
      ReadsExactly(buffer + chunks[0], limit, chunks[1..], last, rest);
    }
  }

  /** Reads that would overfill the buffer fill it to its limit and go no further. */
  lemma {:induction false} ReadsOverfull(buffer: seq<byte>, limit: nat, chunks: seq<seq<byte>>, rest: seq<ReadOutcome>)
    requires |buffer| <= limit <= |buffer| + |Joined(chunks)|
    ensures Reads(buffer, limit, Reported(chunks) + rest) == (Open, (buffer + Joined(chunks))[..limit])
    decreases |chunks|
  {
    var outcomes := Reported(chunks) + rest;
    if chunks == [] || |buffer| == limit {
      assert (buffer + Joined(chunks))[..limit] == buffer;
    } else {
      assert outcomes[0] == Data(chunks[0]) && outcomes[1..] == Reported(chunks[1..]) + rest;
      var taken := Fitting(buffer, limit, chunks[0]);
      if |buffer| + |chunks[0]| <= limit {
        assert buffer + chunks[0] + Joined(chunks[1..]) == buffer + Joined(chunks);
        ReadsOverfull(buffer + taken, limit, chunks[1..], rest);
      } else {
        assert (buffer + Joined(chunks))[..limit] == buffer + taken;
      }
    }
  }

  /**
    * What a readable event comes to: nothing while the connection waits to close; otherwise the
    * bytes join the buffer and are served. An error closes and counts as malformed, the end of the
    * stream closes too unless an error response is still to be sent.
    */
  lemma ReadServed(cfg: Config, c: Connection, chunks: seq<seq<byte>>, last: ReadOutcome, rest: seq<ReadOutcome>,
                   env: Env, stats: Stats)
    requires |c.receive| + |Joined(chunks)| < cfg.limit && !last.Data?
    ensures var r := ReadConnection(cfg, c, Reported(chunks) + [last] + rest, env, stats);
            var d := c.(receive := c.receive + Joined(chunks));
            var p := Process(cfg, d, env, stats);
            if c.closeAfterFlush then r == Served(true, c, stats)
            else match last
                 case ReadError => r == Served(false, d, stats.(malformed := stats.malformed + 1))
                 case EndOfStream =>
                   if d.receive == [] then r == Served(false, d, stats)
                   else
                     && r.connection == p.connection && r.stats == p.stats
                     && (r.open <==> p.open && p.connection.closeAfterFlush && p.connection.pending.Sending?)
                 case _ => r == p
  {
    hide Process, Reads;
    ReadsExactly(c.receive, cfg.limit, chunks, last, rest);
  }

  /**
    * What one write on a pending frame comes to: the next bytes of the whole frame are sent, or
    * none. A failed or empty write closes; a completed error response closes too; any other
    * completed frame lets the buffered commands be served.
    */
  lemma WriteServed(cfg: Config, data: seq<byte>, emitted: Emitted, c: Connection, outcome: WriteOutcome, env: Env,
                    stats: Stats)
    requires ValidConfig(cfg) && Live(cfg, data, emitted, c) && c.pending.Sending?
    ensures Known(cfg, emitted, c.pending.kind)
    ensures var whole := Whole(cfg, emitted, c.errorFrame, c.pending.kind);
            var kind, from := c.pending.kind, c.pending.offset;
            var r := Flush(cfg, data, c, outcome, env, stats);
            match outcome
            case WriteBlocked => r == Served(true, c, stats)
            case WriteFailed => r == Served(false, c, stats)
            case Wrote(n) =>
              && (n == 0 ==> r == Served(false, c, stats))
              && (0 < n && from + n < |whole| ==>
                    r == Served(true, c.(sent := c.sent + whole[from..from + n], pending := Sending(kind, from + n)),
                                stats))
              && (0 < n && from + n == |whole| ==>
                    var done := c.(sent := c.sent + whole[from..], pending := Idle, delivered := c.delivered + [kind]);
                    var counted := stats.(sentData := stats.sentData + if kind.DataFrame? then 1 else 0);
                    r == if kind.ErrorFrame? then Served(false, done, counted) else Process(cfg, done, env, counted))
  {
    hide Process, WellSent;
    SelectedIsWhole(cfg, data, emitted, c);
    var whole := Whole(cfg, emitted, c.errorFrame, c.pending.kind);
    assert whole[c.pending.offset..|whole|] == whole[c.pending.offset..];
  }
}

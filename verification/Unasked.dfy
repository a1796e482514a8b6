/**
  * Nothing unasked: a client whose bytes do not begin with a command for the stream of its endpoint
  * gets no data and no answer other than one error response, in every run of the server.
  */
module Unasked {
  import opened Bytes
  import opened Frames
  import opened Receive
  import opened Connections
  import opened Endpoints
  import opened Commands
  import Server
  import ServerHistory
  import Tokens

  predicate BeginsWith(cfg: Config, stream: seq<byte>, command: Command) {
    |stream| >= 18 && Asks(cfg.version, stream[..18], cfg.streamId, command)
  }

  /** The stream begins with a whole command for the endpoint's own stream. */
  predicate Begins(cfg: Config, stream: seq<byte>) {
    exists command :: BeginsWith(cfg, stream, command)
  }

  lemma BeginningStays(cfg: Config, stream: seq<byte>, more: seq<byte>)
    requires Begins(cfg, stream)
    ensures Begins(cfg, stream + more)
  {
    hide Asks;
    var command :| BeginsWith(cfg, stream, command);
    assert (stream + more)[..18] == stream[..18];
    assert BeginsWith(cfg, stream + more, command);
  }

  /** It does not stream, no valid command is on record, and at most an error response was sent. */
  predicate Mute(c: Connection) {
    !c.streaming && c.firstValidCommandAt.None? && (c.delivered == [] || c.delivered == [ErrorFrame])
  }

  /** Still open: either all its bytes are still in the buffer, or its error response is pending. */
  predicate Unheard(c: Connection, fed: seq<byte>) {
    && !c.streaming && c.firstValidCommandAt.None? && c.delivered == []
    && match c.pending
       case Idle => !c.closeAfterFlush && c.receive == fed
       case Sending(kind, _) => kind.ErrorFrame? && c.closeAfterFlush
  }

  // ----- one connection --------------------------------------------------------------------

  lemma UnaskedProcess(cfg: Config, c: Connection, env: Env, stats: Stats)
    requires ValidConfig(cfg) && Unheard(c, c.receive) && c.pending.Idle? && !Begins(cfg, c.receive)
    ensures var p := Process(cfg, c, env, stats); Mute(p.connection) && (p.open ==> Unheard(p.connection, c.receive))
  {
    hide NextCommand, Asks, AsksSomething, WholeFrame, ErrorResponse;
    ExtractionExactly(cfg.version, cfg.limit, c.receive);
    var next := NextCommand(cfg.version, cfg.limit, c.receive);
    if next.Received? && next.command.Accepted? {
      var request := next.command.request;
      AskedSize(cfg.version, c.receive[..next.size], request.id, request.command);
      assert request.id == cfg.streamId ==> BeginsWith(cfg, c.receive, request.command);
    }
  }

  lemma AskedSize(v: WireVersion, f: seq<byte>, id: nat, command: Command)
    requires Asks(v, f, id, command)
    ensures |f| == 18
  {
  }

  /** The bytes that a readable event puts into the buffer. */
  function Taken(cfg: Config, c: Connection, arrivals: seq<ReadOutcome>): seq<byte> {
    var filled := Reads(c.receive, cfg.limit, arrivals).1;
    if c.closeAfterFlush || |filled| < |c.receive| then [] else filled[|c.receive|..]
  }

  lemma {:induction false} ReadsExtend(buffer: seq<byte>, limit: nat, outcomes: seq<ReadOutcome>)
    ensures buffer <= Reads(buffer, limit, outcomes).1
    decreases |outcomes|
  {
    if outcomes != [] && |buffer| < limit && outcomes[0].Data? {
      ReadsExtend(buffer + Fitting(buffer, limit, outcomes[0].bytes), limit, outcomes[1..]);
    }
  }

  lemma UnaskedRead(cfg: Config, c: Connection, fed: seq<byte>, arrivals: seq<ReadOutcome>, env: Env, stats: Stats)
    requires ValidConfig(cfg) && Unheard(c, fed) && !Begins(cfg, fed + Taken(cfg, c, arrivals))
    ensures var r := ReadConnection(cfg, c, arrivals, env, stats);
            Mute(r.connection) && (r.open ==> Unheard(r.connection, fed + Taken(cfg, c, arrivals)))
  {
    hide Process, Reads, Begins;
    ReadsExtend(c.receive, cfg.limit, arrivals);
    var filled := Reads(c.receive, cfg.limit, arrivals).1;
    if !c.closeAfterFlush {
      assert filled == fed + Taken(cfg, c, arrivals);
      UnaskedProcess(cfg, c.(receive := filled), env, stats);
    } else {
      assert fed + Taken(cfg, c, arrivals) == fed;
    }
  }

  lemma UnaskedFlush(cfg: Config, data: seq<byte>, c: Connection, fed: seq<byte>, outcome: WriteOutcome, env: Env,
                     stats: Stats)
    requires Unheard(c, fed) && (c.pending.Sending? ==> Fits(cfg, c.pending.kind))
    ensures var r := Flush(cfg, data, c, outcome, env, stats);
            Mute(r.connection) && (r.open ==> Unheard(r.connection, fed))
  {
    hide Process;
  }

  lemma {:induction false} ProcessId(cfg: Config, c: Connection, env: Env, stats: Stats)
    ensures Process(cfg, c, env, stats).connection.id == c.id
    decreases |c.receive|
  {
    hide NextCommand, Turn;
    if c.pending.Idle? && !c.closeAfterFlush && NextCommand(cfg.version, cfg.limit, c.receive).Received? {
      var next := NextCommand(cfg.version, cfg.limit, c.receive);
      var turn := Turn(cfg, c.(receive := c.receive[next.size..]), next.command, env, stats);
      if turn.open {
        ProcessId(cfg, turn.connection, env, turn.stats);
      }
    }
  }

  lemma ReadId(cfg: Config, c: Connection, arrivals: seq<ReadOutcome>, env: Env, stats: Stats)
    ensures ReadConnection(cfg, c, arrivals, env, stats).connection.id == c.id
  {
    hide Process, Reads;
    ProcessId(cfg, c.(receive := Reads(c.receive, cfg.limit, arrivals).1), env, stats);
  }

  lemma FlushId(cfg: Config, data: seq<byte>, c: Connection, outcome: WriteOutcome, env: Env, stats: Stats)
    requires c.pending.Sending? ==> Fits(cfg, c.pending.kind)
    ensures Flush(cfg, data, c, outcome, env, stats).connection.id == c.id
  {
    hide Process, Selected;
    if c.pending.Sending? && outcome.Wrote? {
      var bytes := Selected(cfg, data, c.errorFrame, c.pending.kind);
      if 0 < outcome.count && c.pending.offset + outcome.count <= |bytes| {
        var next := Advance(c, bytes, outcome.count);
        ProcessId(cfg, next, env, stats);
        ProcessId(cfg, next, env, stats.(sentData := stats.sentData + 1));
      }
    }
  }

  // ----- an endpoint -----------------------------------------------------------------------

  /** Every connection that began with nothing of its own is mute, and unheard while it is open. */
  ghost predicate Silent(e: Endpoint, fed: nat -> seq<byte>) {
    && (forall i :: 0 <= i < |e.slots| ==> SlotSilent(e.cfg, e.slots[i], fed))
    && (forall k :: 0 <= k < |e.retired| ==> RetiredSilent(e.cfg, e.retired[k], fed))
  }

  ghost predicate SlotSilent(cfg: Config, slot: Option<Connection>, fed: nat -> seq<byte>) {
    slot.Some? && !Begins(cfg, fed(slot.value.id)) ==> Unheard(slot.value, fed(slot.value.id))
  }

  ghost predicate RetiredSilent(cfg: Config, c: Connection, fed: nat -> seq<byte>) {
    !Begins(cfg, fed(c.id)) ==> Mute(c)
  }

  lemma CloseSilent(e: Endpoint, slot: nat, id: nat, stats: Stats, fed: nat -> seq<byte>)
    requires slot < |e.slots| && Silent(e, fed)
    ensures Silent(Close(e, slot, id, stats).endpoint, fed)
  {
    hide Begins;
    assert SlotSilent(e.cfg, e.slots[slot], fed);
  }

  lemma {:induction false} ExpireSilent(e: Endpoint, now: nat, stats: Stats, n: nat, fed: nat -> seq<byte>)
    requires n <= |e.slots| && Silent(e, fed)
    ensures Silent(Expire(e, now, stats, n).endpoint, fed)
  {
    hide Silent, Close;
    if n > 0 {
      ExpireSilent(e, now, stats, n - 1, fed);
      var s := Expire(e, now, stats, n - 1);
      if s.endpoint.slots[n - 1].Some? {
        CloseSilent(s.endpoint, n - 1, s.endpoint.slots[n - 1].value.id, s.stats, fed);
      }
    }
  }

  lemma {:induction false} DisconnectSilent(e: Endpoint, ids: set<nat>, stats: Stats, n: nat, fed: nat -> seq<byte>)
    requires n <= |e.slots| && Silent(e, fed)
    ensures Silent(Disconnect(e, ids, stats, n).endpoint, fed)
  {
    hide Silent, Close;
    if n > 0 {
      DisconnectSilent(e, ids, stats, n - 1, fed);
      var s := Disconnect(e, ids, stats, n - 1);
      if s.endpoint.slots[n - 1].Some? {
        CloseSilent(s.endpoint, n - 1, s.endpoint.slots[n - 1].value.id, s.stats, fed);
      }
    }
  }

  lemma {:induction false} EvictSilent(e: Endpoint, stats: Stats, n: nat, fed: nat -> seq<byte>)
    requires n <= |e.slots| && Silent(e, fed)
    ensures Silent(Evict(e, stats, n).endpoint, fed)
  {
    hide Silent, Close;
    if n > 0 {
      EvictSilent(e, stats, n - 1, fed);
      var s := Evict(e, stats, n - 1);
      if s.endpoint.slots[n - 1].Some? {
        CloseSilent(s.endpoint, n - 1, s.endpoint.slots[n - 1].value.id, s.stats.(slow := s.stats.slow + 1), fed);
      }
    }
  }

  /** One slot takes a step whose outcome is mute, and unheard if it stays open. */
  lemma SettleSilent(e: Endpoint, slot: nat, served: Served, fed: nat -> seq<byte>)
    requires slot < |e.slots|
    requires forall i :: 0 <= i < |e.slots| && i != slot ==> SlotSilent(e.cfg, e.slots[i], fed)
    requires forall k :: 0 <= k < |e.retired| ==> RetiredSilent(e.cfg, e.retired[k], fed)
    requires var c := served.connection;
             !Begins(e.cfg, fed(c.id)) ==> Mute(c) && (served.open ==> Unheard(c, fed(c.id)))
    ensures Silent(Settle(e, slot, served).endpoint, fed)
  {
    hide Begins, Mute, Unheard;
  }

  /** Data goes only to streaming connections, which have been heard. */
  lemma {:induction false} SendSilent(e: Endpoint, sample: nat, writes: seq<WriteOutcome>, env: Env, stats: Stats,
                                      n: nat, fed: nat -> seq<byte>)
    requires n <= |e.slots| <= |writes| && Silent(e, fed)
    ensures Silent(Send(e, sample, writes, env, stats, n).endpoint, fed)
    ensures Send(e, sample, writes, env, stats, n).endpoint.cfg == e.cfg
  {
    hide Begins, Mute, Flush, Settle;
    if n > 0 {
      SendSilent(e, sample, writes, env, stats, n - 1, fed);
      var s := Send(e, sample, writes, env, stats, n - 1);
      var slot := s.endpoint.slots[n - 1];
      if slot.Some? && slot.value.streaming {
        assert SlotSilent(e.cfg, slot, fed);
        var queued := slot.value.(pending := Sending(DataFrame(sample), 0));
        FlushId(e.cfg, s.endpoint.data, queued, writes[n - 1], env, s.stats);
        SettleSilent(s.endpoint, n - 1, Flush(e.cfg, s.endpoint.data, queued, writes[n - 1], env, s.stats), fed);
        SettleConfig(s.endpoint, n - 1, Flush(e.cfg, s.endpoint.data, queued, writes[n - 1], env, s.stats));
      }
    }
  }

  lemma SettleConfig(e: Endpoint, slot: nat, served: Served)
    requires slot < |e.slots|
    ensures Settle(e, slot, served).endpoint.cfg == e.cfg
  {
  }

  lemma EmitSilent(e: Endpoint, tick: Tick, env: Env, stats: Stats, fed: nat -> seq<byte>)
    requires |e.slots| <= |tick.writes| && Silent(e, fed)
    ensures Silent(Emit(e, tick, env, stats).endpoint, fed)
  {
    hide Send, Evict, Disconnect, SlotSilent, RetiredSilent;
    var n := |e.slots|;
    DisconnectSilent(e, tick.disconnect, stats, n, fed);
    var d := Disconnect(e, tick.disconnect, stats, n);
    EvictSilent(d.endpoint, d.stats, n, fed);
    var v := Evict(d.endpoint, d.stats, n);
    SendSilent(Rewrite(v.endpoint, tick.sample, tick.frame), tick.sample, tick.writes, env, v.stats, n, fed);
  }

  lemma {:induction false} AcceptSilent(a: Accepting, count: nat, index: nat, sockets: seq<bool>, now: nat,
                                        fed: nat -> seq<byte>)
    requires Silent(a.endpoint, fed) && forall id :: id >= a.nextId ==> fed(id) == []
    ensures Silent(AcceptAll(a, count, index, sockets, now).endpoint, fed)
    decreases |sockets|
  {
    hide Begins, Tokens.ConnectionToken;
    if sockets != [] {
      AcceptSilent(AcceptOne(a, count, index, sockets[0], now), count, index, sockets[1..], now, fed);
    }
  }

  // ----- what was received -----------------------------------------------------------------

  /** The bytes an event puts into the buffer of connection `id` of endpoint `x`. */
  function Arriving(s: Server.Server, event: Server.Event, x: nat, id: nat): seq<byte> {
    if !event.Dispatch? || !event.ready.readable then []
    else match Tokens.EventTarget(event.ready.token, |s.endpoints|)
         case Some(Connection(i, slot, who)) =>
           if i == x && who == id && x < |s.endpoints| && slot < Tokens.SLOTS && slot < |s.endpoints[x].slots|
              && Occupied(s.endpoints[x], slot, id)
           then Taken(s.endpoints[x].cfg, s.endpoints[x].slots[slot].value, event.ready.arrivals)
           else []
         case _ => []
  }

  /** Everything connection `id` of endpoint `x` has been sent in the first `k` events of a run. */
  function Fed(states: seq<Server.Server>, events: seq<Server.Event>, x: nat, k: nat, id: nat): seq<byte>
    requires k <= |events| && |states| == |events| + 1
    decreases k
  {
    if k == 0 then []
    else Fed(states, events, x, k - 1, id) + Arriving(states[k - 1], events[k - 1], x, id)
  }

  function FedTo(states: seq<Server.Server>, events: seq<Server.Event>, x: nat, k: nat): nat -> seq<byte>
    requires k <= |events| && |states| == |events| + 1
  {
    id => Fed(states, events, x, k, id)
  }

  // ----- one event -------------------------------------------------------------------------

  /** An event adds to what was received. */
  ghost predicate Grows(s: Server.Server, event: Server.Event, x: nat, fed: nat -> seq<byte>, more: nat -> seq<byte>) {
    forall id :: more(id) == fed(id) + Arriving(s, event, x, id)
  }

  lemma SilentSame(e: Endpoint, fed: nat -> seq<byte>, more: nat -> seq<byte>)
    requires Silent(e, fed) && forall id :: more(id) == fed(id)
    ensures Silent(e, more)
  {
    hide Begins, Unheard, Mute;
    forall i | 0 <= i < |e.slots|
      ensures SlotSilent(e.cfg, e.slots[i], more)
    {
      assert SlotSilent(e.cfg, e.slots[i], fed);
    }
    forall k | 0 <= k < |e.retired|
      ensures RetiredSilent(e.cfg, e.retired[k], more)
    {
      assert RetiredSilent(e.cfg, e.retired[k], fed);
    }
  }

  /** A readable event adds to what its own connection was sent, and to nothing else. */
  lemma ReadableSilent(e: Endpoint, slot: nat, id: nat, arrivals: seq<ReadOutcome>, env: Env, stats: Stats,
                       nextId: nat, fed: nat -> seq<byte>, more: nat -> seq<byte>)
    requires ValidConfig(e.cfg) && Server.FreshIds(e, nextId) && slot < |e.slots| && Silent(e, fed)
    requires Occupied(e, slot, id)
    requires more(id) == fed(id) + Taken(e.cfg, e.slots[slot].value, arrivals)
    requires forall j :: j != id ==> more(j) == fed(j)
    ensures Silent(Readable(e, slot, id, arrivals, env, stats).endpoint, more)
  {
    hide Begins, Unheard, Mute, ReadConnection, Taken, Settle;
    var c := e.slots[slot].value;
    var r := ReadConnection(e.cfg, c, arrivals, env, stats);
    ReadId(e.cfg, c, arrivals, env, stats);
    assert SlotSilent(e.cfg, e.slots[slot], fed);
    if Begins(e.cfg, fed(id)) {
      BeginningStays(e.cfg, fed(id), Taken(e.cfg, c, arrivals));
    } else if !Begins(e.cfg, more(id)) {
      UnaskedRead(e.cfg, c, fed(id), arrivals, env, stats);
    }
    forall i | 0 <= i < |e.slots| && i != slot
      ensures SlotSilent(e.cfg, e.slots[i], more)
    {
      assert SlotSilent(e.cfg, e.slots[i], fed);
      assert e.slots[i].Some? ==> e.slots[i].value.id != id;
    }
    forall k | 0 <= k < |e.retired|
      ensures RetiredSilent(e.cfg, e.retired[k], more)
    {
      assert RetiredSilent(e.cfg, e.retired[k], fed);
      assert e.retired[k].id != id;
    }
    SettleSilent(e, slot, r, more);
  }

  lemma WritableSilent(e: Endpoint, slot: nat, id: nat, outcome: WriteOutcome, env: Env, stats: Stats,
                       fed: nat -> seq<byte>)
    requires slot < |e.slots| && Flushable(e, slot) && Silent(e, fed)
    ensures Silent(Writable(e, slot, id, outcome, env, stats).endpoint, fed)
  {
    hide Begins, Unheard, Mute, Flush, Settle;
    if Occupied(e, slot, id) {
      var c := e.slots[slot].value;
      assert SlotSilent(e.cfg, e.slots[slot], fed);
      FlushId(e.cfg, e.data, c, outcome, env, stats);
      if !Begins(e.cfg, fed(id)) {
        UnaskedFlush(e.cfg, e.data, c, fed(id), outcome, env, stats);
      }
      SettleSilent(e, slot, Flush(e.cfg, e.data, c, outcome, env, stats), fed);
    }
  }

  lemma DispatchConnectionSilent(e: Endpoint, slot: nat, r: Server.Ready, id: nat, stats: Stats, nextId: nat,
                                 fed: nat -> seq<byte>, more: nat -> seq<byte>)
    requires Endpoints.Valid(e) && Server.FreshIds(e, nextId) && slot < |e.slots| && Silent(e, fed)
    requires more(id) == fed(id) + (if r.readable && Occupied(e, slot, id)
                                    then Taken(e.cfg, e.slots[slot].value, r.arrivals) else [])
    requires forall j :: j != id ==> more(j) == fed(j)
    ensures Silent(Server.DispatchConnection(e, slot, r, id, stats).endpoint, more)
  {
    hide Endpoints.Valid, Server.FreshIds, Silent, Taken, Readable, Writable;
    Server.ValidHasConfig(e);
    var first := if r.readable then Readable(e, slot, id, r.arrivals, r.env, stats) else Endpoints.Step(e, stats);
    if r.readable && Occupied(e, slot, id) {
      ReadableSilent(e, slot, id, r.arrivals, r.env, stats, nextId, fed, more);
    } else {
      SilentSame(e, fed, more);
      StaleRead(e, slot, id, r.arrivals, r.env, stats);
    }
    ReadableKeeps(e, slot, id, r.arrivals, r.env, stats);
    ValidIsFlushable(first.endpoint, slot);
    WritableSilent(first.endpoint, slot, id, r.outcome, r.env, first.stats, more);
  }

  lemma StaleRead(e: Endpoint, slot: nat, id: nat, arrivals: seq<ReadOutcome>, env: Env, stats: Stats)
    requires slot < |e.slots|
    ensures !Occupied(e, slot, id) ==> Readable(e, slot, id, arrivals, env, stats) == Endpoints.Step(e, stats)
  {
  }

  lemma DispatchSilent(s: Server.Server, r: Server.Ready, x: nat, fed: nat -> seq<byte>, more: nat -> seq<byte>)
    requires Server.Valid(s) && x < |s.endpoints| && Silent(s.endpoints[x], fed)
    requires forall id :: id >= s.nextId ==> fed(id) == []
    requires Grows(s, Server.Dispatch(r), x, fed, more)
    ensures Silent(Server.DispatchEvent(s, r).endpoints[x], more)
    ensures s.nextId <= Server.DispatchEvent(s, r).nextId
  {
    hide Silent, Endpoints.Valid, Server.FreshIds, Taken, Server.DispatchConnection, AcceptAll, Server.TotalLive,
      Tokens.EventTarget, LiveCount;
    assert Server.EndpointOk(s, x);
    var target := Tokens.EventTarget(r.token, |s.endpoints|);
    if target.Some? && target.value.Connection? && target.value.endpoint == x && target.value.slot < Tokens.SLOTS {
      DispatchConnectionSilent(s.endpoints[x], target.value.slot, r, target.value.id, s.stats, s.nextId, fed, more);
    } else {
      SilentSame(s.endpoints[x], fed, more);
      if target.Some? && target.value.Listener? && target.value.endpoint < |s.endpoints| {
        var i := target.value.endpoint;
        assert Server.EndpointOk(s, i);
        var a := Accepting(s.endpoints[i], s.nextId, s.stats);
        AcceptAllKeeps(a, |s.endpoints|, i, r.sockets, r.env.now);
        if i == x {
          AcceptSilent(a, |s.endpoints|, i, r.sockets, r.env.now, more);
        }
      }
    }
  }

  lemma NextSilent(s: Server.Server, event: Server.Event, x: nat, fed: nat -> seq<byte>, more: nat -> seq<byte>)
    requires Server.Valid(s) && Server.Enabled(s, event) && x < |s.endpoints| && Silent(s.endpoints[x], fed)
    requires forall id :: id >= s.nextId ==> fed(id) == []
    requires Grows(s, event, x, fed, more)
    ensures |Server.Next(s, event).endpoints| == |s.endpoints| && s.nextId <= Server.Next(s, event).nextId
    ensures Silent(Server.Next(s, event).endpoints[x], more)
    ensures forall id :: id >= Server.Next(s, event).nextId ==> more(id) == []
  {
    hide Silent, Server.Valid, Server.DispatchEvent, Server.ExpireAll, Server.EmitAll, Taken;
    Server.ValidSlots(s);
    Server.NextRemembers(s, event);
    UnissuedHearNothing(s, event, x);
    match event {
      case Dispatch(r) => DispatchSilent(s, r, x, fed, more);
      case Deadlines(now) =>
        SilentSame(s.endpoints[x], fed, more);
        Server.ExpireAllKeeps(s, now, |s.endpoints|);
        var seen := ServerHistory.ExpireAllOn(s, now, |s.endpoints|, x);
        ExpireSilent(s.endpoints[x], now, seen, |s.endpoints[x].slots|, more);
      case Boundary(sample, ticks, env) =>
        SilentSame(s.endpoints[x], fed, more);
        Server.EmitAllKeeps(s, sample, ticks, env, |s.endpoints|);
        var seen := ServerHistory.EmitAllOn(s, ticks, env, |s.endpoints|, x);
        EmitSilent(s.endpoints[x], ticks[x], env, seen, more);
    }
  }

  /** An id that was not given out yet has no connection to receive anything. */
  lemma UnissuedHearNothing(s: Server.Server, event: Server.Event, x: nat)
    requires Server.Valid(s) && x < |s.endpoints|
    ensures forall id :: id >= s.nextId ==> Arriving(s, event, x, id) == []
  {
    hide Endpoints.Valid, Taken, Tokens.EventTarget, Server.TotalLive;
    assert Server.EndpointOk(s, x);
  }

  // ----- runs ------------------------------------------------------------------------------

  lemma {:induction false} RunSilent(states: seq<Server.Server>, events: seq<Server.Event>, x: nat, k: nat)
    requires Server.IsRun(states, events) && k <= |events| && x < |states[0].endpoints|
    ensures |states| == |events| + 1 && |states[k].endpoints| == |states[0].endpoints|
    ensures Silent(states[k].endpoints[x], FedTo(states, events, x, k))
    ensures forall id :: id >= states[k].nextId ==> Fed(states, events, x, k, id) == []
  {
    hide Silent, Server.Valid, Server.Next, Server.Enabled, Arriving;
    if k == 0 {
      InitialSilent(states[0], x, FedTo(states, events, x, 0));
    } else {
      RunSilent(states, events, x, k - 1);
      Server.RunValid(states, events, k - 1);
      assert Server.Follows(states[k - 1], events[k - 1], states[k]);
      NextSilent(states[k - 1], events[k - 1], x, FedTo(states, events, x, k - 1), FedTo(states, events, x, k));
    }
  }

  lemma InitialSilent(s: Server.Server, x: nat, fed: nat -> seq<byte>)
    requires Server.Initial(s) && x < |s.endpoints|
    ensures Silent(s.endpoints[x], fed)
  {
    assert s.endpoints[x].slots == [None, None];
  }

  /** An open connection that has been sent no whole frame, and no byte of any but an error response. */
  predicate SentNothing(c: Connection) {
    && !c.streaming && c.firstValidCommandAt.None? && c.delivered == []
    && (c.pending.Sending? ==> c.pending.kind.ErrorFrame? && c.closeAfterFlush)
    && (c.pending.Idle? ==> c.sent == [])
  }

  /**
    * Nothing unasked, over whole runs: a connection whose bytes so far do not begin with a command
    * for its endpoint's own stream is not streaming, has no valid command on record and has been
    * sent nothing, or only one error response after which it is closed.
    */
  lemma NothingUnasked(states: seq<Server.Server>, events: seq<Server.Event>, x: nat, k: nat)
    requires Server.IsRun(states, events) && k < |states| && x < |states[k].endpoints|
    ensures |states| == |events| + 1
    ensures var e := states[k].endpoints[x];
            forall i :: 0 <= i < |e.slots| && e.slots[i].Some? ==>
                          var c := e.slots[i].value;
                          Begins(e.cfg, Fed(states, events, x, k, c.id)) || SentNothing(c)
    ensures var e := states[k].endpoints[x];
            forall i :: 0 <= i < |e.retired| ==>
                          Begins(e.cfg, Fed(states, events, x, k, e.retired[i].id)) || Mute(e.retired[i])
  {
    hide Server.IsRun, Begins, Fed;
    RunLengths(states, events, k);
    RunSilent(states, events, x, k);
    Server.RunValid(states, events, k);
    var e := states[k].endpoints[x];
    assert Server.EndpointOk(states[k], x);
    forall i | 0 <= i < |e.slots| && e.slots[i].Some?
      ensures var c := e.slots[i].value; Begins(e.cfg, Fed(states, events, x, k, c.id)) || SentNothing(c)
    {
      assert SlotSilent(e.cfg, e.slots[i], FedTo(states, events, x, k));
      assert SlotLive(e, i);
    }
    forall i | 0 <= i < |e.retired|
      ensures Begins(e.cfg, Fed(states, events, x, k, e.retired[i].id)) || Mute(e.retired[i])
    {
      assert RetiredSilent(e.cfg, e.retired[i], FedTo(states, events, x, k));
    }
  }

  lemma {:induction false} RunLengths(states: seq<Server.Server>, events: seq<Server.Event>, k: nat)
    requires Server.IsRun(states, events) && k < |states|
    ensures |states| == |events| + 1 && |states[k].endpoints| == |states[0].endpoints|
  {
    hide Server.Initial, Server.Follows;
    Server.RunRemembers(states, events, 0, k);
  }
}

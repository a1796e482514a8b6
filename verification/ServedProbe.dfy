/**
  * A probe against the whole server: its connection holds one slot of one endpoint, while every
  * other slot, endpoint and listener does whatever it likes.
  */
module ServedProbe {
  import opened Bytes
  import opened Frames
  import opened Receive
  import opened Connections
  import opened Endpoints
  import opened Probe
  import opened Streams
  import Composition
  import Configuration
  import Handshake
  import Server
  import ServerHistory
  import SlotTick
  import Timing
  import Tokens

  /** Where the probe is connected: the endpoint, its slot, and the id the connection was given. */
  datatype Seat = Seat(plant: Plant, endpoint: nat, slot: nat, id: nat)

  datatype World = World(server: Server.Server, client: Client, up: seq<byte>, down: seq<byte>, next: nat, open: bool)

  predicate Seated(seat: Seat, s: Server.Server) {
    && seat.endpoint < |s.endpoints| && seat.slot < |s.endpoints[seat.endpoint].slots|
    && s.endpoints[seat.endpoint].cfg == seat.plant.cfg
    && Occupied(s.endpoints[seat.endpoint], seat.slot, seat.id)
  }

  /** What the composition of probe and connection sees of the world. */
  function Project(seat: Seat, w: World): Composition.System
    requires Seated(seat, w.server)
  {
    var e := w.server.endpoints[seat.endpoint];
    Composition.System(w.client, w.up, e.slots[seat.slot].value, w.down, e.data, e.emitted, w.next, w.server.stats,
                       true)
  }

  // ----- what leaves a slot alone ----------------------------------------------------------

  lemma {:induction false} ExpireOnSlot(e: Endpoint, now: nat, stats: Stats, n: nat, i: nat)
    requires n <= |e.slots| && i < |e.slots| && e.slots[i].Some?
    ensures var f := Expire(e, now, stats, n).endpoint;
            && SlotTick.SameSlot(e, f.(slots := f.slots[i := e.slots[i]]), i)
            && f.slots[i] == if i < n && DeadlineExpired(e.slots[i].value, now) then None else e.slots[i]
  {
    hide DeadlineExpired;
    if n > 0 {
      ExpireOnSlot(e, now, stats, n - 1, i);
    }
  }

  /** A tick that finds the client slow closes it. */
  lemma TickEvicts(e: Endpoint, tick: Tick, env: Env, stats: Stats, i: nat)
    requires i < |e.slots| <= |tick.writes| && e.slots[i].Some?
    requires e.slots[i].value.streaming && e.slots[i].value.pending.Sending?
    ensures Emit(e, tick, env, stats).endpoint.slots[i].None?
  {
    hide Flush, Send, Evict, Disconnect;
    var n := |e.slots|;
    DisconnectOrKeeps(e, tick.disconnect, stats, n, i);
    var d := Disconnect(e, tick.disconnect, stats, n);
    EvictCloses(d.endpoint, d.stats, n, i);
    var v := Evict(d.endpoint, d.stats, n);
    SlotTick.SendSpares(Rewrite(v.endpoint, tick.sample, tick.frame), tick.sample, tick.writes, env, v.stats, n, i);
  }

  lemma {:induction false} DisconnectOrKeeps(e: Endpoint, ids: set<nat>, stats: Stats, n: nat, i: nat)
    requires n <= |e.slots| && i < |e.slots|
    ensures var f := Disconnect(e, ids, stats, n).endpoint; f.slots[i].None? || f.slots[i] == e.slots[i]
  {
    if n > 0 {
      DisconnectOrKeeps(e, ids, stats, n - 1, i);
    }
  }

  lemma {:induction false} EvictCloses(e: Endpoint, stats: Stats, n: nat, i: nat)
    requires n <= |e.slots| && i < |e.slots|
    requires e.slots[i].Some? ==> e.slots[i].value.streaming && e.slots[i].value.pending.Sending?
    ensures var f := Evict(e, stats, n).endpoint; if i < n then f.slots[i].None? else f.slots[i] == e.slots[i]
  {
    if n > 0 {
      EvictCloses(e, stats, n - 1, i);
    }
  }

  // ----- steps -----------------------------------------------------------------------------

  datatype Step =
    | ProbeWrite(outcome: WriteOutcome)
    | ProbeRead(count: nat)
    | ServerEvent(event: Server.Event, degraded: bool, signals: Configuration.Signals)

  /** The event is addressed to the probe's connection. */
  predicate Mine(seat: Seat, s: Server.Server, r: Server.Ready) {
    Tokens.EventTarget(r.token, |s.endpoints|) == Some(Tokens.Connection(seat.endpoint, seat.slot, seat.id))
  }

  /** The connection once a readable event has been served. */
  function AfterRead(seat: Seat, w: World, r: Server.Ready): Composition.System
    requires Seated(seat, w.server) && (r.readable ==> Composition.Delivered(r.arrivals) <= w.up)
  {
    var s := Project(seat, w);
    if r.readable then
      var served := ReadConnection(seat.plant.cfg, s.server, r.arrivals, r.env, s.stats);
      s.(server := served.connection, up := s.up[|Composition.Delivered(r.arrivals)|..], stats := served.stats)
    else s
  }

  /** Reads of the probe's connection deliver what the probe has written, and its writes do not fail. */
  predicate SocketsWork(seat: Seat, w: World, r: Server.Ready)
    requires Seated(seat, w.server)
  {
    && (r.readable ==>
          && Composition.Delivered(r.arrivals) <= w.up
          && forall i :: 0 <= i < |r.arrivals| ==> r.arrivals[i].Data?)
    && (r.writable ==>
          || r.outcome.WriteBlocked?
          || (r.outcome.Wrote? && Composition.Writable(seat.plant, AfterRead(seat, w, r), r.outcome.count)))
  }

  /** The tick of the next sample, without a scenario acting on the probe's connection. */
  predicate PlainTick(seat: Seat, w: World, sample: nat, tick: Tick, degraded: bool, signals: Configuration.Signals)
    requires Timing.ValidRate(seat.plant.clock.rate, seat.plant.clock.timeBase) && seat.slot < |tick.writes|
  {
    && sample == w.next && Timing.InSocRange(seat.plant.clock, sample)
    && tick.frame == SampleFrame(seat.plant, sample, degraded, signals) && !tick.omit && seat.id !in tick.disconnect
    && var outcome := tick.writes[seat.slot];
    outcome.WriteBlocked? || (outcome.Wrote? && 0 < outcome.count <= |tick.frame|)
  }

  predicate Undisturbed(seat: Seat, w: World, event: Server.Event, degraded: bool, signals: Configuration.Signals)
    requires Timing.ValidRate(seat.plant.clock.rate, seat.plant.clock.timeBase) && Seated(seat, w.server)
  {
    && Server.Enabled(w.server, event)
    && match event
       case Dispatch(r) => Mine(seat, w.server, r) ==> SocketsWork(seat, w, r)
       case Deadlines(_) => true
       case Boundary(sample, ticks, _) =>
         seat.slot < Tokens.SLOTS && PlainTick(seat, w, sample, ticks[seat.endpoint], degraded, signals)
  }

  predicate Enabled(seat: Seat, w: World, step: Step)
    requires Timing.ValidRate(seat.plant.clock.rate, seat.plant.clock.timeBase)
  {
    && w.open && Seated(seat, w.server)
    && match step
       case ProbeWrite(outcome) =>
         outcome.WriteBlocked? || (outcome.Wrote? && 0 < outcome.count <= |Outgoing(Connected(w.client))|)
       case ProbeRead(count) => count <= |w.down| && |w.client.input| + count < MAX_FRAME_BYTES
       case ServerEvent(event, degraded, signals) => Undisturbed(seat, w, event, degraded, signals)
  }

  /** The events by which the server closes the probe's connection. */
  predicate Closes(seat: Seat, w: World, event: Server.Event)
    requires Seated(seat, w.server)
  {
    var c := w.server.endpoints[seat.endpoint].slots[seat.slot].value;
    match event
    case Dispatch(_) => false
    case Deadlines(now) => DeadlineExpired(c, now)
    case Boundary(_, _, _) => c.streaming && c.pending.Sending?
  }

  /** The world after an event of the server; what the connection sent goes into the channel to the probe. */
  function After(seat: Seat, w: World, event: Server.Event): World
    requires Server.Valid(w.server) && Server.Enabled(w.server, event) && Seated(seat, w.server)
  {
    hide Server.Next, Server.Valid;
    var t := Server.Next(w.server, event);
    var read := if event.Dispatch? && event.ready.readable && Mine(seat, w.server, event.ready)
                then |Composition.Delivered(event.ready.arrivals)| else 0;
    var before := w.server.endpoints[seat.endpoint].slots[seat.slot].value.sent;
    var open := Seated(seat, t);
    var sent := if open then t.endpoints[seat.endpoint].slots[seat.slot].value.sent else before;
    World(t, w.client, if read <= |w.up| then w.up[read..] else [],
          w.down + (if |before| <= |sent| then sent[|before|..] else []),
          if event.Boundary? then event.sample + 1 else w.next, open)
  }

  // ----- invariant -------------------------------------------------------------------------

  ghost predicate Inv(seat: Seat, w: World)
    requires Timing.ValidRate(seat.plant.clock.rate, seat.plant.clock.timeBase) && seat.plant.d.rate > 0
  {
    && Server.Valid(w.server) && (w.server.boundary.Some? ==> w.server.boundary.value < w.next)
    && (w.open ==> Seated(seat, w.server) && Composition.Joint(seat.plant, Project(seat, w)))
  }

  /** What the composition needs from a plant. */
  ghost predicate Ready(seat: Seat, born: Timestamp) {
    && Sound(seat.plant, born) && Timing.ValidRate(seat.plant.clock.rate, seat.plant.clock.timeBase)
    && seat.plant.d.rate > 0
  }

  /** Joint depends neither on the counters nor on the flag. */
  lemma SameView(p: Plant, s: Composition.System, t: Composition.System)
    requires Timing.ValidRate(p.clock.rate, p.clock.timeBase) && p.d.rate > 0 && Composition.Joint(p, s)
    requires t == s.(stats := t.stats, open := t.open)
    ensures Composition.Joint(p, t)
  {
    hide Composition.Joint;
    Composition.StatsIrrelevant(p, s, t.stats);
    Composition.OpenIrrelevant(p, s.(stats := t.stats), t.open);
  }

  /** After an event the connection is open exactly if the event was not a closing one, and then still in step. */
  ghost predicate Survives(seat: Seat, w: World, event: Server.Event) {
    && Timing.ValidRate(seat.plant.clock.rate, seat.plant.clock.timeBase) && seat.plant.d.rate > 0
    && Server.Valid(w.server) && Server.Enabled(w.server, event) && Seated(seat, w.server)
    && var a := After(seat, w, event);
    && (a.open <==> !Closes(seat, w, event))
    && (a.open ==> Seated(seat, a.server) && Composition.Joint(seat.plant, Project(seat, a)))
  }

  // ----- the probe's own events ------------------------------------------------------------

  lemma ReadSeat(seat: Seat, born: Timestamp, w: World, r: Server.Ready)
    requires Ready(seat, born) && Seated(seat, w.server) && Composition.Joint(seat.plant, Project(seat, w))
    requires r.readable && SocketsWork(seat, w, r)
    ensures var e := w.server.endpoints[seat.endpoint];
            var s := AfterRead(seat, w, r);
            && Readable(e, seat.slot, seat.id, r.arrivals, r.env, w.server.stats)
               == Endpoints.Step(Put(e, seat.slot, s.server), s.stats)
            && Composition.Joint(seat.plant, s) && s.server.id == seat.id
            && s.server.sent == Project(seat, w).server.sent
  {
    hide Composition.Joint, Sound, ReadConnection, Composition.Delivered;
    var s := Project(seat, w);
    Composition.ServerReads(seat.plant, born, s, r.arrivals, r.env);
    SoundConfig(seat.plant, born);
    JointLive(seat.plant, s);
    ReadKeeps(seat.plant.cfg, s.data, s.emitted, s.server, r.arrivals, r.env, s.stats);
  }

  lemma JointLive(p: Plant, s: Composition.System)
    requires Timing.ValidRate(p.clock.rate, p.clock.timeBase) && p.d.rate > 0 && Composition.Joint(p, s)
    ensures Live(p.cfg, s.data, s.emitted, s.server)
  {
  }

  lemma WriteSeat(seat: Seat, born: Timestamp, e: Endpoint, s: Composition.System, outcome: WriteOutcome, env: Env)
    requires Ready(seat, born) && Composition.Joint(seat.plant, s) && s.server.id == seat.id
    requires seat.slot < |e.slots| && e.slots[seat.slot] == Some(s.server) && e.cfg == seat.plant.cfg
             && e.data == s.data
    requires outcome.WriteBlocked? || (outcome.Wrote? && Composition.Writable(seat.plant, s, outcome.count))
    ensures s.server.pending.Sending? ==> Fits(e.cfg, s.server.pending.kind)
    ensures var f := Flush(e.cfg, e.data, s.server, outcome, env, s.stats);
            && f.open && f.connection.id == seat.id && s.server.sent <= f.connection.sent
            && Settle(e, seat.slot, f) == Endpoints.Step(Put(e, seat.slot, f.connection), f.stats)
            && Composition.Joint(seat.plant,
                                 s.(server := f.connection, down := s.down + f.connection.sent[|s.server.sent|..],
                                 stats := f.stats))
  {
    hide Composition.Joint, Sound, Flush;
    Composition.PendingFits(seat.plant, s);
    Composition.FlushMoves(seat.plant, born, s, outcome, env);
    SoundConfig(seat.plant, born);
    JointLive(seat.plant, s);
    FlushKeeps(seat.plant.cfg, s.data, s.emitted, s.server, outcome, env, s.stats);
  }

  /** The probe's connection after a whole event: read, then written. */
  lemma SeatServed(seat: Seat, born: Timestamp, w: World, r: Server.Ready) returns (t: Composition.System)
    requires Ready(seat, born) && Seated(seat, w.server) && Composition.Joint(seat.plant, Project(seat, w))
    requires Endpoints.Valid(w.server.endpoints[seat.endpoint]) && SocketsWork(seat, w, r)
    ensures var e := w.server.endpoints[seat.endpoint];
            var s := Project(seat, w);
            && Server.DispatchConnection(e, seat.slot, r, seat.id, w.server.stats)
               == Endpoints.Step(Put(e, seat.slot, t.server), t.stats)
            && Composition.Joint(seat.plant, t) && t.server.id == seat.id && s.server.sent <= t.server.sent
            && t == s.(server := t.server, stats := t.stats, down := s.down + t.server.sent[|s.server.sent|..],
                    up := if r.readable then s.up[|Composition.Delivered(r.arrivals)|..] else s.up)
  {
    hide Composition.Joint, Sound, ReadConnection, Flush, Endpoints.Valid, Composition.Delivered, Settle;
    var e, s := w.server.endpoints[seat.endpoint], Project(seat, w);
    var u := AfterRead(seat, w, r);
    var f := if r.readable then Put(e, seat.slot, u.server) else e;
    if r.readable {
      ReadSeat(seat, born, w, r);
    }
    assert u.server.sent[|s.server.sent|..] == [] && s.down + [] == s.down;
    t := u;
    if r.writable {
      WriteSeat(seat, born, f, u, r.outcome, r.env);
      var served := Flush(f.cfg, f.data, u.server, r.outcome, r.env, u.stats);
      t := u.(server := served.connection, down := u.down + served.connection.sent[|u.server.sent|..],
      stats := served.stats);
      assert Put(f, seat.slot, served.connection) == Put(e, seat.slot, served.connection);
    } else {
      assert Put(e, seat.slot, s.server) == e by { assert e.slots[seat.slot := e.slots[seat.slot]] == e.slots; }
    }
  }

  /** The seat is left alone: same connection, same buffer, same emitted frames. */
  predicate Spared(seat: Seat, s: Server.Server, t: Server.Server) {
    && |t.endpoints| == |s.endpoints|
    && (seat.endpoint < |s.endpoints| ==>
          SlotTick.SameSlot(s.endpoints[seat.endpoint], t.endpoints[seat.endpoint], seat.slot))
  }

  lemma SparedKeeps(seat: Seat, born: Timestamp, w: World, a: World)
    requires Ready(seat, born) && Seated(seat, w.server) && Composition.Joint(seat.plant, Project(seat, w))
    requires Spared(seat, w.server, a.server) && a == w.(server := a.server, down := w.down + [], open := a.open)
    ensures Seated(seat, a.server) && Composition.Joint(seat.plant, Project(seat, a))
  {
    hide Composition.Joint, Sound;
    assert w.down + [] == w.down;
    SameView(seat.plant, Project(seat, w), Project(seat, a));
  }

  /** An event that is not addressed to the probe's connection spares it. */
  lemma OtherDispatchSpares(seat: Seat, s: Server.Server, r: Server.Ready)
    requires Server.Valid(s) && Seated(seat, s) && !Mine(seat, s, r)
    ensures Spared(seat, s, Server.DispatchEvent(s, r))
  {
    hide Server.DispatchConnection, AcceptAll, Tokens.EventTarget, Endpoints.Valid, LiveCount, Server.TotalLive,
      Server.FreshIds;
    var target := Tokens.EventTarget(r.token, |s.endpoints|);
    var e := s.endpoints[seat.endpoint];
    assert Server.EndpointOk(s, seat.endpoint);
    if target.Some? && target.value.Listener? {
      var a := Accepting(e, s.nextId, s.stats);
      ServerHistory.AcceptSpares(a, |s.endpoints|, seat.endpoint, r.sockets, r.env.now, seat.slot);
    } else if target.Some? && target.value.Connection? && target.value.endpoint == seat.endpoint
              && target.value.slot < Tokens.SLOTS {
      OtherSlotSpares(seat, e, target.value.slot, r, target.value.id, s.stats, s.nextId);
    }
  }

  lemma OtherSlotSpares(seat: Seat, e: Endpoint, slot: nat, r: Server.Ready, id: nat, stats: Stats, nextId: nat)
    requires Endpoints.Valid(e) && seat.slot < |e.slots| && slot < |e.slots| && Occupied(e, seat.slot, seat.id)
    requires slot != seat.slot || id != seat.id
    requires Server.FreshIds(e, nextId)
    ensures SlotTick.SameSlot(e, Server.DispatchConnection(e, slot, r, id, stats).endpoint, seat.slot)
  {
    hide Endpoints.Valid, ReadConnection, Flush, Server.FreshIds, LiveCount;
    if slot != seat.slot {
      Server.SlotIsolation(e, slot, r, id, stats, seat.slot);
      Server.DispatchConnectionKeeps(e, slot, r, id, stats, nextId);
    }
  }

  lemma DispatchKeepsSeat(seat: Seat, born: Timestamp, w: World, r: Server.Ready)
    requires Ready(seat, born) && Server.Valid(w.server) && Seated(seat, w.server)
    requires Composition.Joint(seat.plant, Project(seat, w)) && (Mine(seat, w.server, r) ==> SocketsWork(seat, w, r))
    ensures Survives(seat, w, Server.Dispatch(r))
  {
    hide Composition.Joint, Sound, Server.Valid, Server.DispatchConnection, Tokens.EventTarget, Composition.Delivered,
      AcceptAll;
    var a := After(seat, w, Server.Dispatch(r));
    var i := seat.endpoint;
    if Mine(seat, w.server, r) {
      SeatSlot(seat, w.server);
      var t := SeatServed(seat, born, w, r);
      var e := w.server.endpoints[i];
      assert a.server.endpoints[i] == Put(e, seat.slot, t.server);
      assert w.up[0..] == w.up;
      SameView(seat.plant, t, Project(seat, a));
    } else {
      OtherDispatchSpares(seat, w.server, r);
      var sent := w.server.endpoints[i].slots[seat.slot].value.sent;
      assert sent[|sent|..] == [] && w.up[0..] == w.up;
      SparedKeeps(seat, born, w, a);
    }
  }

  lemma SeatSlot(seat: Seat, s: Server.Server)
    requires Server.Valid(s) && Seated(seat, s)
    ensures seat.slot < Tokens.SLOTS && Endpoints.Valid(s.endpoints[seat.endpoint])
  {
    hide Endpoints.Valid, Server.FreshIds, Server.TotalLive;
    assert Server.EndpointOk(s, seat.endpoint);
  }

  // ----- deadlines and boundaries ----------------------------------------------------------

  lemma DeadlinesOnSeat(seat: Seat, born: Timestamp, w: World, now: nat)
    requires Ready(seat, born) && Server.Valid(w.server) && Seated(seat, w.server)
    requires Composition.Joint(seat.plant, Project(seat, w))
    ensures Survives(seat, w, Server.Deadlines(now))
  {
    hide Composition.Joint, Sound, Server.Valid, Server.ExpireAll, Expire, DeadlineExpired;
    var a := After(seat, w, Server.Deadlines(now));
    var i, s := seat.endpoint, w.server;
    var seen := ServerHistory.ExpireAllOn(s, now, |s.endpoints|, i);
    ExpireOnSlot(s.endpoints[i], now, seen, |s.endpoints[i].slots|, seat.slot);
    if a.open {
      var sent := s.endpoints[i].slots[seat.slot].value.sent;
      assert sent[|sent|..] == [] && w.up[0..] == w.up;
      assert Spared(seat, s, a.server);
      SparedKeeps(seat, born, w, a);
    }
  }

  /** The tick on the probe's slot, when it does not find it slow. */
  lemma TickOnSeat(seat: Seat, born: Timestamp, w: World, tick: Tick, env: Env, stats: Stats, e: Endpoint,
                   degraded: bool, signals: Configuration.Signals)
    returns (t: Composition.System)
    requires Ready(seat, born) && Seated(seat, w.server) && Composition.Joint(seat.plant, Project(seat, w))
    requires e == w.server.endpoints[seat.endpoint] && |e.slots| <= |tick.writes| && seat.slot < |e.slots|
    requires tick.sample == w.next && PlainTick(seat, w, w.next, tick, degraded, signals)
    requires e.slots[seat.slot].value.streaming ==> e.slots[seat.slot].value.pending.Idle?
    ensures var f := Emit(e, tick, env, stats).endpoint;
            var s := Project(seat, w);
            && |f.slots| == |e.slots| && f.cfg == e.cfg && f.slots[seat.slot] == Some(t.server) && f.data == t.data
            && f.emitted == t.emitted
            && Composition.Joint(seat.plant, t) && t.server.id == seat.id && s.server.sent <= t.server.sent
            && t == s.(server := t.server, data := t.data, emitted := t.emitted, next := s.next + 1, stats := t.stats,
                    down := s.down + t.server.sent[|s.server.sent|..])
  {
    hide Composition.Joint, Sound, Flush, Emit, SampleFrame, Timing.InSocRange, Expected, Timing.TimestampForSample;
    var p, s := seat.plant, Project(seat, w);
    ServerHistory.EmitShape(e, tick, env, stats);
    SampleExpected(p, born, s.next, degraded, signals);
    Composition.ExpectedNotEmpty(p, s.next, tick.frame);
    var seen := SlotTick.TickOnSlot(e, tick, env, stats, seat.slot);
    if s.server.streaming {
      Composition.QueueMoves(p, born, s, tick.frame);
      var queued := s.server.(pending := Pending.Sending(DataFrame(s.next), 0));
      var u := s.(data := tick.frame, emitted := s.emitted[s.next := tick.frame], next := s.next + 1, server := queued);
      var v := u.(stats := seen);
      SameView(p, u, v);
      var outcome := tick.writes[seat.slot];
      assert outcome.Wrote? ==> Composition.Writable(p, v, outcome.count);
      var g := e.(data := tick.frame, slots := e.slots[seat.slot := Some(queued)]);
      WriteSeat(seat, born, g, v, outcome, env);
      var served := Flush(e.cfg, tick.frame, queued, outcome, env, seen);
      t := v.(server := served.connection, down := v.down + served.connection.sent[|queued.sent|..],
      stats := served.stats);
    } else {
      var f := Emit(e, tick, env, stats).endpoint;
      var rewritten := !SlotTick.SameSlot(e, f, seat.slot);
      Composition.QuietTick(p, born, s, tick.frame, rewritten);
      t := if rewritten then s.(data := tick.frame, emitted := s.emitted[s.next := tick.frame], next := s.next + 1)
      else s.(next := s.next + 1);
      assert t.server.sent[|s.server.sent|..] == [] && s.down + [] == s.down;
    }
  }

  lemma BoundaryOnSeat(seat: Seat, born: Timestamp, w: World, event: Server.Event, degraded: bool,
                       signals: Configuration.Signals)
    requires Ready(seat, born) && Server.Valid(w.server) && Seated(seat, w.server)
    requires Composition.Joint(seat.plant, Project(seat, w))
    requires event.Boundary? && Undisturbed(seat, w, event, degraded, signals)
    ensures Survives(seat, w, event)
  {
    hide Composition.Joint, Sound, Server.Valid, Server.EmitAll, Emit, PlainTick;
    var a := After(seat, w, event);
    var i, s, tick := seat.endpoint, w.server, event.ticks[seat.endpoint];
    Server.ValidSlots(s);
    var seen := ServerHistory.EmitAllOn(s, event.ticks, event.env, |s.endpoints|, i);
    var e := s.endpoints[i];
    PlainSample(seat, w, event, degraded, signals);
    if Closes(seat, w, event) {
      TickEvicts(e, tick, event.env, seen, seat.slot);
    } else {
      var t := TickOnSeat(seat, born, w, tick, event.env, seen, e, degraded, signals);
      assert w.up[0..] == w.up;
      SameView(seat.plant, t, Project(seat, a));
    }
  }

  lemma PlainSample(seat: Seat, w: World, event: Server.Event, degraded: bool, signals: Configuration.Signals)
    requires Timing.ValidRate(seat.plant.clock.rate, seat.plant.clock.timeBase) && Seated(seat, w.server)
    requires event.Boundary? && Undisturbed(seat, w, event, degraded, signals)
    ensures event.sample == w.next && event.ticks[seat.endpoint].sample == w.next
  {
    hide SampleFrame, Timing.InSocRange;
  }

  // ----- runs ------------------------------------------------------------------------------

  datatype Movement = Moved(world: World) | ProbeFailed(error: ProbeError) | Panicked

  function Next(seat: Seat, w: World, step: Step): Movement
    requires Timing.ValidRate(seat.plant.clock.rate, seat.plant.clock.timeBase)
    requires Server.Valid(w.server) && Enabled(seat, w, step)
  {
    hide After, ProcessInput, Server.Valid;
    match step
    case ProbeWrite(outcome) =>
      (match WriteReady(w.client, outcome)
       case Err(e) => ProbeFailed(e)
       case Ok(written) => Moved(w.(client := written.client, up := w.up + written.bytes)))
    case ProbeRead(count) =>
      if !Sane(w.client) then Panicked
      else
        (match ReadReady(w.client, w.down[..count])
         case Err(e) => ProbeFailed(e)
         case Ok(c) => Moved(w.(client := c, down := w.down[count..])))
    case ServerEvent(event, _, _) => Moved(After(seat, w, event))
  }

  lemma EventKeeps(seat: Seat, born: Timestamp, w: World, event: Server.Event, degraded: bool,
                   signals: Configuration.Signals)
    requires Ready(seat, born) && Inv(seat, w) && w.open && Undisturbed(seat, w, event, degraded, signals)
    ensures var a := After(seat, w, event);
            Inv(seat, a) && (a.open <==> !Closes(seat, w, event))
  {
    hide Composition.Joint, Sound, Server.Valid, Server.Next, PlainTick, SocketsWork, DeadlineExpired, Mine;
    Server.NextKeeps(w.server, event);
    Server.NextBoundary(w.server, event);
    match event {
      case Dispatch(r) => DispatchKeepsSeat(seat, born, w, r);
      case Deadlines(now) => DeadlinesOnSeat(seat, born, w, now);
      case Boundary(_, _, _) =>
        BoundaryOnSeat(seat, born, w, event, degraded, signals);
        PlainSample(seat, w, event, degraded, signals);
    }
  }

  lemma StepKeeps(seat: Seat, born: Timestamp, w: World, step: Step)
    requires Ready(seat, born) && Inv(seat, w) && Enabled(seat, w, step)
    ensures Next(seat, w, step).Moved? && Inv(seat, Next(seat, w, step).world)
    ensures Next(seat, w, step).world.open <==> !(step.ServerEvent? && Closes(seat, w, step.event))
  {
    hide Composition.Joint, Sound, Server.Valid, After, WriteReady, ReadReady, Closes, Undisturbed;
    match step {
      case ProbeWrite(outcome) => Composition.ProbeWrites(seat.plant, born, Project(seat, w), outcome);
      case ProbeRead(count) => Composition.ProbeReads(seat.plant, born, Project(seat, w), count);
      case ServerEvent(event, degraded, signals) => EventKeeps(seat, born, w, event, degraded, signals);
    }
  }

  /** The probe has just been accepted; the endpoint may have emitted samples before. */
  ghost predicate Fresh(seat: Seat, w: World, now: nat)
    requires Timing.ValidRate(seat.plant.clock.rate, seat.plant.clock.timeBase) && seat.plant.d.rate > 0
  {
    && Server.Valid(w.server) && (w.server.boundary.Some? ==> w.server.boundary.value < w.next)
    && Seated(seat, w.server) && w.server.endpoints[seat.endpoint].slots[seat.slot] == Some(NewConnection(seat.id, now))
    && Composition.EmittedOk(seat.plant, w.server.endpoints[seat.endpoint].emitted, w.next)
    && w.client == NewClient(seat.plant.cfg.version, seat.plant.cfg.streamId, seat.plant.d.rate)
    && w.up == [] && w.down == [] && w.open
  }

  lemma FreshKeeps(seat: Seat, born: Timestamp, w: World, now: nat)
    requires Ready(seat, born) && Fresh(seat, w, now)
    ensures Inv(seat, w)
  {
    hide Server.Valid, Sound, Live, Composition.CommandFlow, Expected;
    var p, s := seat.plant, Project(seat, w);
    assert Composition.Kinds(s) == [] && Composition.Kinds(s)[..0] == [];
    Handshake.SoundId(p, born);
    Composition.CommandFlowSize(p.cfg.version, p.cfg.streamId, Handshake.Steps(p.cfg.version));
    NewIsLive(p.cfg, s.data, s.emitted, seat.id, now);
  }

  ghost predicate Follows(seat: Seat, w: World, step: Step, a: World)
    requires Timing.ValidRate(seat.plant.clock.rate, seat.plant.clock.timeBase)
  {
    Enabled(seat, w, step) && (Server.Valid(w.server) ==> Next(seat, w, step) == Moved(a))
  }

  /** Consecutive worlds related by enabled steps. */
  ghost predicate Continues(seat: Seat, worlds: seq<World>, steps: seq<Step>)
    requires Timing.ValidRate(seat.plant.clock.rate, seat.plant.clock.timeBase)
  {
    |worlds| == |steps| + 1 && forall k :: 0 <= k < |steps| ==> Follows(seat, worlds[k], steps[k], worlds[k + 1])
  }

  ghost predicate IsRun(seat: Seat, worlds: seq<World>, steps: seq<Step>, now: nat)
    requires Timing.ValidRate(seat.plant.clock.rate, seat.plant.clock.timeBase) && seat.plant.d.rate > 0
  {
    Continues(seat, worlds, steps) && Fresh(seat, worlds[0], now)
  }

  lemma {:induction false} RunKeeps(seat: Seat, born: Timestamp, worlds: seq<World>, steps: seq<Step>, now: nat, k: nat)
    requires Ready(seat, born) && IsRun(seat, worlds, steps, now) && k < |worlds|
    ensures Inv(seat, worlds[k])
  {
    hide Inv, Fresh, Sound, Next, Enabled;
    if k == 0 {
      FreshKeeps(seat, born, worlds[0], now);
    } else {
      RunKeeps(seat, born, worlds, steps, now, k - 1);
      assert Follows(seat, worlds[k - 1], steps[k - 1], worlds[k]);
      InvValid(seat, worlds[k - 1]);
      StepKeeps(seat, born, worlds[k - 1], steps[k - 1]);
    }
  }

  lemma InvValid(seat: Seat, w: World)
    requires Timing.ValidRate(seat.plant.clock.rate, seat.plant.clock.timeBase) && seat.plant.d.rate > 0 && Inv(seat, w)
    ensures Server.Valid(w.server)
  {
  }

  /**
    * The probe against the whole server: in every run, with any number of other connections,
    * endpoints, accepted and rejected sockets, partial writes and evictions around it, no step
    * makes the probe reject anything, nothing panics, and the server closes the probe's
    * connection exactly by an expired deadline or by a tick that finds it slow.
    */
  lemma ProbeNeverRejected(seat: Seat, born: Timestamp, worlds: seq<World>, steps: seq<Step>, now: nat, step: Step)
    requires Ready(seat, born) && IsRun(seat, worlds, steps, now)
    requires |worlds| > 0 && Enabled(seat, worlds[|worlds| - 1], step)
    ensures var last := worlds[|worlds| - 1];
            && Server.Valid(last.server) && Next(seat, last, step).Moved?
            && (Next(seat, last, step).world.open <==> !(step.ServerEvent? && Closes(seat, last, step.event)))
  {
    hide Inv, Fresh, Sound, Next, Enabled, IsRun, Closes;
    RunKeeps(seat, born, worlds, steps, now, |worlds| - 1);
    InvValid(seat, worlds[|worlds| - 1]);
    StepKeeps(seat, born, worlds[|worlds| - 1], step);
  }

  // ----- from the start of the server ------------------------------------------------------

  ghost predicate IsSampleFrame(p: Plant, sample: nat, frame: seq<byte>)
    requires Timing.ValidRate(p.clock.rate, p.clock.timeBase)
  {
    exists degraded: bool, signals: Configuration.Signals :: frame == SampleFrame(p, sample, degraded, signals)
  }

  /** Every tick of the endpoint carries the encoding of its sample, within the SOC range. */
  ghost predicate Encodes(p: Plant, x: nat, event: Server.Event)
    requires Timing.ValidRate(p.clock.rate, p.clock.timeBase)
  {
    event.Boundary? ==>
      && x < |event.ticks| && Timing.InSocRange(p.clock, event.sample)
      && IsSampleFrame(p, event.sample, event.ticks[x].frame)
  }

  lemma SampleFrameExpected(p: Plant, born: Timestamp, sample: nat, frame: seq<byte>)
    requires Sound(p, born) && Timing.ValidRate(p.clock.rate, p.clock.timeBase) && p.d.rate > 0
    requires Timing.InSocRange(p.clock, sample) && IsSampleFrame(p, sample, frame)
    ensures Expected(p, DataFrame(sample), frame)
  {
    hide Sound, Expected, SampleFrame, Timing.InSocRange;
    var degraded: bool, signals: Configuration.Signals :| frame == SampleFrame(p, sample, degraded, signals);
    SampleExpected(p, born, sample, degraded, signals);
  }

  /** What an endpoint has emitted by state `k`, and what it is configured as. */
  ghost predicate EndpointEncoded(p: Plant, s: Server.Server, x: nat)
    requires Timing.ValidRate(p.clock.rate, p.clock.timeBase) && p.d.rate > 0
  {
    && x < |s.endpoints| && s.endpoints[x].cfg == p.cfg
    && (forall t :: t in s.endpoints[x].emitted ==>
                      && s.boundary.Some? && t <= s.boundary.value
                      && Expected(p, DataFrame(t), s.endpoints[x].emitted[t]))
  }

  lemma EventEncodes(p: Plant, born: Timestamp, s: Server.Server, event: Server.Event, x: nat)
    requires Sound(p, born) && Timing.ValidRate(p.clock.rate, p.clock.timeBase) && p.d.rate > 0
    requires Server.Valid(s) && Server.Enabled(s, event) && EndpointEncoded(p, s, x) && Encodes(p, x, event)
    ensures EndpointEncoded(p, Server.Next(s, event), x)
  {
    hide Sound, Expected, SampleFrame, Timing.InSocRange, Server.Valid, Server.EmitAll, Emit, IsSampleFrame,
      Server.DispatchEvent, Server.ExpireAll;
    Server.NextBoundary(s, event);
    if event.Boundary? {
      Server.ValidSlots(s);
      var seen := ServerHistory.EmitAllOn(s, event.ticks, event.env, |s.endpoints|, x);
      TickEmits(s, event, x, seen);
      SampleFrameExpected(p, born, event.sample, event.ticks[x].frame);
    } else {
      ServerHistory.LoopEmits(s, event, x);
    }
  }

  lemma TickEmits(s: Server.Server, event: Server.Event, x: nat, seen: Stats)
    requires Server.Valid(s) && Server.Enabled(s, event) && event.Boundary? && x < |s.endpoints|
    ensures |s.endpoints[x].slots| <= |event.ticks[x].writes|
    ensures var f := Emit(s.endpoints[x], event.ticks[x], event.env, seen).endpoint;
            && f.cfg == s.endpoints[x].cfg
            && (|| f.emitted == s.endpoints[x].emitted
                || f.emitted == s.endpoints[x].emitted[event.sample := event.ticks[x].frame])
  {
    hide Emit, Endpoints.Valid, Server.TotalLive, Server.FreshIds, LiveCount;
    Server.ValidSlots(s);
    assert Server.EndpointOk(s, x);
    EmitKeeps(s.endpoints[x], event.ticks[x], event.env, seen);
  }

  lemma {:induction false} RunEncodes(
    p: Plant, born: Timestamp, states: seq<Server.Server>, events: seq<Server.Event>, x: nat, k: nat)
    requires Sound(p, born) && Timing.ValidRate(p.clock.rate, p.clock.timeBase) && p.d.rate > 0
    requires Server.IsRun(states, events) && k < |states|
    requires x < |states[0].endpoints| && states[0].endpoints[x].cfg == p.cfg
    requires forall j :: 0 <= j < k ==> Encodes(p, x, events[j])
    ensures EndpointEncoded(p, states[k], x)
  {
    hide Sound, Expected, SampleFrame, Timing.InSocRange, Server.Valid, Server.Next, Encodes, Server.Enabled;
    if k > 0 {
      RunEncodes(p, born, states, events, x, k - 1);
      Server.RunValid(states, events, k - 1);
      assert Server.Follows(states[k - 1], events[k - 1], states[k]);
      EventEncodes(p, born, states[k - 1], events[k - 1], x);
    }
  }

  /** The world in which a probe sits at a server that has just accepted it. */
  function Arrival(seat: Seat, s: Server.Server, next: nat): World {
    World(s, NewClient(seat.plant.cfg.version, seat.plant.cfg.streamId, seat.plant.d.rate), [], [], next, true)
  }

  /** Event `k` of the server's run accepts the probe into its seat. */
  ghost predicate AcceptedAt(seat: Seat, states: seq<Server.Server>, events: seq<Server.Event>, k: nat)
    requires Timing.ValidRate(seat.plant.clock.rate, seat.plant.clock.timeBase)
  {
    && Server.IsRun(states, events) && k < |events| && events[k].Dispatch?
    && seat.endpoint < |states[0].endpoints| && states[0].endpoints[seat.endpoint].cfg == seat.plant.cfg
    && (forall j :: 0 <= j < k ==> Encodes(seat.plant, seat.endpoint, events[j]))
    && seat.endpoint < |states[k].endpoints| && seat.slot < |states[k].endpoints[seat.endpoint].slots|
    && states[k].endpoints[seat.endpoint].slots[seat.slot].None?
    && Seated(seat, states[k + 1])
  }

  /** A probe that the server accepts, at any time of any run from its start, sits in a fresh seat. */
  lemma AcceptedIsFresh(
    seat: Seat, born: Timestamp, states: seq<Server.Server>, events: seq<Server.Event>, k: nat, next: nat)
    requires Ready(seat, born) && AcceptedAt(seat, states, events, k)
    requires states[k + 1].boundary.Some? ==> states[k + 1].boundary.value < next
    ensures Fresh(seat, Arrival(seat, states[k + 1], next), events[k].ready.env.now)
  {
    hide Sound, Expected, SampleFrame, Timing.InSocRange, Server.Valid, Encodes, Server.DispatchEvent;
    var p, x := seat.plant, seat.endpoint;
    Server.RunValid(states, events, k);
    Server.RunValid(states, events, k + 1);
    assert Server.Follows(states[k], events[k], states[k + 1]);
    RunEncodes(p, born, states, events, x, k);
    ServerHistory.FilledIsNew(states[k], events[k].ready, x, seat.slot);
    ServerHistory.LoopEmits(states[k], events[k], x);
    Server.NextBoundary(states[k], events[k]);
  }

  /**
    * From the start of the server: in every run of the server with encoded ticks, a probe that is
    * accepted at any time is from then on never made to reject anything, and its connection is
    * closed exactly by an expired deadline or by a tick that finds it slow.
    */
  lemma AcceptedProbeNeverRejected(
    seat: Seat, born: Timestamp, states: seq<Server.Server>, events: seq<Server.Event>, k: nat, next: nat,
    worlds: seq<World>, steps: seq<Step>, step: Step)
    requires Ready(seat, born) && AcceptedAt(seat, states, events, k)
    requires states[k + 1].boundary.Some? ==> states[k + 1].boundary.value < next
    requires Continues(seat, worlds, steps) && worlds[0] == Arrival(seat, states[k + 1], next)
    requires Enabled(seat, worlds[|worlds| - 1], step)
    ensures var last := worlds[|worlds| - 1];
            && Server.Valid(last.server) && Next(seat, last, step).Moved?
            && (Next(seat, last, step).world.open <==> !(step.ServerEvent? && Closes(seat, last, step.event)))
  {
    hide Sound, Fresh, Next, Enabled, Closes, Server.IsRun, Server.Valid, Encodes;
    AcceptedIsFresh(seat, born, states, events, k, next);
    ProbeNeverRejected(seat, born, worlds, steps, events[k].ready.env.now, step);
  }
}

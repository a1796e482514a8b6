/**
  * Controller and server in one run: every reporting boundary first moves the controller, whose
  * frame plans then decide the ticks of all endpoints.
  */
module ControlledServer {
  import opened Bytes
  import opened Frames
  import opened Connections
  import opened Endpoints
  import opened ScenarioEffects
  import Configuration
  import Decoders
  import Receive
  import Scenario
  import ScenarioRuns
  import Server
  import ServerHistory
  import Tokens

  datatype State = State(controller: Scenario.Controller, server: Server.Server)

  datatype Event =
    | Manage(op: ScenarioRuns.Op)
    | Loop(event: Server.Event)
    | Report(sample: nat, given: seq<Inputs>, env: Env)

  /** The ticks that the plans ask for, one per endpoint. */
  function Ticks(
    c: Scenario.Controller, ds: seq<Configuration.Descriptor>, sample: nat, given: seq<Inputs>): seq<Tick>
    requires |given| == |ds|
  {
    seq(|ds|, i requires 0 <= i < |ds| => PlannedTick(c, ds[i], sample, given[i]))
  }

  ghost predicate Valid(ds: seq<Configuration.Descriptor>, s: State) {
    && Scenario.Valid(s.controller) && Server.Valid(s.server) && |s.server.endpoints| == |ds|
    && s.controller.current == s.server.boundary
  }

  /** Boundaries come from the scheduler, so in increasing order; management never moves them. */
  predicate Enabled(ds: seq<Configuration.Descriptor>, s: State, event: Event) {
    match event
    case Manage(op) => !op.OpAdvance?
    case Loop(e) => !e.Boundary?
    case Report(sample, given, _) =>
      && |given| == |ds| && (forall i :: 0 <= i < |given| ==> |given[i].writes| == Tokens.SLOTS)
      && (s.server.boundary.Some? ==> s.server.boundary.value < sample)
  }

  /** The boundary that a report gives to the server. */
  function BoundaryOf(ds: seq<Configuration.Descriptor>, s: State, event: Event): Server.Event
    requires event.Report? && |event.given| == |ds| && Scenario.Valid(s.controller)
  {
    hide Scenario.Valid, ScenarioRuns.Apply;
    var c := ScenarioRuns.Apply(s.controller, ScenarioRuns.OpAdvance(event.sample));
    Server.Boundary(event.sample, Ticks(c, ds, event.sample, event.given), event.env)
  }

  lemma BoundaryIsEnabled(ds: seq<Configuration.Descriptor>, s: State, event: Event)
    requires Valid(ds, s) && Enabled(ds, s, event) && event.Report?
    ensures Server.Enabled(s.server, BoundaryOf(ds, s, event))
  {
    hide Scenario.Valid, Server.Valid, ScenarioRuns.Apply, Scenario.PlanFor;
    var b := BoundaryOf(ds, s, event);
    forall i | 0 <= i < |b.ticks|
      ensures b.ticks[i].sample == event.sample && b.ticks[i].frame != [] && |b.ticks[i].writes| == Tokens.SLOTS
    {
      assert |b.ticks[i].frame| >= 46;
    }
  }

  function Next(ds: seq<Configuration.Descriptor>, s: State, event: Event): State
    requires Valid(ds, s) && Enabled(ds, s, event)
  {
    hide Scenario.Valid, Server.Valid, ScenarioRuns.Apply, Server.Next;
    match event
    case Manage(op) => s.(controller := ScenarioRuns.Apply(s.controller, op))
    case Loop(e) => s.(server := Server.Next(s.server, e))
    case Report(sample, _, _) =>
      BoundaryIsEnabled(ds, s, event);
      State(ScenarioRuns.Apply(s.controller, ScenarioRuns.OpAdvance(sample)),
            Server.Next(s.server, BoundaryOf(ds, s, event)))
  }

  // ----- the two runs inside ---------------------------------------------------------------

  /** What an event is to the controller; the loop's own events are a confirmation that finds no token. */
  function OpOf(event: Event): ScenarioRuns.Op {
    match event
    case Manage(op) => op
    case Loop(_) => ScenarioRuns.OpConfirm(0, 0)
    case Report(sample, _, _) => ScenarioRuns.OpAdvance(sample)
  }

  lemma NoSuchToken(c: Scenario.Controller)
    requires Scenario.Valid(c)
    ensures ScenarioRuns.Apply(c, ScenarioRuns.OpConfirm(0, 0)) == c
  {
  }

  lemma {:induction false} ServerSize(s: Server.Server, event: Server.Event)
    requires Server.Valid(s) && Server.Enabled(s, event)
    ensures |Server.Next(s, event).endpoints| == |s.endpoints|
  {
    hide Server.Valid, Server.Next;
    Server.NextRemembers(s, event);
  }

  lemma NextKeeps(ds: seq<Configuration.Descriptor>, s: State, event: Event)
    requires Valid(ds, s) && Enabled(ds, s, event)
    ensures Valid(ds, Next(ds, s, event))
    ensures Next(ds, s, event).controller == ScenarioRuns.Apply(s.controller, OpOf(event))
    ensures event.Report? ==> Next(ds, s, event).controller.current == Some(event.sample)
  {
    hide Scenario.Valid, Server.Valid, ScenarioRuns.Apply, Server.Next, Server.Enabled, BoundaryOf;
    ScenarioRuns.ApplyKeeps(s.controller, OpOf(event));
    ScenarioRuns.CurrentMoves(s.controller, OpOf(event));
    match event {
      case Manage(op) =>
      case Loop(e) =>
        NoSuchToken(s.controller);
        LoopEnabled(s.server, e);
        Server.NextKeeps(s.server, e);
        Server.NextBoundary(s.server, e);
        ServerSize(s.server, e);
      case Report(sample, _, _) =>
        BoundaryIsEnabled(ds, s, event);
        var b := BoundaryOf(ds, s, event);
        assert b.Boundary? && b.sample == sample by { BoundaryShape(ds, s, event); }
        Server.NextKeeps(s.server, b);
        Server.NextBoundary(s.server, b);
        ServerSize(s.server, b);
    }
  }

  lemma LoopEnabled(s: Server.Server, e: Server.Event)
    requires !e.Boundary?
    ensures Server.Enabled(s, e)
  {
  }

  lemma BoundaryShape(ds: seq<Configuration.Descriptor>, s: State, event: Event)
    requires event.Report? && |event.given| == |ds| && Scenario.Valid(s.controller)
    ensures var b := BoundaryOf(ds, s, event);
            b.Boundary? && b.sample == event.sample && |b.ticks| == |ds| && b.env == event.env
  {
  }

  // ----- runs ------------------------------------------------------------------------------

  ghost predicate Follows(ds: seq<Configuration.Descriptor>, s: State, event: Event, t: State) {
    Enabled(ds, s, event) && (Valid(ds, s) ==> t == Next(ds, s, event))
  }

  ghost predicate IsRun(ds: seq<Configuration.Descriptor>, states: seq<State>, events: seq<Event>) {
    && |states| == |events| + 1 && Valid(ds, states[0])
    && forall k :: 0 <= k < |events| ==> Follows(ds, states[k], events[k], states[k + 1])
  }

  /** A fresh controller and a freshly bound server are a start. */
  lemma StartIsValid(ds: seq<Configuration.Descriptor>, s: State)
    requires Scenario.Valid(s.controller) && s.controller.current.None?
    requires Server.Initial(s.server) && |s.server.endpoints| == |ds|
    ensures Valid(ds, s)
  {
    hide Scenario.Valid, Server.Valid;
    Server.RunValid([s.server], [], 0);
  }

  lemma {:induction false} RunValid(ds: seq<Configuration.Descriptor>, states: seq<State>, events: seq<Event>, k: nat)
    requires IsRun(ds, states, events) && k < |states|
    ensures Valid(ds, states[k])
  {
    hide Valid, Next, Enabled;
    if k > 0 {
      RunValid(ds, states, events, k - 1);
      assert Follows(ds, states[k - 1], events[k - 1], states[k]);
      NextKeeps(ds, states[k - 1], events[k - 1]);
    }
  }

  ghost function Controllers(states: seq<State>): seq<Scenario.Controller> {
    seq(|states|, k requires 0 <= k < |states| => states[k].controller)
  }

  ghost function Ops(events: seq<Event>): seq<ScenarioRuns.Op> {
    seq(|events|, k requires 0 <= k < |events| => OpOf(events[k]))
  }

  /** The controller's part of a joint run is a run of the controller. */
  lemma ControllerRuns(ds: seq<Configuration.Descriptor>, states: seq<State>, events: seq<Event>)
    requires IsRun(ds, states, events)
    ensures ScenarioRuns.IsRun(Controllers(states), Ops(events))
  {
    hide Scenario.Valid, Server.Valid, Next, Enabled, ScenarioRuns.Apply;
    var cs, ops := Controllers(states), Ops(events);
    forall k | 0 <= k < |ops|
      ensures ScenarioRuns.Follows(cs[k], ops[k], cs[k + 1])
    {
      RunValid(ds, states, events, k);
      assert Follows(ds, states[k], events[k], states[k + 1]);
      NextKeeps(ds, states[k], events[k]);
    }
  }

  // ----- what an endpoint has emitted ------------------------------------------------------

  /** A report is one tick of every endpoint, as its plan asks. */
  lemma ReportTicks(ds: seq<Configuration.Descriptor>, s: State, event: Event, x: nat) returns (seen: Stats)
    requires Valid(ds, s) && Enabled(ds, s, event) && event.Report? && x < |ds|
    ensures var t := Next(ds, s, event);
            var tick := PlannedTick(t.controller, ds[x], event.sample, event.given[x]);
            && |s.server.endpoints| == |t.server.endpoints| == |ds|
            && |s.server.endpoints[x].slots| == Tokens.SLOTS == |tick.writes|
            && t.server.endpoints[x] == Emit(s.server.endpoints[x], tick, event.env, seen).endpoint
  {
    hide Scenario.Valid, Server.Valid, ScenarioRuns.Apply, Emit, Server.EmitAll, Scenario.PlanFor,
      Configuration.DataFrame;
    BoundaryIsEnabled(ds, s, event);
    var b := BoundaryOf(ds, s, event);
    Server.ValidSlots(s.server);
    seen := ServerHistory.EmitAllOn(s.server, b.ticks, b.env, |s.server.endpoints|, x);
  }

  /** A report adds at most its own sample to what an endpoint has emitted, with the planned frame. */
  lemma ReportEmits(ds: seq<Configuration.Descriptor>, s: State, event: Event, x: nat)
    requires Valid(ds, s) && Enabled(ds, s, event) && event.Report? && x < |ds|
    ensures var t := Next(ds, s, event);
            var tick := PlannedTick(t.controller, ds[x], event.sample, event.given[x]);
            && |s.server.endpoints| == |t.server.endpoints| == |ds|
            && event.sample !in s.server.endpoints[x].emitted
            && (|| t.server.endpoints[x].emitted == s.server.endpoints[x].emitted
                || t.server.endpoints[x].emitted == s.server.endpoints[x].emitted[event.sample := tick.frame])
  {
    hide Scenario.Valid, Next, Emit, Scenario.PlanFor, Configuration.DataFrame, Endpoints.Valid, Server.TotalLive,
      Server.FreshIds, LiveCount;
    var seen := ReportTicks(ds, s, event, x);
    var t := Next(ds, s, event);
    assert Server.EndpointOk(s.server, x);
    var tick := PlannedTick(t.controller, ds[x], event.sample, event.given[x]);
    FrameNotEmpty(t.controller, ds[x], event.sample, event.given[x]);
    EmitKeeps(s.server.endpoints[x], tick, event.env, seen);
  }

  lemma FrameNotEmpty(c: Scenario.Controller, d: Configuration.Descriptor, sample: nat, given: Inputs)
    ensures PlannedTick(c, d, sample, given).frame != []
  {
    hide Scenario.PlanFor, EncodeFrame;
    assert |PlannedTick(c, d, sample, given).frame| >= 46;
  }

  /** A sample that has passed keeps its frame, or its absence, for the rest of the run. */
  lemma {:induction false} PastIsSettled(
    ds: seq<Configuration.Descriptor>, states: seq<State>, events: seq<Event>, k: nat, m: nat, x: nat, sample: nat)
    requires IsRun(ds, states, events) && k <= m < |states| && x < |ds|
    requires states[k].server.boundary.Some? && sample <= states[k].server.boundary.value
    ensures |states[k].server.endpoints| == |states[m].server.endpoints| == |ds|
    ensures states[m].server.boundary.Some? && sample <= states[m].server.boundary.value
    ensures var before, after := states[k].server.endpoints[x].emitted, states[m].server.endpoints[x].emitted;
            (sample in before <==> sample in after) && (sample in before ==> after[sample] == before[sample])
    decreases m
  {
    hide Scenario.Valid, Server.Valid, Next, Scenario.PlanFor, Configuration.DataFrame;
    RunValid(ds, states, events, k);
    if k < m {
      var j := m - 1;
      PastIsSettled(ds, states, events, k, j, x, sample);
      RunValid(ds, states, events, j);
      assert Follows(ds, states[j], events[j], states[m]);
      NextKeeps(ds, states[j], events[j]);
      match events[j] {
        case Manage(op) => ManageServer(ds, states[j], events[j]);
        case Loop(e) =>
          LoopEnabled(states[j].server, e);
          ServerHistory.LoopEmits(states[j].server, e, x);
          Server.NextBoundary(states[j].server, e);
          LoopServer(ds, states[j], events[j]);
        case Report(later, _, _) =>
          ReportEmits(ds, states[j], events[j], x);
      }
    }
  }

  lemma ManageServer(ds: seq<Configuration.Descriptor>, s: State, event: Event)
    requires Valid(ds, s) && Enabled(ds, s, event) && event.Manage?
    ensures Next(ds, s, event).server == s.server
  {
    hide Scenario.Valid, Server.Valid, ScenarioRuns.Apply;
  }

  lemma LoopServer(ds: seq<Configuration.Descriptor>, s: State, event: Event)
    requires Valid(ds, s) && Enabled(ds, s, event) && event.Loop?
    ensures Server.Enabled(s.server, event.event) && Next(ds, s, event).server == Server.Next(s.server, event.event)
  {
    hide Scenario.Valid, Server.Valid, Server.Next;
  }

  // ----- effects over whole runs -----------------------------------------------------------

  /**
    * Report `i` applies a queued transient activation of `g`, and report `k` falls into its
    * window.
    */
  ghost predicate ReportInWindow(
    ds: seq<Configuration.Descriptor>, states: seq<State>, events: seq<Event>, i: nat, k: nat, g: Scenario.Target) {
    && IsRun(ds, states, events) && i <= k < |events| && events[i].Report? && events[k].Report?
    && g in states[i].controller.pending && states[i].controller.pending[g].action.Activate?
    && states[i].controller.pending[g].action.scenario.lifecycle.Transient?
    && InForce(states[i].controller.pending[g].action.scenario, events[i].sample, events[k].sample)
  }

  /** The plan of report `k` shows the scenario in force. */
  lemma WindowShows(
    ds: seq<Configuration.Descriptor>, states: seq<State>, events: seq<Event>, i: nat, k: nat, g: Scenario.Target)
    requires ReportInWindow(ds, states, events, i, k, g)
    ensures |states| == |events| + 1
    ensures ScenarioRuns.PlanShows(Scenario.PlanFor(states[k + 1].controller, g.streamId), g,
                                   states[i].controller.pending[g].action.scenario, true)
  {
    hide Scenario.Valid, Server.Valid, Next, ScenarioRuns.PlanShows, Scenario.PlanFor, ScenarioRuns.IsRun;
    RunValid(ds, states, events, i);
    RunValid(ds, states, events, k);
    assert Follows(ds, states[i], events[i], states[i + 1]);
    assert Follows(ds, states[k], events[k], states[k + 1]);
    NextKeeps(ds, states[k], events[k]);
    ControllerRuns(ds, states, events);
    WindowInPlan(Controllers(states), Ops(events), i, k + 1, g);
  }

  /** No connection, open or closed, has been sent or is being sent a data frame of the sample. */
  predicate NeverGiven(e: Endpoint, sample: nat) {
    && sample !in e.emitted
    && (forall j :: 0 <= j < |e.slots| && e.slots[j].Some? ==> DataFrame(sample) !in InFlight(e.slots[j].value))
    && (forall j :: 0 <= j < |e.retired| ==> DataFrame(sample) !in InFlight(e.retired[j]))
  }

  lemma NotEmittedIsNeverGiven(e: Endpoint, sample: nat)
    requires Endpoints.Valid(e) && sample !in e.emitted
    ensures NeverGiven(e, sample)
  {
    hide Transcript, Rising, Whole;
    forall j | 0 <= j < |e.slots| && e.slots[j].Some?
      ensures DataFrame(sample) !in InFlight(e.slots[j].value)
    {
      assert SlotLive(e, j);
      NotKnown(e, e.slots[j].value, sample);
    }
    forall j | 0 <= j < |e.retired|
      ensures DataFrame(sample) !in InFlight(e.retired[j])
    {
      NotKnown(e, e.retired[j], sample);
    }
  }

  lemma NotKnown(e: Endpoint, c: Connection, sample: nat)
    requires WellSent(e.cfg, e.emitted, c) && sample !in e.emitted
    ensures DataFrame(sample) !in InFlight(c)
  {
    hide Transcript, Rising, Whole;
    assert AllKnown(e.cfg, e.emitted, c.delivered);
  }

  /**
    * Missing frames over runs: the sample of a report inside the window of a missing-frames
    * scenario is never given to any connection of the endpoint, then or at any later time.
    */
  lemma MissingFramesStayMissing(
    ds: seq<Configuration.Descriptor>, states: seq<State>, events: seq<Event>, i: nat, k: nat, m: nat, x: nat)
    requires x < |ds| && ReportInWindow(ds, states, events, i, k, Scenario.EndpointTarget(ds[x].streamId))
    requires states[i].controller.pending[Scenario.EndpointTarget(ds[x].streamId)].action.scenario.kind.MissingFrames?
    requires k < m < |states|
    ensures |states[m].server.endpoints| == |ds|
    ensures NeverGiven(states[m].server.endpoints[x], events[k].sample)
  {
    hide Scenario.Valid, Server.Valid, Next, Scenario.PlanFor, Emit, Configuration.DataFrame;
    WindowShows(ds, states, events, i, k, Scenario.EndpointTarget(ds[x].streamId));
    RunValid(ds, states, events, k);
    RunValid(ds, states, events, m);
    assert Follows(ds, states[k], events[k], states[k + 1]);
    NextKeeps(ds, states[k], events[k]);
    ReportEmits(ds, states[k], events[k], x);
    var seen := ReportTicks(ds, states[k], events[k], x);
    OmittedTick(states[k].server.endpoints[x],
                PlannedTick(states[k + 1].controller, ds[x], events[k].sample, events[k].given[x]),
                events[k].env, seen);
    PastIsSettled(ds, states, events, k + 1, m, x, events[k].sample);
    EndpointValid(states[m].server, x);
    NotEmittedIsNeverGiven(states[m].server.endpoints[x], events[k].sample);
  }

  lemma EndpointValid(s: Server.Server, x: nat)
    requires Server.Valid(s) && x < |s.endpoints|
    ensures Endpoints.Valid(s.endpoints[x])
  {
    assert Server.EndpointOk(s, x);
  }

  /**
    * Disconnects over runs: after every report inside the window of a disconnect scenario the
    * targeted connection holds no slot of its endpoint.
    */
  lemma DisconnectedInWindow(
    ds: seq<Configuration.Descriptor>, states: seq<State>, events: seq<Event>, i: nat, k: nat, x: nat,
    id: nat, slot: nat)
    requires x < |ds| && ReportInWindow(ds, states, events, i, k, Scenario.PdcTarget(ds[x].streamId, id))
    requires slot < Tokens.SLOTS
    ensures |states| == |events| + 1 && |states[k + 1].server.endpoints| == |ds|
    ensures var e := states[k + 1].server.endpoints[x]; |e.slots| == Tokens.SLOTS && !Occupied(e, slot, id)
  {
    hide Scenario.Valid, Server.Valid, Next, Scenario.PlanFor, Emit, Configuration.DataFrame;
    WindowShows(ds, states, events, i, k, Scenario.PdcTarget(ds[x].streamId, id));
    RunValid(ds, states, events, k);
    RunValid(ds, states, events, k + 1);
    assert Follows(ds, states[k], events[k], states[k + 1]);
    var seen := ReportTicks(ds, states[k], events[k], x);
    Server.ValidSlots(states[k + 1].server);
    var tick := PlannedTick(states[k + 1].controller, ds[x], events[k].sample, events[k].given[x]);
    EndpointValid(states[k].server, x);
    TickDisconnects(states[k].server.endpoints[x], tick, events[k].env, seen, slot, id);
  }

  /** After a tick no slot holds a connection that the tick disconnects. */
  lemma TickDisconnects(e: Endpoint, tick: Tick, env: Env, stats: Stats, slot: nat, id: nat)
    requires Endpoints.Valid(e) && slot < |e.slots| <= |tick.writes| && id in tick.disconnect
    ensures |Emit(e, tick, env, stats).endpoint.slots| == |e.slots|
    ensures !Occupied(Emit(e, tick, env, stats).endpoint, slot, id)
  {
    hide Send, Evict, Disconnect, Endpoints.Valid, Flush;
    var n := |e.slots|;
    DisconnectKeeps(e, tick.disconnect, stats, n);
    DisconnectRemoves(e, tick.disconnect, stats, n, slot);
    var d := Disconnect(e, tick.disconnect, stats, n);
    EvictOnlyCloses(d.endpoint, d.stats, n);
    EvictKeeps(d.endpoint, d.stats, n);
    var v := Evict(d.endpoint, d.stats, n);
    if AnyStreaming(v.endpoint) && !tick.omit {
      var w := Rewrite(v.endpoint, tick.sample, tick.frame);
      SendKeepsId(w, tick.sample, tick.writes, env, v.stats, n, slot);
    }
  }

  lemma {:induction false} ProcessId(cfg: Config, c: Connection, env: Env, stats: Stats)
    ensures Process(cfg, c, env, stats).connection.id == c.id
    decreases |c.receive|
  {
    hide Receive.NextCommand;
    if c.pending.Idle? && !c.closeAfterFlush {
      var next := Receive.NextCommand(cfg.version, cfg.limit, c.receive);
      if next.Received? {
        var turn := Turn(cfg, c.(receive := c.receive[next.size..]), next.command, env, stats);
        if turn.open {
          ProcessId(cfg, turn.connection, env, turn.stats);
        }
      }
    }
  }

  lemma FlushId(cfg: Config, data: seq<byte>, c: Connection, outcome: WriteOutcome, env: Env, stats: Stats)
    requires c.pending.Sending? ==> Fits(cfg, c.pending.kind)
    ensures Flush(cfg, data, c, outcome, env, stats).connection.id == c.id
  {
    hide Process, Selected;
    if c.pending.Sending? {
      var bytes := Selected(cfg, data, c.errorFrame, c.pending.kind);
      if outcome.Wrote? && outcome.count > 0 && c.pending.offset + outcome.count <= |bytes| {
        var counted := if c.pending.kind.DataFrame? then stats.(sentData := stats.sentData + 1) else stats;
        ProcessId(cfg, Advance(c, bytes, outcome.count), env, counted);
      }
    }
  }

  /** Sending puts no other connection into a slot. */
  lemma {:induction false} SendKeepsId(
    e: Endpoint, sample: nat, writes: seq<WriteOutcome>, env: Env, stats: Stats, n: nat, slot: nat)
    requires n <= |e.slots| <= |writes| && slot < |e.slots|
    ensures var f := Send(e, sample, writes, env, stats, n).endpoint;
            f.slots[slot].Some? ==> e.slots[slot].Some? && f.slots[slot].value.id == e.slots[slot].value.id
  {
    hide Flush;
    if n > 0 {
      SendKeepsId(e, sample, writes, env, stats, n - 1, slot);
      var s := Send(e, sample, writes, env, stats, n - 1);
      var c := s.endpoint.slots[n - 1];
      if c.Some? && c.value.streaming {
        var queued := c.value.(pending := Sending(DataFrame(sample), 0));
        FlushId(e.cfg, s.endpoint.data, queued, writes[n - 1], env, s.stats);
      }
    }
  }

  lemma {:induction false} DisconnectRemoves(e: Endpoint, ids: set<nat>, stats: Stats, n: nat, slot: nat)
    requires n <= |e.slots| && slot < |e.slots|
    ensures var f := Disconnect(e, ids, stats, n).endpoint;
            slot < n && f.slots[slot].Some? ==> f.slots[slot].value.id !in ids
  {
    if n > 0 {
      DisconnectRemoves(e, ids, stats, n - 1, slot);
    }
  }

  /**
    * STAT over runs: whatever frame an endpoint has emitted for the sample of a report, then or
    * seen at any later time, carries the STAT that the plan of that report asks for.
    */
  lemma StatOverRuns(
    ds: seq<Configuration.Descriptor>, states: seq<State>, events: seq<Event>, k: nat, m: nat, x: nat)
    requires IsRun(ds, states, events) && k < m < |states| && events[k].Report? && x < |ds|
    requires |events[k].given| == |ds| && Configuration.ValidDescriptor(ds[x]) && ValidTime(events[k].given[x].time)
    ensures |states[m].server.endpoints| == |ds|
    ensures var emitted := states[m].server.endpoints[x].emitted;
            var degraded := Scenario.PlanFor(states[k + 1].controller, ds[x].streamId).degradedTime;
            events[k].sample in emitted ==>
              StatOf(Configuration.VersionOf(ds[x]), emitted[events[k].sample])
              == Some(Configuration.Stat(ds[x].metadata, events[k].given[x].clockDegraded || degraded))
  {
    hide Scenario.Valid, Server.Valid, Next, Scenario.PlanFor, Configuration.DataFrame, Enabled, StatOf,
      Configuration.Stat,
      Configuration.ValidDescriptor;
    RunValid(ds, states, events, k);
    assert Follows(ds, states[k], events[k], states[k + 1]);
    NextKeeps(ds, states[k], events[k]);
    RunValid(ds, states, events, k + 1);
    ReportEmits(ds, states[k], events[k], x);
    PastIsSettled(ds, states, events, k + 1, m, x, events[k].sample);
    var given := events[k].given[x];
    var plan := Scenario.PlanFor(states[k + 1].controller, ds[x].streamId);
    StatOnWire(ds[x], given.clockDegraded || plan.degradedTime, given.signals, given.time);
  }

  /** In the window of a degraded-time scenario every version 2 frame carries the conservative STAT. */
  lemma DegradedInWindow(
    ds: seq<Configuration.Descriptor>, states: seq<State>, events: seq<Event>, i: nat, k: nat, m: nat, x: nat)
    requires x < |ds| && ReportInWindow(ds, states, events, i, k, Scenario.EndpointTarget(ds[x].streamId))
    requires states[i].controller.pending[Scenario.EndpointTarget(ds[x].streamId)].action.scenario.kind.DegradedTime?
    requires k < m < |states| && |events[k].given| == |ds| && ValidTime(events[k].given[x].time)
    requires Configuration.ValidDescriptor(ds[x]) && ds[x].metadata.MetadataV2?
    ensures |states[m].server.endpoints| == |ds|
    ensures var emitted := states[m].server.endpoints[x].emitted;
            events[k].sample in emitted ==> StatOf(V2, emitted[events[k].sample]) == Some(Decoders.CONSERVATIVE_STAT)
  {
    hide Scenario.Valid, Server.Valid, Next, Scenario.PlanFor, IsRun, StatOf, Configuration.ValidDescriptor;
    WindowShows(ds, states, events, i, k, Scenario.EndpointTarget(ds[x].streamId));
    StatOverRuns(ds, states, events, k, m, x);
  }
}

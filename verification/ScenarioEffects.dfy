/**
  * What a scenario's window does on the wire: the tick that the controller's plan asks for, and what
  * the endpoint then sends.
  */
module ScenarioEffects {
  import opened Bytes
  import opened Frames
  import opened Connections
  import opened Endpoints
  import opened ScenarioRuns
  import Catalog
  import Configuration
  import ConfigurationRoundTrip
  import Decoders
  import Scenario
  import SlotTick

  /** The inputs of a tick that do not come from the controller. */
  datatype Inputs = Inputs(clockDegraded: bool, signals: Configuration.Signals, time: Timestamp,
                           writes: seq<WriteOutcome>)

  /** The tick of `emit_data` for one endpoint: the plan decides omission, disconnects and the degraded STAT. */
  function PlannedTick(c: Scenario.Controller, d: Configuration.Descriptor, sample: nat, given: Inputs): Tick {
    var plan := Scenario.PlanFor(c, d.streamId);
    Tick(sample, Configuration.DataFrame(d, given.clockDegraded || plan.degradedTime, given.signals, given.time),
         plan.omitData, plan.disconnect, given.writes)
  }

  /**
    * The boundary `i` of the run applies a queued activation of `g`, and the run is at sample `s` of
    * its window or not.
    */
  ghost predicate Activates(states: seq<Scenario.Controller>, ops: seq<Op>, i: nat, j: nat, g: Scenario.Target) {
    && IsRun(states, ops) && i < j < |states| && ops[i].OpAdvance?
    && (states[i].current.Some? ==> ops[i].sample > states[i].current.value)
    && g in states[i].pending && states[i].pending[g].action.Activate?
    && states[i].pending[g].action.scenario.lifecycle.Transient?
  }

  /** From the activation's offset on, for its duration. */
  predicate InForce(d: Catalog.Definition, b: nat, s: nat) {
    d.durationFrames.Some? && b + d.startFrameOffset <= s < b + d.startFrameOffset + d.durationFrames.value
  }

  /** The window of the activation at the state's boundary, as the plan shows it. */
  lemma WindowInPlan(states: seq<Scenario.Controller>, ops: seq<Op>, i: nat, j: nat, g: Scenario.Target)
    requires Activates(states, ops, i, j, g)
    ensures var d := states[i].pending[g].action.scenario;
            && states[j].current.Some?
            && (InForce(d, ops[i].sample, states[j].current.value) ==>
                  PlanShows(Scenario.PlanFor(states[j], g.streamId), g, d, true))
  {
    hide IsRun, PlanShows, Scenario.PlanFor, PlanSpares;
    EffectWindowInPlan(states, ops, i, j, g);
  }

  // ----- missing frames --------------------------------------------------------------------

  /** No connection of the endpoint has been given a data frame of the sample. */
  predicate Silent(e: Endpoint, sample: nat) {
    && sample !in e.emitted
    && forall i :: 0 <= i < |e.slots| && e.slots[i].Some? ==>
                     !(e.slots[i].value.pending.Sending? && e.slots[i].value.pending.kind == DataFrame(sample))
                     && DataFrame(sample) !in e.slots[i].value.delivered
  }

  /** Every slot is as it was, or empty; buffer and history are untouched. */
  predicate OnlyCloses(e: Endpoint, f: Endpoint) {
    && |f.slots| == |e.slots| && f.data == e.data && f.emitted == e.emitted
    && forall i :: 0 <= i < |e.slots| ==> f.slots[i] == e.slots[i] || f.slots[i].None?
  }

  lemma {:induction false} DisconnectOnlyCloses(e: Endpoint, ids: set<nat>, stats: Stats, n: nat)
    requires n <= |e.slots|
    ensures OnlyCloses(e, Disconnect(e, ids, stats, n).endpoint)
  {
    if n > 0 {
      DisconnectOnlyCloses(e, ids, stats, n - 1);
    }
  }

  lemma {:induction false} EvictOnlyCloses(e: Endpoint, stats: Stats, n: nat)
    requires n <= |e.slots|
    ensures OnlyCloses(e, Evict(e, stats, n).endpoint)
  {
    if n > 0 {
      EvictOnlyCloses(e, stats, n - 1);
    }
  }

  /** A tick that omits the data rewrites nothing and queues nothing. */
  lemma OmittedTick(e: Endpoint, tick: Tick, env: Env, stats: Stats)
    requires |e.slots| <= |tick.writes| && tick.omit
    ensures OnlyCloses(e, Emit(e, tick, env, stats).endpoint)
  {
    hide Send, Evict, Disconnect;
    DisconnectOnlyCloses(e, tick.disconnect, stats, |e.slots|);
    var d := Disconnect(e, tick.disconnect, stats, |e.slots|);
    EvictOnlyCloses(d.endpoint, d.stats, |e.slots|);
  }

  /** A valid endpoint has given nobody a frame of a sample that is still to come. */
  lemma FreshIsSilent(e: Endpoint, sample: nat)
    requires Endpoints.Valid(e) && Fresh(e, sample)
    ensures Silent(e, sample)
  {
    hide Transcript, Rising, Whole;
    forall i | 0 <= i < |e.slots| && e.slots[i].Some?
      ensures !(e.slots[i].value.pending.Sending? && e.slots[i].value.pending.kind == DataFrame(sample))
      ensures DataFrame(sample) !in e.slots[i].value.delivered
    {
      assert SlotLive(e, i);
      assert AllKnown(e.cfg, e.emitted, e.slots[i].value.delivered);
    }
  }

  /**
    * Missing frames: at every boundary of the window of a missing-frames scenario the endpoint
    * leaves its buffer alone and gives no connection a data frame of that sample.
    */
  lemma MissingFramesAreMissing(states: seq<Scenario.Controller>, ops: seq<Op>, i: nat, j: nat,
                                d: Configuration.Descriptor, e: Endpoint, given: Inputs, env: Env, stats: Stats)
    requires Activates(states, ops, i, j, Scenario.EndpointTarget(d.streamId))
    requires states[i].pending[Scenario.EndpointTarget(d.streamId)].action.scenario.kind.MissingFrames?
    requires states[j].current.Some? && |e.slots| <= |given.writes|
    requires InForce(states[i].pending[Scenario.EndpointTarget(d.streamId)].action.scenario, ops[i].sample,
                     states[j].current.value)
    requires Endpoints.Valid(e) && Fresh(e, states[j].current.value)
    ensures var sample := states[j].current.value;
            var f := Emit(e, PlannedTick(states[j], d, sample, given), env, stats).endpoint;
            Silent(f, sample) && f.data == e.data && f.emitted == e.emitted
  {
    hide IsRun, Emit, Configuration.DataFrame, Scenario.PlanFor, InForce, Endpoints.Valid;
    FreshIsSilent(e, states[j].current.value);
    WindowInPlan(states, ops, i, j, Scenario.EndpointTarget(d.streamId));
    OmittedTick(e, PlannedTick(states[j], d, states[j].current.value, given), env, stats);
  }

  // ----- disconnects -----------------------------------------------------------------------

  lemma {:induction false} DisconnectCloses(e: Endpoint, ids: set<nat>, stats: Stats, n: nat, i: nat)
    requires n <= |e.slots| && i < n && (e.slots[i].Some? ==> e.slots[i].value.id in ids)
    ensures Disconnect(e, ids, stats, n).endpoint.slots[i].None?
  {
    DisconnectOnlyCloses(e, ids, stats, n - 1);
    if i < n - 1 {
      DisconnectCloses(e, ids, stats, n - 1, i);
    }
  }

  /**
    * Planned disconnects: at every boundary of the window of a disconnect scenario the targeted
    * connection is closed before any data are framed, and its slot is empty after the tick.
    */
  lemma PlannedDisconnectCloses(states: seq<Scenario.Controller>, ops: seq<Op>, i: nat, j: nat,
                                d: Configuration.Descriptor,
                                id: nat, e: Endpoint, slot: nat, given: Inputs, env: Env, stats: Stats)
    requires Activates(states, ops, i, j, Scenario.PdcTarget(d.streamId, id)) && states[j].current.Some?
    requires InForce(states[i].pending[Scenario.PdcTarget(d.streamId, id)].action.scenario, ops[i].sample,
                     states[j].current.value)
    requires slot < |e.slots| <= |given.writes| && Occupied(e, slot, id)
    ensures Emit(e, PlannedTick(states[j], d, states[j].current.value, given), env, stats).endpoint.slots[slot].None?
  {
    hide IsRun, Send, Evict, Disconnect, Configuration.DataFrame, Scenario.PlanFor, InForce;
    WindowInPlan(states, ops, i, j, Scenario.PdcTarget(d.streamId, id));
    var tick := PlannedTick(states[j], d, states[j].current.value, given);
    var n := |e.slots|;
    DisconnectCloses(e, tick.disconnect, stats, n, slot);
    var c := Disconnect(e, tick.disconnect, stats, n);
    EvictOnlyCloses(c.endpoint, c.stats, n);
    var v := Evict(c.endpoint, c.stats, n);
    SlotTick.SendSpares(Rewrite(v.endpoint, tick.sample, tick.frame), tick.sample, tick.writes, env, v.stats, n, slot);
  }

  // ----- degraded time ---------------------------------------------------------------------

  /** The STAT word a probe reads from a frame. */
  function StatOf(v: WireVersion, bytes: seq<byte>): Option<nat> {
    match Decoders.DecodeFrame(v, bytes)
    case None => None
    case Some(f) => if |f.body| >= 2 then Some(U16(f.body[0], f.body[1])) else None
  }

  lemma StatOnWire(d: Configuration.Descriptor, degraded: bool, signals: Configuration.Signals, ts: Timestamp)
    requires Configuration.ValidDescriptor(d) && ValidTime(ts)
    ensures StatOf(Configuration.VersionOf(d), Configuration.DataFrame(d, degraded, signals, ts))
         == Some(Configuration.Stat(d.metadata, degraded))
  {
    hide EncodeFrame, Decoders.DecodeFrame, Configuration.Words;
    var v := Configuration.VersionOf(d);
    var words := Configuration.DataWords(d.metadata, degraded, signals);
    Decoders.EncodedFrameDecodes(v, DataType(v), d.streamId, ts, Configuration.Words(words));
    ConfigurationRoundTrip.FirstWord(words);
  }

  /**
    * Degraded time: a listed version 2 PMU under a healthy clock reports a good STAT, except in
    * the window of a degraded-time scenario, where the probe reads the conservative one; after
    * the window the good STAT is back unless a later activation has taken the target.
    */
  lemma DegradedTimeOnWire(states: seq<Scenario.Controller>, ops: seq<Op>, i: nat, j: nat,
                           d: Configuration.Descriptor, given: Inputs)
    requires Activates(states, ops, i, j, Scenario.EndpointTarget(d.streamId)) && states[j].current.Some?
    requires states[i].pending[Scenario.EndpointTarget(d.streamId)].action.scenario.kind.DegradedTime?
    requires Configuration.ValidDescriptor(d) && d.metadata.MetadataV2? && d.metadata.goodStat && !given.clockDegraded
             && ValidTime(given.time)
    ensures var scenario := states[i].pending[Scenario.EndpointTarget(d.streamId)].action.scenario;
            var s := states[j].current.value;
            var stat := StatOf(V2, PlannedTick(states[j], d, s, given).frame);
            && (InForce(scenario, ops[i].sample, s) ==> stat == Some(Decoders.CONSERVATIVE_STAT))
            && (s < ops[i].sample + scenario.startFrameOffset ==> stat == Some(0))
            && (!InForce(scenario, ops[i].sample, s) ==>
                  || stat == Some(0)
                  || (Scenario.EndpointTarget(d.streamId) in states[j].active
                      && states[j].active[Scenario.EndpointTarget(d.streamId)].first > ops[i].sample))
  {
    hide IsRun, Scenario.PlanFor, Configuration.DataFrame, StatOf, Configuration.ValidDescriptor;
    var g := Scenario.EndpointTarget(d.streamId);
    EffectWindowInPlan(states, ops, i, j, g);
    var plan := Scenario.PlanFor(states[j], d.streamId);
    StatOnWire(d, given.clockDegraded || plan.degradedTime, given.signals, given.time);
  }
}

/**
  * From an accepted profile to a running endpoint: what the composition presupposes is what the
  * compiler and the clock provide.
  */
module Deployment {
  import opened Bytes
  import opened Frames
  import opened Configuration
  import Connections
  import Composition
  import Profile
  import Progress
  import ServedProbe
  import Server
  import Streams
  import Timing

  /** Endpoint `index` of an accepted profile, started at wall time `now`. */
  datatype Site = Site(limits: Profile.Limits, fleet: Profile.Fleet, index: nat, endpoint: Profile.Endpoint, now: nat)

  /** The compiler accepted the profile and produced the endpoint, and the clock has a first timestamp. */
  predicate Deployable(site: Site) {
    && Profile.Accepts(site.limits, site.fleet) && site.index < site.fleet.count
    && site.fleet.count <= Profile.MAX_LOGICAL_PMUS && Profile.Compiled(site.fleet, site.index, site.endpoint)
    && var d := site.endpoint.descriptor;
    Timing.ValidRate(d.rate, d.timeBase) && Timing.AlignedTimestamp(site.now, d.rate, d.timeBase).Ok?
  }

  function FirstTime(site: Site): Timestamp
    requires Deployable(site)
  {
    Timing.AlignedTimestamp(site.now, site.endpoint.descriptor.rate, site.endpoint.descriptor.timeBase).value
  }

  /** The endpoint that the server builds from the compiled descriptor. */
  function Deployed(site: Site): Streams.Plant
    requires Deployable(site)
  {
    var d := site.endpoint.descriptor;
    var first := FirstTime(site);
    Streams.Plant(
      d, Connections.Config(VersionOf(d), d.streamId, site.limits.maxCommandFrameBytes, Streams.FramesOf(d, first)),
      Timing.WallClock(first, d.rate, d.timeBase))
  }

  /** Every endpoint of an accepted profile is sound once its clock has a first timestamp. */
  lemma DeployedIsSound(site: Site)
    requires Deployable(site)
    ensures Streams.Sound(Deployed(site), FirstTime(site))
  {
    hide Timing.AlignedTimestamp, Streams.FramesOf, Profile.PmuName, Timing.ToTicks, Timing.TicksPerFrame;
    var d := site.endpoint.descriptor;
    Timing.FirstTimestampIsLeast(site.now, d.rate, d.timeBase);
    FractionFits(FirstTime(site), d);
  }

  lemma FractionFits(ts: Timestamp, d: Descriptor)
    requires ValidDescriptor(d) && ts.soc <= U32_MAX && ts.fracsec < d.timeBase
    ensures ValidTime(ts)
  {
  }

  /**
    * End to end: for every accepted profile, every endpoint of it and every start time within the
    * SOC range, no run of a probe, whenever it connects and whatever the fragmentation and
    * interleaving, ever comes to a step that the probe rejects, and only a deadline or a slow tick
    * closes it.
    */
  lemma ProbesAreNeverRejected(
    site: Site, id: nat, at: nat, stats: Connections.Stats, next: nat,
    states: seq<Composition.System>, steps: seq<Composition.Step>, step: Composition.Step)
    requires Deployable(site) && Composition.IsRun(Deployed(site), states, steps)
    requires states[0] == Composition.Start(Deployed(site), id, at, stats, next)
    requires Composition.Enabled(Deployed(site), states[|states| - 1], step)
    ensures var last := states[|states| - 1];
            var moved := Composition.Next(Deployed(site), last, step);
            moved.Moved? && (moved.system.open <==> !Composition.Closes(last, step))
  {
    hide Streams.Sound, FirstTime, Streams.FramesOf, Profile.Accepts, Profile.Compiled, Composition.Next,
      Composition.Enabled, Composition.Start, Composition.Closes;
    DeployedIsSound(site);
    Composition.ProbeNeverRejects(Deployed(site), FirstTime(site), id, at, stats, next, states, steps, step);
  }

  /** And such runs exist: a probe can be brought to streaming whenever it connects. */
  lemma ProbesCanStream(
    site: Site, id: nat, at: nat, stats: Connections.Stats, next: nat, env: Connections.Env)
    returns (states: seq<Composition.System>, steps: seq<Composition.Step>)
    requires Deployable(site)
    ensures Composition.IsRun(Deployed(site), states, steps)
    ensures states[0] == Composition.Start(Deployed(site), id, at, stats, next)
    ensures states[|states| - 1].client.state.Streaming?
  {
    hide Streams.Sound, FirstTime;
    DeployedIsSound(site);
    states, steps := Progress.StreamingIsReached(Deployed(site), FirstTime(site), id, at, stats, next, env);
  }

  /**
    * The same in a whole server and from its start: whatever else the server has done and goes on
    * doing, a probe accepted at any time is never made to reject anything.
    */
  lemma AcceptedProbesAreNeverRejected(
    site: Site, seat: ServedProbe.Seat, servers: seq<Server.Server>, events: seq<Server.Event>, k: nat, next: nat,
    worlds: seq<ServedProbe.World>, steps: seq<ServedProbe.Step>, step: ServedProbe.Step)
    requires Deployable(site) && seat.plant == Deployed(site) && ServedProbe.AcceptedAt(seat, servers, events, k)
    requires servers[k + 1].boundary.Some? ==> servers[k + 1].boundary.value < next
    requires ServedProbe.Continues(seat, worlds, steps)
    requires worlds[0] == ServedProbe.Arrival(seat, servers[k + 1], next)
    requires ServedProbe.Enabled(seat, worlds[|worlds| - 1], step)
    ensures var last := worlds[|worlds| - 1];
            && Server.Valid(last.server) && ServedProbe.Next(seat, last, step).Moved?
            && (ServedProbe.Next(seat, last, step).world.open
                <==> !(step.ServerEvent? && ServedProbe.Closes(seat, last, step.event)))
  {
    hide Streams.Sound, ServedProbe.Next, ServedProbe.Enabled, ServedProbe.Closes, ServedProbe.AcceptedAt,
      Server.Valid, FirstTime, Streams.FramesOf, Profile.Accepts, Profile.Compiled;
    DeployedIsSound(site);
    ServedProbe.AcceptedProbeNeverRejected(
      seat, FirstTime(site), servers, events, k, next, worlds, steps, step);
  }
}

/** The event loop over all endpoints, and what every run of it keeps. */
module Server {
  import opened Bytes
  import opened Receive
  import opened Connections
  import opened Endpoints
  import opened Tokens
  import Timing

  datatype Server = Server(endpoints: seq<Endpoint>, nextId: nat, stats: Stats, boundary: Option<nat>)

  /** One poll event: its token, its readiness, and what the sockets then report. */
  datatype Ready = Ready(
    token: nat, readable: bool, writable: bool,
    sockets: seq<bool>, arrivals: seq<ReadOutcome>, outcome: WriteOutcome, env: Env)

  datatype Event =
    | Dispatch(ready: Ready)
    | Deadlines(now: nat)
    | Boundary(sample: nat, ticks: seq<Tick>, env: Env)

  const NO_STATS := Stats(0, 0, 0, 0, 0, 0, 0)

  /** A freshly bound server: every slot empty, nothing emitted. */
  predicate Initial(s: Server) {
    && s.nextId == 1 && s.stats == NO_STATS && s.boundary.None?
    && forall i :: 0 <= i < |s.endpoints| ==>
                     && ValidConfig(s.endpoints[i].cfg) && s.endpoints[i].slots == [None, None]
                     && s.endpoints[i].emitted == map[] && s.endpoints[i].retired == []
  }

  function Replace(s: Server, i: nat, step: Endpoints.Step): Server
    requires i < |s.endpoints|
  {
    s.(endpoints := s.endpoints[i := step.endpoint], stats := step.stats)
  }

  /** The connection branch of `dispatch_events`: read first, then write if still the same connection. */
  function DispatchConnection(e: Endpoint, slot: nat, r: Ready, id: nat, stats: Stats): Endpoints.Step
    requires Endpoints.Valid(e) && slot < |e.slots|
  {
    hide Readable, Writable, Endpoints.Valid;
    ReadableKeeps(e, slot, id, r.arrivals, r.env, stats);
    var first := if r.readable then Readable(e, slot, id, r.arrivals, r.env, stats) else Endpoints.Step(e, stats);
    ValidIsFlushable(first.endpoint, slot);
    if r.writable then Writable(first.endpoint, slot, id, r.outcome, r.env, first.stats) else first
  }

  function DispatchEvent(s: Server, r: Ready): Server
    requires Valid(s)
  {
    hide DispatchConnection, AcceptAll, EventTarget;
    match EventTarget(r.token, |s.endpoints|)
    case Some(Listener(i)) =>
      if r.readable && i < |s.endpoints| then
        var a := AcceptAll(Accepting(s.endpoints[i], s.nextId, s.stats), |s.endpoints|, i, r.sockets, r.env.now);
        s.(endpoints := s.endpoints[i := a.endpoint], nextId := a.nextId, stats := a.stats)
      else s
    case Some(Connection(i, slot, id)) =>
      if i < |s.endpoints| && slot < SLOTS then
        assert EndpointOk(s, i);
        Replace(s, i, DispatchConnection(s.endpoints[i], slot, r, id, s.stats))
      else s
    case _ => s
  }

  /** `expire_connections` on the first `n` endpoints. */
  function ExpireAll(s: Server, now: nat, n: nat): Server
    requires n <= |s.endpoints|
    ensures |ExpireAll(s, now, n).endpoints| == |s.endpoints|
  {
    if n == 0 then s
    else
      var t := ExpireAll(s, now, n - 1);
      Replace(t, n - 1, Expire(t.endpoints[n - 1], now, t.stats, |t.endpoints[n - 1].slots|))
  }

  /** `emit_data` on the first `n` endpoints. */
  function EmitAll(s: Server, ticks: seq<Tick>, env: Env, n: nat): Server
    requires n <= |s.endpoints| <= |ticks|
    requires forall i :: 0 <= i < |s.endpoints| ==> |s.endpoints[i].slots| <= |ticks[i].writes|
    ensures |EmitAll(s, ticks, env, n).endpoints| == |s.endpoints|
    ensures forall i :: n <= i < |s.endpoints| ==> EmitAll(s, ticks, env, n).endpoints[i] == s.endpoints[i]
  {
    hide Emit;
    if n == 0 then s
    else
      var t := EmitAll(s, ticks, env, n - 1);
      Replace(t, n - 1, Emit(t.endpoints[n - 1], ticks[n - 1], env, t.stats))
  }

  /** A boundary carries one tick per endpoint, with the encoded frame and a write outcome per slot. */
  predicate WellShaped(s: Server, event: Event) {
    match event
    case Boundary(sample, ticks, _) =>
      && |ticks| == |s.endpoints|
      && forall i :: 0 <= i < |ticks| ==>
                       ticks[i].sample == sample && ticks[i].frame != [] && |ticks[i].writes| == SLOTS
    case _ => true
  }

  /** The events the loop can produce: reporting boundaries arrive in increasing order. */
  predicate Enabled(s: Server, event: Event) {
    && WellShaped(s, event)
    && (event.Boundary? && s.boundary.Some? ==> s.boundary.value < event.sample)
  }

  function Next(s: Server, event: Event): Server
    requires Valid(s) && Enabled(s, event)
  {
    ValidSlots(s);
    match event
    case Dispatch(r) => DispatchEvent(s, r)
    case Deadlines(now) => ExpireAll(s, now, |s.endpoints|)
    case Boundary(sample, ticks, env) => EmitAll(s, ticks, env, |s.endpoints|).(boundary := Some(sample))
  }

  // ----- invariant -------------------------------------------------------------------------

  function TotalLive(endpoints: seq<Endpoint>): nat {
    if endpoints == [] then 0
    else TotalLive(endpoints[..|endpoints| - 1]) + LiveCount(endpoints[|endpoints| - 1].slots)
  }

  /**
    * Connection ids: below the next one to issue, distinct between the slots, and never those of
    * a connection that was closed.
    */
  predicate FreshIds(e: Endpoint, nextId: nat) {
    && (forall i :: 0 <= i < |e.slots| && e.slots[i].Some? ==> 1 <= e.slots[i].value.id < nextId)
    && (forall k :: 0 <= k < |e.retired| ==> 1 <= e.retired[k].id < nextId)
    && (forall i, j :: 0 <= i < j < |e.slots| && e.slots[i].Some? && e.slots[j].Some? ==>
                         e.slots[i].value.id != e.slots[j].value.id)
    && (forall i, k :: 0 <= i < |e.slots| && e.slots[i].Some? && 0 <= k < |e.retired| ==>
                         e.slots[i].value.id != e.retired[k].id)
  }

  predicate Timely(e: Endpoint, boundary: Option<nat>) {
    forall k :: k in e.emitted ==> boundary.Some? && k <= boundary.value
  }

  ghost predicate EndpointOk(s: Server, i: nat)
    requires i < |s.endpoints|
  {
    var e := s.endpoints[i];
    Endpoints.Valid(e) && |e.slots| == SLOTS && FreshIds(e, s.nextId) && Timely(e, s.boundary)
  }

  /**
    * Every endpoint is valid, so no frame is torn on any connection, live or closed; ids are
    * fresh; and accepted clients are closed clients plus connected ones.
    */
  ghost predicate Valid(s: Server) {
    && (forall i :: 0 <= i < |s.endpoints| ==> EndpointOk(s, i))
    && s.nextId >= 1
    && s.stats.accepted == s.stats.closed + TotalLive(s.endpoints)
  }

  lemma {:induction false} TotalLiveUpdate(endpoints: seq<Endpoint>, i: nat, e: Endpoint)
    requires i < |endpoints|
    ensures TotalLive(endpoints[i := e]) == TotalLive(endpoints) - LiveCount(endpoints[i].slots) + LiveCount(e.slots)
  {
    var n := |endpoints| - 1;
    if i == n {
      assert endpoints[i := e][..n] == endpoints[..n];
    } else {
      TotalLiveUpdate(endpoints[..n], i, e);
      assert endpoints[i := e][..n] == endpoints[..n][i := e];
    }
  }

  /** Replacing one endpoint by a step that keeps it keeps the server. */
  lemma ReplaceKeeps(s: Server, i: nat, step: Endpoints.Step, nextId: nat)
    requires Valid(s) && i < |s.endpoints| && s.nextId <= nextId
    requires Endpoints.Valid(step.endpoint) && |step.endpoint.slots| == SLOTS
    requires Balanced(s.endpoints[i], s.stats, step.endpoint, step.stats)
    requires FreshIds(step.endpoint, nextId) && Timely(step.endpoint, s.boundary)
    ensures Valid(Replace(s, i, step).(nextId := nextId))
  {
    hide Endpoints.Valid, LiveCount, TotalLive;
    var t := Replace(s, i, step).(nextId := nextId);
    TotalLiveUpdate(s.endpoints, i, step.endpoint);
    forall k | 0 <= k < |t.endpoints|
      ensures EndpointOk(t, k)
    {
      assert EndpointOk(s, k);
    }
  }

  // ----- ids -------------------------------------------------------------------------------

  lemma CloseFresh(e: Endpoint, slot: nat, id: nat, stats: Stats, nextId: nat)
    requires FreshIds(e, nextId) && slot < |e.slots|
    ensures FreshIds(Close(e, slot, id, stats).endpoint, nextId)
  {
  }

  lemma SettleFresh(e: Endpoint, slot: nat, served: Served, nextId: nat)
    requires FreshIds(e, nextId) && slot < |e.slots| && Occupied(e, slot, served.connection.id)
    ensures FreshIds(Settle(e, slot, served).endpoint, nextId)
  {
    hide Close;
    var f := Put(e, slot, served.connection);
    assert FreshIds(f, nextId);
    CloseFresh(f, slot, served.connection.id, served.stats, nextId);
  }

  lemma ReadableFresh(e: Endpoint, slot: nat, id: nat, arrivals: seq<ReadOutcome>, env: Env, stats: Stats, nextId: nat)
    requires Endpoints.Valid(e) && FreshIds(e, nextId) && slot < |e.slots|
    ensures FreshIds(Readable(e, slot, id, arrivals, env, stats).endpoint, nextId)
  {
    hide Live, WellSent, ReadConnection, Settle, FreshIds;
    if Occupied(e, slot, id) {
      assert SlotLive(e, slot);
      ReadKeeps(e.cfg, e.data, e.emitted, e.slots[slot].value, arrivals, env, stats);
      SettleFresh(e, slot, ReadConnection(e.cfg, e.slots[slot].value, arrivals, env, stats), nextId);
    }
  }

  lemma WritableFresh(e: Endpoint, slot: nat, id: nat, outcome: WriteOutcome, env: Env, stats: Stats, nextId: nat)
    requires Endpoints.Valid(e) && FreshIds(e, nextId) && slot < |e.slots| && Flushable(e, slot)
    ensures FreshIds(Writable(e, slot, id, outcome, env, stats).endpoint, nextId)
  {
    hide Live, WellSent, Flush, Settle, FreshIds;
    if Occupied(e, slot, id) {
      assert SlotLive(e, slot);
      FlushKeeps(e.cfg, e.data, e.emitted, e.slots[slot].value, outcome, env, stats);
      SettleFresh(e, slot, Flush(e.cfg, e.data, e.slots[slot].value, outcome, env, stats), nextId);
    }
  }

  lemma {:induction false} ExpireFresh(e: Endpoint, now: nat, stats: Stats, n: nat, nextId: nat)
    requires FreshIds(e, nextId) && n <= |e.slots|
    ensures FreshIds(Expire(e, now, stats, n).endpoint, nextId)
  {
    hide FreshIds, Close;
    if n > 0 {
      ExpireFresh(e, now, stats, n - 1, nextId);
      var s := Expire(e, now, stats, n - 1);
      if s.endpoint.slots[n - 1].Some? {
        CloseFresh(s.endpoint, n - 1, s.endpoint.slots[n - 1].value.id, s.stats, nextId);
      }
    }
  }

  lemma {:induction false} DisconnectFresh(e: Endpoint, ids: set<nat>, stats: Stats, n: nat, nextId: nat)
    requires FreshIds(e, nextId) && n <= |e.slots|
    ensures FreshIds(Disconnect(e, ids, stats, n).endpoint, nextId)
  {
    hide FreshIds, Close;
    if n > 0 {
      DisconnectFresh(e, ids, stats, n - 1, nextId);
      var s := Disconnect(e, ids, stats, n - 1);
      if s.endpoint.slots[n - 1].Some? {
        CloseFresh(s.endpoint, n - 1, s.endpoint.slots[n - 1].value.id, s.stats, nextId);
      }
    }
  }

  lemma {:induction false} EvictFresh(e: Endpoint, stats: Stats, n: nat, nextId: nat)
    requires FreshIds(e, nextId) && n <= |e.slots|
    ensures FreshIds(Evict(e, stats, n).endpoint, nextId)
  {
    hide FreshIds, Close;
    if n > 0 {
      EvictFresh(e, stats, n - 1, nextId);
      var s := Evict(e, stats, n - 1);
      if s.endpoint.slots[n - 1].Some? {
        CloseFresh(s.endpoint, n - 1, s.endpoint.slots[n - 1].value.id, s.stats.(slow := s.stats.slow + 1), nextId);
      }
    }
  }

  lemma {:induction false} SendFresh(e: Endpoint, sample: nat, writes: seq<WriteOutcome>, env: Env, stats: Stats,
                                     n: nat, nextId: nat)
    requires Endpoints.Valid(e) && n <= |e.slots| <= |writes| && e.data != [] && FreshIds(e, nextId)
    requires sample in e.emitted && e.emitted[sample] == e.data && Waiting(e, sample, 0)
    ensures FreshIds(Send(e, sample, writes, env, stats, n).endpoint, nextId)
  {
    hide Live, WellSent, LiveCount, Flush, Before, FreshIds, Settle, Waiting, Endpoints.Valid;
    if n > 0 {
      SendFresh(e, sample, writes, env, stats, n - 1, nextId);
      SendKeeps(e, sample, writes, env, stats, n - 1);
      var s := Send(e, sample, writes, env, stats, n - 1);
      var f := s.endpoint;
      var slot := f.slots[n - 1];
      if slot.Some? && slot.value.streaming {
        var queued := slot.value.(pending := Sending(DataFrame(sample), 0));
        ValidHasConfig(f);
        QueueSlotKeeps(f, n - 1, sample);
        FlushKeeps(f.cfg, f.data, f.emitted, queued, writes[n - 1], env, s.stats);
        SettleFresh(f, n - 1, Flush(f.cfg, f.data, queued, writes[n - 1], env, s.stats), nextId);
      }
    }
  }

  lemma ValidHasConfig(e: Endpoint)
    requires Endpoints.Valid(e)
    ensures ValidConfig(e.cfg)
  {
  }

  lemma EmitFresh(e: Endpoint, tick: Tick, env: Env, stats: Stats, nextId: nat)
    requires Endpoints.Valid(e) && |e.slots| <= |tick.writes| && Fresh(e, tick.sample) && tick.frame != []
    requires FreshIds(e, nextId)
    ensures FreshIds(Emit(e, tick, env, stats).endpoint, nextId)
  {
    hide Endpoints.Valid, LiveCount, Send, Evict, Disconnect, Waiting, Quiescent, FreshIds;
    var n := |e.slots|;
    DisconnectKeeps(e, tick.disconnect, stats, n);
    DisconnectFresh(e, tick.disconnect, stats, n, nextId);
    var d := Disconnect(e, tick.disconnect, stats, n);
    EvictKeeps(d.endpoint, d.stats, n);
    EvictFresh(d.endpoint, d.stats, n, nextId);
    var v := Evict(d.endpoint, d.stats, n);
    if AnyStreaming(v.endpoint) && !tick.omit {
      RewriteKeeps(v.endpoint, tick.sample, tick.frame);
      FreshIsWaiting(v.endpoint, tick.sample, tick.frame);
      RewriteFresh(v.endpoint, tick.sample, tick.frame, nextId);
      SendFresh(Rewrite(v.endpoint, tick.sample, tick.frame), tick.sample, tick.writes, env, v.stats, n, nextId);
    }
  }

  lemma RewriteFresh(e: Endpoint, sample: nat, frame: seq<byte>, nextId: nat)
    requires FreshIds(e, nextId)
    ensures FreshIds(Rewrite(e, sample, frame), nextId)
  {
  }

  lemma {:induction false} AcceptFresh(a: Accepting, count: nat, index: nat, sockets: seq<bool>, now: nat)
    requires FreshIds(a.endpoint, a.nextId) && a.nextId >= 1
    ensures var b := AcceptAll(a, count, index, sockets, now); FreshIds(b.endpoint, b.nextId)
    decreases |sockets|
  {
    hide ConnectionToken;
    if sockets != [] {
      AcceptFresh(AcceptOne(a, count, index, sockets[0], now), count, index, sockets[1..], now);
    }
  }

  // ----- steps -----------------------------------------------------------------------------

  lemma DispatchConnectionKeeps(e: Endpoint, slot: nat, r: Ready, id: nat, stats: Stats, nextId: nat)
    requires Endpoints.Valid(e) && slot < |e.slots| && FreshIds(e, nextId)
    ensures Kept(e, stats, DispatchConnection(e, slot, r, id, stats))
    ensures FreshIds(DispatchConnection(e, slot, r, id, stats).endpoint, nextId)
  {
    hide Readable, Writable, Endpoints.Valid, LiveCount, FreshIds;
    ReadableKeeps(e, slot, id, r.arrivals, r.env, stats);
    ReadableFresh(e, slot, id, r.arrivals, r.env, stats, nextId);
    var first := if r.readable then Readable(e, slot, id, r.arrivals, r.env, stats) else Endpoints.Step(e, stats);
    WritableKeeps(first.endpoint, slot, id, r.outcome, r.env, first.stats);
    WritableFresh(first.endpoint, slot, id, r.outcome, r.env, first.stats, nextId);
  }

  lemma DispatchKeeps(s: Server, r: Ready)
    requires Valid(s)
    ensures Valid(DispatchEvent(s, r))
    ensures DispatchEvent(s, r).boundary == s.boundary
  {
    hide DispatchConnection, AcceptAll, EventTarget, Endpoints.Valid, LiveCount, TotalLive, FreshIds;
    var target := EventTarget(r.token, |s.endpoints|);
    if target.Some? && target.value.Listener? && target.value.endpoint < |s.endpoints| {
      var i := target.value.endpoint;
      assert EndpointOk(s, i);
      var a := Accepting(s.endpoints[i], s.nextId, s.stats);
      AcceptAllKeeps(a, |s.endpoints|, i, r.sockets, r.env.now);
      AcceptFresh(a, |s.endpoints|, i, r.sockets, r.env.now);
      var b := AcceptAll(a, |s.endpoints|, i, r.sockets, r.env.now);
      ReplaceKeeps(s, i, Endpoints.Step(b.endpoint, b.stats), b.nextId);
    } else if target.Some? && target.value.Connection? && target.value.endpoint < |s.endpoints|
              && target.value.slot < SLOTS {
      var i := target.value.endpoint;
      assert EndpointOk(s, i);
      DispatchConnectionKeeps(s.endpoints[i], target.value.slot, r, target.value.id, s.stats, s.nextId);
      ReplaceKeeps(s, i, DispatchConnection(s.endpoints[i], target.value.slot, r, target.value.id, s.stats), s.nextId);
      assert DispatchEvent(s, r) == DispatchEvent(s, r).(nextId := s.nextId);
    }
  }

  lemma {:induction false} ExpireAllKeeps(s: Server, now: nat, n: nat)
    requires Valid(s) && n <= |s.endpoints|
    ensures Valid(ExpireAll(s, now, n))
    ensures ExpireAll(s, now, n).boundary == s.boundary && ExpireAll(s, now, n).nextId == s.nextId
  {
    hide Endpoints.Valid, LiveCount, TotalLive, FreshIds, Expire;
    if n > 0 {
      ExpireAllKeeps(s, now, n - 1);
      var t := ExpireAll(s, now, n - 1);
      assert EndpointOk(t, n - 1);
      var e := t.endpoints[n - 1];
      ExpireKeeps(e, now, t.stats, |e.slots|);
      ExpireFresh(e, now, t.stats, |e.slots|, t.nextId);
      ReplaceKeeps(t, n - 1, Expire(e, now, t.stats, |e.slots|), t.nextId);
      assert ExpireAll(s, now, n) == ExpireAll(s, now, n).(nextId := t.nextId);
    }
  }

  /** The server is valid once the boundary counter has moved on to `sample`. */
  ghost predicate ValidAt(s: Server, sample: nat) {
    Valid(s.(boundary := Some(sample)))
  }

  lemma {:induction false} EmitAllKeeps(s: Server, sample: nat, ticks: seq<Tick>, env: Env, n: nat)
    requires Valid(s) && n <= |s.endpoints| && Enabled(s, Boundary(sample, ticks, env))
    requires forall i :: 0 <= i < |s.endpoints| ==> |s.endpoints[i].slots| <= |ticks[i].writes|
    ensures ValidAt(EmitAll(s, ticks, env, n), sample)
    ensures EmitAll(s, ticks, env, n).nextId == s.nextId
  {
    hide Endpoints.Valid, LiveCount, TotalLive, FreshIds, Emit;
    if n == 0 {
      var t := s.(boundary := Some(sample));
      forall i | 0 <= i < |t.endpoints|
        ensures EndpointOk(t, i)
      {
        assert EndpointOk(s, i);
      }
    } else {
      EmitAllKeeps(s, sample, ticks, env, n - 1);
      var t := EmitAll(s, ticks, env, n - 1);
      var u := t.(boundary := Some(sample));
      assert EndpointOk(u, n - 1);
      assert EndpointOk(s, n - 1);
      var e := s.endpoints[n - 1];
      assert t.endpoints[n - 1] == e;
      EmitKeeps(e, ticks[n - 1], env, t.stats);
      EmitFresh(e, ticks[n - 1], env, t.stats, t.nextId);
      ReplaceKeeps(u, n - 1, Emit(e, ticks[n - 1], env, t.stats), t.nextId);
      assert EmitAll(s, ticks, env, n).(boundary := Some(sample))
          == Replace(u, n - 1, Emit(e, ticks[n - 1], env, t.stats)).(nextId := t.nextId);
    }
  }

  lemma ValidSlots(s: Server)
    requires Valid(s)
    ensures forall i :: 0 <= i < |s.endpoints| ==> |s.endpoints[i].slots| == SLOTS
  {
    forall i | 0 <= i < |s.endpoints|
      ensures |s.endpoints[i].slots| == SLOTS
    {
      assert EndpointOk(s, i);
    }
  }

  lemma NextKeeps(s: Server, event: Event)
    requires Valid(s) && Enabled(s, event)
    ensures Valid(Next(s, event))
  {
    hide Valid, DispatchEvent, ExpireAll, EmitAll;
    ValidSlots(s);
    match event {
      case Dispatch(r) => DispatchKeeps(s, r);
      case Deadlines(now) => ExpireAllKeeps(s, now, |s.endpoints|);
      case Boundary(sample, ticks, env) => EmitAllKeeps(s, sample, ticks, env, |s.endpoints|);
    }
  }

  // ----- runs ------------------------------------------------------------------------------

  ghost predicate Follows(s: Server, event: Event, t: Server) {
    Valid(s) ==> Enabled(s, event) && t == Next(s, event)
  }

  /** A run: consecutive states related by enabled events. */
  ghost predicate IsRun(states: seq<Server>, events: seq<Event>) {
    && |states| == |events| + 1
    && Initial(states[0])
    && forall k :: 0 <= k < |events| ==> Follows(states[k], events[k], states[k + 1])
  }

  lemma {:induction false} TotalLiveEmpty(endpoints: seq<Endpoint>)
    requires forall i :: 0 <= i < |endpoints| ==> endpoints[i].slots == [None, None]
    ensures TotalLive(endpoints) == 0
  {
    if endpoints != [] {
      TotalLiveEmpty(endpoints[..|endpoints| - 1]);
      var slots := endpoints[|endpoints| - 1].slots;
      assert slots[..1][..0] == [] && LiveCount(slots[..1]) == 0;
    }
  }

  lemma {:induction false} RunValid(states: seq<Server>, events: seq<Event>, k: nat)
    requires IsRun(states, events) && k < |states|
    ensures Valid(states[k])
  {
    hide Endpoints.Valid, DispatchEvent, ExpireAll, EmitAll;
    if k == 0 {
      TotalLiveEmpty(states[0].endpoints);
      forall i | 0 <= i < |states[0].endpoints|
        ensures EndpointOk(states[0], i)
      {
        EmptyIsValid(states[0].endpoints[i]);
      }
    } else {
      var j := k - 1;
      RunValid(states, events, j);
      assert Follows(states[j], events[j], states[j + 1]);
      NextKeeps(states[j], events[j]);
    }
  }

  lemma EmptyIsValid(e: Endpoint)
    requires ValidConfig(e.cfg) && e.slots == [None, None] && e.retired == []
    ensures Endpoints.Valid(e)
  {
  }

  // ----- boundaries from the scheduler -----------------------------------------------------

  /** The samples of the boundary events, in order. */
  function Boundaries(events: seq<Event>): seq<nat> {
    if events == [] then []
    else
      var last := events[|events| - 1];
      Boundaries(events[..|events| - 1]) + (if last.Boundary? then [last.sample] else [])
  }

  lemma {:induction false} BoundariesPrefix(events: seq<Event>, k: nat)
    requires k <= |events|
    ensures Boundaries(events[..k]) <= Boundaries(events)
    decreases |events|
  {
    if k == |events| {
      assert events[..k] == events;
    } else {
      assert events[..|events| - 1][..k] == events[..k];
      BoundariesPrefix(events[..|events| - 1], k);
    }
  }

  lemma {:induction false} ExpireAllBoundary(s: Server, now: nat, n: nat)
    requires n <= |s.endpoints|
    ensures ExpireAll(s, now, n).boundary == s.boundary
  {
    if n > 0 {
      ExpireAllBoundary(s, now, n - 1);
    }
  }

  lemma NextBoundary(s: Server, event: Event)
    requires Valid(s) && Enabled(s, event)
    ensures Next(s, event).boundary == if event.Boundary? then Some(event.sample) else s.boundary
  {
    hide Valid, DispatchConnection, AcceptAll, EmitAll;
    if event.Deadlines? {
      ExpireAllBoundary(s, event.now, |s.endpoints|);
    }
  }

  /** The loop as it is driven: each event is carried out if it is enabled, with nothing said about order. */
  ghost predicate Driven(states: seq<Server>, events: seq<Event>) {
    && |states| == |events| + 1 && Initial(states[0])
    && forall k :: 0 <= k < |events| ==> Drives(states[k], events[k], states[k + 1])
  }

  ghost predicate Drives(s: Server, event: Event, t: Server) {
    WellShaped(s, event) && (Valid(s) && Enabled(s, event) ==> t == Next(s, event))
  }

  lemma {:induction false} DrivenIsRun(states: seq<Server>, events: seq<Event>, n: nat)
    requires Driven(states, events) && n <= |events| && Timing.StrictlyIncreasing(Boundaries(events))
    ensures IsRun(states[..n + 1], events[..n])
    ensures var b := Boundaries(events[..n]); states[n].boundary == if b == [] then None else Some(b[|b| - 1])
  {
    hide Valid, Next, Initial, WellShaped;
    if n == 0 {
      InitialBoundary(states[0]);
    } else {
      var m := n - 1;
      DrivenIsRun(states, events, m);
      RunValid(states[..n], events[..m], m);
      assert Drives(states[m], events[m], states[n]);
      assert events[..n][..m] == events[..m] && events[..n][m] == events[m];
      BoundariesPrefix(events, n);
      if events[m].Boundary? {
        LastIsGreater(Boundaries(events[..m]), events[m].sample, Boundaries(events));
      }
      assert Follows(states[m], events[m], states[n]);
      NextBoundary(states[m], events[m]);
      RunGrows(states, events, m);
    }
  }

  lemma InitialBoundary(s: Server)
    requires Initial(s)
    ensures s.boundary.None?
  {
  }

  lemma LastIsGreater(a: seq<nat>, x: nat, all: seq<nat>)
    requires a + [x] <= all && Timing.StrictlyIncreasing(all)
    ensures a != [] ==> a[|a| - 1] < x
  {
    if a != [] {
      assert all[|a| - 1] == (a + [x])[|a| - 1] && all[|a|] == (a + [x])[|a|];
    }
  }

  lemma RunGrows(states: seq<Server>, events: seq<Event>, m: nat)
    requires m < |events| && |states| == |events| + 1
    requires IsRun(states[..m + 1], events[..m]) && Follows(states[m], events[m], states[m + 1])
    ensures IsRun(states[..m + 2], events[..m + 1])
  {
    hide Follows, Initial;
    var ss, es := states[..m + 2], events[..m + 1];
    forall k | 0 <= k < |es|
      ensures Follows(ss[k], es[k], ss[k + 1])
    {
      if k < m {
        assert Follows(states[..m + 1][k], events[..m][k], states[..m + 1][k + 1]);
      }
    }
  }

  /**
    * The scheduler drives the loop: whatever instants it is polled at, below saturation, an event
    * sequence whose boundaries are the samples it hands out is a run, every boundary of it enabled.
    */
  lemma ScheduledIsRun(states: seq<Server>, events: seq<Event>, t: Timing.Ticking, instants: seq<nat>)
    requires Driven(states, events)
    requires Timing.Conserved(t) && Boundaries(events) == Timing.Ticks(t, instants).emitted
    requires forall now :: now in instants ==> Timing.CurrentIndex(t.scheduler, now) < U64_MAX
    ensures IsRun(states, events)
  {
    hide IsRun, Driven, Timing.StrictlyIncreasing;
    Timing.SamplesConserved(t, instants);
    DrivenLength(states, events);
    DrivenIsRun(states, events, |events|);
    assert states[..|events| + 1] == states && events[..|events|] == events;
  }

  lemma DrivenLength(states: seq<Server>, events: seq<Event>)
    requires Driven(states, events)
    ensures |states| == |events| + 1
  {
  }

  // ----- what every run keeps --------------------------------------------------------------

  /**
    * No torn frames, over whole runs: in every state of every run, with any partial writes,
    * pipelined commands, disconnects, deadlines and ticks, the bytes written on a connection,
    * whether still open or already closed, are whole frames followed by a prefix of the pending
    * one; each data frame is the encoding of one sample, in increasing sample order; and a
    * pending data frame still equals the shared buffer.
    */
  lemma NoTornFrames(states: seq<Server>, events: seq<Event>, k: nat, i: nat)
    requires IsRun(states, events) && k < |states| && i < |states[k].endpoints|
    ensures var e := states[k].endpoints[i];
            && (forall j :: 0 <= j < |e.slots| && e.slots[j].Some? ==>
                              && WellSent(e.cfg, e.emitted, e.slots[j].value)
                              && var c := e.slots[j].value;
                              c.pending.Sending? && c.pending.kind.DataFrame? ==>
                                c.pending.kind.sample in e.emitted && e.emitted[c.pending.kind.sample] == e.data)
            && (forall j :: 0 <= j < |e.retired| ==> WellSent(e.cfg, e.emitted, e.retired[j]))
  {
    hide IsRun;
    RunValid(states, events, k);
    assert EndpointOk(states[k], i);
    var e := states[k].endpoints[i];
    forall j | 0 <= j < |e.slots| && e.slots[j].Some?
      ensures WellSent(e.cfg, e.emitted, e.slots[j].value)
      ensures var c := e.slots[j].value;
              c.pending.Sending? && c.pending.kind.DataFrame? ==>
                c.pending.kind.sample in e.emitted && e.emitted[c.pending.kind.sample] == e.data
    {
      assert SlotLive(e, j);
    }
  }

  /** Conservation: accepted clients are closed plus connected ones, at most two per endpoint. */
  lemma ConnectionsConserved(states: seq<Server>, events: seq<Event>, k: nat)
    requires IsRun(states, events) && k < |states|
    ensures var s := states[k];
            && s.stats.accepted == s.stats.closed + TotalLive(s.endpoints)
            && TotalLive(s.endpoints) <= 2 * |s.endpoints|
  {
    hide IsRun, TotalLive;
    RunValid(states, events, k);
    ValidSlots(states[k]);
    TotalLiveBound(states[k].endpoints);
  }

  lemma {:induction false} TotalLiveBound(endpoints: seq<Endpoint>)
    requires forall i :: 0 <= i < |endpoints| ==> |endpoints[i].slots| == 2
    ensures TotalLive(endpoints) <= 2 * |endpoints|
  {
    if endpoints != [] {
      TotalLiveBound(endpoints[..|endpoints| - 1]);
      var slots := endpoints[|endpoints| - 1].slots;
      assert LiveCount(slots) == LiveCount(slots[..1]) + (if slots[1].Some? then 1 else 0);
    }
  }

  /** The closed connections of every endpoint are still known. */
  predicate Remembers(s: Server, t: Server) {
    |t.endpoints| == |s.endpoints| && forall i :: 0 <= i < |s.endpoints| ==>
                                                    s.endpoints[i].retired <= t.endpoints[i].retired
  }

  lemma {:induction false} AcceptRemembers(a: Accepting, count: nat, index: nat, sockets: seq<bool>, now: nat)
    ensures AcceptAll(a, count, index, sockets, now).endpoint.retired == a.endpoint.retired
    decreases |sockets|
  {
    hide ConnectionToken;
    if sockets != [] {
      AcceptRemembers(AcceptOne(a, count, index, sockets[0], now), count, index, sockets[1..], now);
    }
  }

  lemma DispatchRemembers(s: Server, r: Ready)
    requires Valid(s)
    ensures Remembers(s, DispatchEvent(s, r))
  {
    hide DispatchConnection, AcceptAll, EventTarget, Endpoints.Valid, LiveCount, TotalLive, FreshIds;
    var target := EventTarget(r.token, |s.endpoints|);
    if target.Some? && target.value.Listener? && target.value.endpoint < |s.endpoints| {
      var i := target.value.endpoint;
      AcceptRemembers(Accepting(s.endpoints[i], s.nextId, s.stats), |s.endpoints|, i, r.sockets, r.env.now);
    } else if target.Some? && target.value.Connection? && target.value.endpoint < |s.endpoints|
              && target.value.slot < SLOTS {
      var i := target.value.endpoint;
      assert EndpointOk(s, i);
      DispatchConnectionKeeps(s.endpoints[i], target.value.slot, r, target.value.id, s.stats, s.nextId);
    }
  }

  lemma {:induction false} ExpireRemembers(e: Endpoint, now: nat, stats: Stats, n: nat)
    requires n <= |e.slots|
    ensures e.retired <= Expire(e, now, stats, n).endpoint.retired
  {
    if n > 0 {
      ExpireRemembers(e, now, stats, n - 1);
    }
  }

  lemma {:induction false} ExpireAllRemembers(s: Server, now: nat, n: nat)
    requires n <= |s.endpoints|
    ensures Remembers(s, ExpireAll(s, now, n))
  {
    hide Expire;
    if n > 0 {
      ExpireAllRemembers(s, now, n - 1);
      var t := ExpireAll(s, now, n - 1);
      ExpireRemembers(t.endpoints[n - 1], now, t.stats, |t.endpoints[n - 1].slots|);
    }
  }

  lemma {:induction false} EmitAllRemembers(s: Server, sample: nat, ticks: seq<Tick>, env: Env, n: nat)
    requires Valid(s) && n <= |s.endpoints| && Enabled(s, Boundary(sample, ticks, env))
    requires forall i :: 0 <= i < |s.endpoints| ==> |s.endpoints[i].slots| <= |ticks[i].writes|
    ensures Remembers(s, EmitAll(s, ticks, env, n))
  {
    hide Endpoints.Valid, LiveCount, TotalLive, FreshIds, Emit;
    if n > 0 {
      EmitAllRemembers(s, sample, ticks, env, n - 1);
      assert EndpointOk(s, n - 1);
      EmitKeeps(s.endpoints[n - 1], ticks[n - 1], env, EmitAll(s, ticks, env, n - 1).stats);
    }
  }

  lemma NextRemembers(s: Server, event: Event)
    requires Valid(s) && Enabled(s, event)
    ensures Remembers(s, Next(s, event))
  {
    hide Valid, DispatchEvent, ExpireAll, EmitAll, Remembers;
    ValidSlots(s);
    match event {
      case Dispatch(r) => DispatchRemembers(s, r);
      case Deadlines(now) => ExpireAllRemembers(s, now, |s.endpoints|);
      case Boundary(sample, ticks, env) =>
        EmitAllRemembers(s, sample, ticks, env, |s.endpoints|);
        assert Remembers(s, EmitAll(s, ticks, env, |s.endpoints|).(boundary := Some(sample))) by {
          RemembersEndpoints(s, EmitAll(s, ticks, env, |s.endpoints|), Next(s, event));
        }
    }
  }

  lemma RemembersEndpoints(s: Server, t: Server, u: Server)
    requires Remembers(s, t) && u.endpoints == t.endpoints
    ensures Remembers(s, u)
  {
  }

  lemma {:induction false} RunRemembers(states: seq<Server>, events: seq<Event>, k: nat, m: nat)
    requires IsRun(states, events) && k <= m < |states|
    ensures Remembers(states[k], states[m])
  {
    hide Valid, Initial, Next, Enabled;
    if k < m {
      RunRemembers(states, events, k, m - 1);
      RunValid(states, events, m - 1);
      assert Follows(states[m - 1], events[m - 1], states[m]);
      NextRemembers(states[m - 1], events[m - 1]);
    }
  }

  /** Stale events: once a connection is closed, its token changes nothing in any later state. */
  lemma StaleEventIgnored(states: seq<Server>, events: seq<Event>, k: nat, m: nat, i: nat, j: nat, slot: nat, r: Ready)
    requires IsRun(states, events) && k <= m < |states| && i < |states[k].endpoints|
    requires j < |states[k].endpoints[i].retired| && slot < SLOTS
    requires ConnectionToken(|states[k].endpoints|, i, slot, states[k].endpoints[i].retired[j].id) == Some(r.token)
    ensures Valid(states[m]) && DispatchEvent(states[m], r) == states[m]
  {
    hide IsRun, Endpoints.Valid, ConnectionToken, EventTarget, TotalLive, LiveCount;
    RunValid(states, events, m);
    RunRemembers(states, events, k, m);
    var s := states[m];
    var e := s.endpoints[i];
    var id := e.retired[j].id;
    assert id == states[k].endpoints[i].retired[j].id;
    assert EndpointOk(s, i);
    ConnectionTokenInverts(|s.endpoints|, i, slot, id);
    assert !Occupied(e, slot, id);
    assert DispatchConnection(e, slot, r, id, s.stats) == Endpoints.Step(e, s.stats);
    assert s.endpoints[i := e] == s.endpoints;
  }

  /** A step on one slot leaves the other slot, the shared buffer and the emitted frames alone. */
  lemma SlotIsolation(e: Endpoint, slot: nat, r: Ready, id: nat, stats: Stats, peer: nat)
    requires Endpoints.Valid(e) && slot < |e.slots| && peer < |e.slots| && peer != slot
    ensures var s := DispatchConnection(e, slot, r, id, stats);
            |s.endpoint.slots| == |e.slots| && s.endpoint.slots[peer] == e.slots[peer]
            && s.endpoint.data == e.data && s.endpoint.emitted == e.emitted
  {
    hide Endpoints.Valid, ReadConnection, Flush;
    ReadableKeeps(e, slot, id, r.arrivals, r.env, stats);
    var first := if r.readable then Readable(e, slot, id, r.arrivals, r.env, stats) else Endpoints.Step(e, stats);
    ValidIsFlushable(first.endpoint, slot);
  }
}

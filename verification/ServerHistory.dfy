/** What the events of the loop do to one endpoint: its slots, its configuration and what it has emitted. */
module ServerHistory {
  import opened Bytes
  import opened Connections
  import opened Endpoints
  import Server
  import SlotTick
  import Tokens

  // ----- all endpoints, seen at one --------------------------------------------------------

  lemma {:induction false} ExpireAllOn(s: Server.Server, now: nat, n: nat, i: nat) returns (seen: Stats)
    requires n <= |s.endpoints| && i < |s.endpoints|
    ensures Server.ExpireAll(s, now, n).endpoints[i]
         == if i < n then Expire(s.endpoints[i], now, seen, |s.endpoints[i].slots|).endpoint else s.endpoints[i]
  {
    hide Expire;
    seen := s.stats;
    if n > 0 {
      seen := ExpireAllOn(s, now, n - 1, i);
      if i == n - 1 {
        seen := Server.ExpireAll(s, now, n - 1).stats;
      }
    }
  }

  lemma {:induction false} EmitAllOn(s: Server.Server, ticks: seq<Tick>, env: Env, n: nat, i: nat) returns (seen: Stats)
    requires n <= |s.endpoints| <= |ticks| && i < |s.endpoints|
    requires forall k :: 0 <= k < |s.endpoints| ==> |s.endpoints[k].slots| <= |ticks[k].writes|
    ensures Server.EmitAll(s, ticks, env, n).endpoints[i]
         == if i < n then Emit(s.endpoints[i], ticks[i], env, seen).endpoint else s.endpoints[i]
  {
    hide Emit;
    seen := s.stats;
    if n > 0 {
      seen := EmitAllOn(s, ticks, env, n - 1, i);
      if i == n - 1 {
        seen := Server.EmitAll(s, ticks, env, n - 1).stats;
      }
    }
  }

  /** A tick changes neither the configuration nor the number of slots. */
  lemma EmitShape(e: Endpoint, tick: Tick, env: Env, stats: Stats)
    requires |e.slots| <= |tick.writes|
    ensures Emit(e, tick, env, stats).endpoint.cfg == e.cfg && |Emit(e, tick, env, stats).endpoint.slots| == |e.slots|
  {
    hide Flush;
    var n := |e.slots|;
    DisconnectShape(e, tick.disconnect, stats, n);
    var d := Disconnect(e, tick.disconnect, stats, n);
    EvictShape(d.endpoint, d.stats, n);
    var v := Evict(d.endpoint, d.stats, n);
    SendShape(Rewrite(v.endpoint, tick.sample, tick.frame), tick.sample, tick.writes, env, v.stats, n);
  }

  lemma {:induction false} DisconnectShape(e: Endpoint, ids: set<nat>, stats: Stats, n: nat)
    requires n <= |e.slots|
    ensures Disconnect(e, ids, stats, n).endpoint.cfg == e.cfg
  {
    if n > 0 {
      DisconnectShape(e, ids, stats, n - 1);
    }
  }

  lemma {:induction false} EvictShape(e: Endpoint, stats: Stats, n: nat)
    requires n <= |e.slots|
    ensures Evict(e, stats, n).endpoint.cfg == e.cfg
  {
    if n > 0 {
      EvictShape(e, stats, n - 1);
    }
  }

  lemma {:induction false} SendShape(e: Endpoint, sample: nat, writes: seq<WriteOutcome>, env: Env, stats: Stats,
                                     n: nat)
    requires n <= |e.slots| <= |writes|
    ensures Send(e, sample, writes, env, stats, n).endpoint.cfg == e.cfg
  {
    hide Flush;
    if n > 0 {
      SendShape(e, sample, writes, env, stats, n - 1);
    }
  }

  // ----- accepting -------------------------------------------------------------------------

  lemma {:induction false} AcceptSpares(a: Accepting, count: nat, index: nat, sockets: seq<bool>, now: nat, i: nat)
    requires i < |a.endpoint.slots| && a.endpoint.slots[i].Some?
    ensures SlotTick.SameSlot(a.endpoint, AcceptAll(a, count, index, sockets, now).endpoint, i)
    decreases |sockets|
  {
    hide Tokens.ConnectionToken;
    if sockets != [] {
      AcceptSpares(AcceptOne(a, count, index, sockets[0], now), count, index, sockets[1..], now, i);
    }
  }

  /** An empty slot stays empty or takes a new connection. */
  lemma {:induction false} AcceptFills(a: Accepting, count: nat, index: nat, sockets: seq<bool>, now: nat, i: nat)
    requires i < |a.endpoint.slots| && a.endpoint.slots[i].None?
    ensures var b := AcceptAll(a, count, index, sockets, now).endpoint;
            && |b.slots| == |a.endpoint.slots|
            && (b.slots[i].Some? ==> b.slots[i] == Some(NewConnection(b.slots[i].value.id, now)))
    decreases |sockets|
  {
    hide Tokens.ConnectionToken;
    if sockets != [] {
      var b := AcceptOne(a, count, index, sockets[0], now);
      if b.endpoint.slots[i].Some? {
        AcceptSpares(b, count, index, sockets[1..], now, i);
      } else {
        AcceptFills(b, count, index, sockets[1..], now, i);
      }
    }
  }

  /** Only accepting fills an empty slot, and it fills it with a new connection. */
  lemma FilledIsNew(s: Server.Server, r: Server.Ready, x: nat, i: nat)
    requires Server.Valid(s) && x < |s.endpoints| && i < |s.endpoints[x].slots| && s.endpoints[x].slots[i].None?
    ensures |Server.DispatchEvent(s, r).endpoints| == |s.endpoints|
    ensures |Server.DispatchEvent(s, r).endpoints[x].slots| == |s.endpoints[x].slots|
    ensures var c := Server.DispatchEvent(s, r).endpoints[x].slots[i];
            c.Some? ==> c == Some(NewConnection(c.value.id, r.env.now))
  {
    hide AcceptAll, Tokens.EventTarget, Endpoints.Valid, LiveCount, Server.TotalLive, Server.FreshIds,
      ReadConnection, Flush;
    var target := Tokens.EventTarget(r.token, |s.endpoints|);
    assert Server.EndpointOk(s, x);
    if target.Some? && target.value.Listener? {
      AcceptFills(Accepting(s.endpoints[x], s.nextId, s.stats), |s.endpoints|, x, r.sockets, r.env.now, i);
    } else if target.Some? && target.value.Connection? && target.value.endpoint == x
              && target.value.slot < Tokens.SLOTS {
      if target.value.slot != i {
        Server.SlotIsolation(s.endpoints[x], target.value.slot, r, target.value.id, s.stats, i);
      }
    }
  }

  // ----- what an endpoint has emitted ------------------------------------------------------

  lemma {:induction false} AcceptEmits(a: Accepting, count: nat, index: nat, sockets: seq<bool>, now: nat)
    ensures AcceptAll(a, count, index, sockets, now).endpoint.emitted == a.endpoint.emitted
    ensures AcceptAll(a, count, index, sockets, now).endpoint.cfg == a.endpoint.cfg
    decreases |sockets|
  {
    hide Tokens.ConnectionToken;
    if sockets != [] {
      AcceptEmits(AcceptOne(a, count, index, sockets[0], now), count, index, sockets[1..], now);
    }
  }

  lemma DispatchEmits(s: Server.Server, r: Server.Ready, x: nat)
    requires Server.Valid(s) && x < |s.endpoints|
    ensures |Server.DispatchEvent(s, r).endpoints| == |s.endpoints|
    ensures Server.DispatchEvent(s, r).endpoints[x].emitted == s.endpoints[x].emitted
    ensures Server.DispatchEvent(s, r).endpoints[x].cfg == s.endpoints[x].cfg
  {
    hide Server.DispatchConnection, AcceptAll, Tokens.EventTarget, Endpoints.Valid, LiveCount, Server.TotalLive,
      Server.FreshIds;
    var target := Tokens.EventTarget(r.token, |s.endpoints|);
    assert Server.EndpointOk(s, x);
    if target.Some? && target.value.Listener? {
      AcceptEmits(Accepting(s.endpoints[x], s.nextId, s.stats), |s.endpoints|, x, r.sockets, r.env.now);
    } else if target.Some? && target.value.Connection? && target.value.endpoint == x
              && target.value.slot < Tokens.SLOTS {
      Server.DispatchConnectionKeeps(s.endpoints[x], target.value.slot, r, target.value.id, s.stats, s.nextId);
    }
  }

  lemma {:induction false} ExpireEmits(e: Endpoint, now: nat, stats: Stats, n: nat)
    requires n <= |e.slots|
    ensures Expire(e, now, stats, n).endpoint.emitted == e.emitted && Expire(e, now, stats, n).endpoint.cfg == e.cfg
  {
    if n > 0 {
      ExpireEmits(e, now, stats, n - 1);
    }
  }

  /** Between boundaries nothing is emitted. */
  lemma LoopEmits(s: Server.Server, e: Server.Event, x: nat)
    requires Server.Valid(s) && Server.Enabled(s, e) && !e.Boundary? && x < |s.endpoints|
    ensures |Server.Next(s, e).endpoints| == |s.endpoints|
    ensures Server.Next(s, e).endpoints[x].emitted == s.endpoints[x].emitted
    ensures Server.Next(s, e).endpoints[x].cfg == s.endpoints[x].cfg
  {
    hide Server.Valid, Server.DispatchEvent, Server.ExpireAll, Expire;
    match e {
      case Dispatch(r) => DispatchEmits(s, r, x);
      case Deadlines(now) =>
        var seen := ExpireAllOn(s, now, |s.endpoints|, x);
        ExpireEmits(s.endpoints[x], now, seen, |s.endpoints[x].slots|);
    }
  }
}

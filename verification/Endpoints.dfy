/**
  * An endpoint: two PDC slots sharing one periodic-data buffer that every tick rewrites.
  *
  * `emitted` records the frame encoded for each sample and `retired` the connections closed so
  * far; both are histories that no step reads.
  */
module Endpoints {
  import opened Bytes
  import opened Frames
  import opened Receive
  import opened Connections
  import Tokens

  datatype Endpoint = Endpoint(
    cfg: Config,
    data: seq<byte>,
    slots: seq<Option<Connection>>,
    emitted: Emitted,
    retired: seq<Connection>)

  datatype Step = Step(endpoint: Endpoint, stats: Stats)

  // ----- slots -----------------------------------------------------------------------------

  function Put(e: Endpoint, slot: nat, c: Connection): Endpoint
    requires slot < |e.slots|
  {
    e.(slots := e.slots[slot := Some(c)])
  }

  predicate Occupied(e: Endpoint, slot: nat, id: nat)
    requires slot < |e.slots|
  {
    e.slots[slot].Some? && e.slots[slot].value.id == id
  }

  /** `close_connection`: only the connection with the given id is closed. */
  function Close(e: Endpoint, slot: nat, id: nat, stats: Stats): Step
    requires slot < |e.slots|
  {
    if !Occupied(e, slot, id) then Step(e, stats)
    else Step(e.(slots := e.slots[slot := None], retired := e.retired + [e.slots[slot].value]),
              stats.(closed := stats.closed + 1))
  }

  /** The connection after a step, closed if the step said so. */
  function Settle(e: Endpoint, slot: nat, served: Served): Step
    requires slot < |e.slots|
  {
    if served.open then Step(Put(e, slot, served.connection), served.stats)
    else Close(Put(e, slot, served.connection), slot, served.connection.id, served.stats)
  }

  /** A readable event; an event for a connection that no longer holds the slot is ignored. */
  function Readable(e: Endpoint, slot: nat, id: nat, arrivals: seq<ReadOutcome>, env: Env, stats: Stats): Step
    requires slot < |e.slots|
  {
    hide ReadConnection;
    if !Occupied(e, slot, id) then Step(e, stats)
    else Settle(e, slot, ReadConnection(e.cfg, e.slots[slot].value, arrivals, env, stats))
  }

  predicate Flushable(e: Endpoint, slot: nat)
    requires slot < |e.slots|
  {
    e.slots[slot].Some? && e.slots[slot].value.pending.Sending? ==> Fits(e.cfg, e.slots[slot].value.pending.kind)
  }

  function Writable(e: Endpoint, slot: nat, id: nat, outcome: WriteOutcome, env: Env, stats: Stats): Step
    requires slot < |e.slots| && Flushable(e, slot)
  {
    hide Flush;
    if !Occupied(e, slot, id) then Step(e, stats)
    else Settle(e, slot, Flush(e.cfg, e.data, e.slots[slot].value, outcome, env, stats))
  }

  /** `expire_connections` on the first `n` slots. */
  function Expire(e: Endpoint, now: nat, stats: Stats, n: nat): Step
    requires n <= |e.slots|
    ensures |Expire(e, now, stats, n).endpoint.slots| == |e.slots|
  {
    if n == 0 then Step(e, stats)
    else
      var s := Expire(e, now, stats, n - 1);
      var slot := s.endpoint.slots[n - 1];
      if slot.Some? && DeadlineExpired(slot.value, now) then Close(s.endpoint, n - 1, slot.value.id, s.stats) else s
  }

  // ----- accepting -------------------------------------------------------------------------

  datatype Accepting = Accepting(endpoint: Endpoint, nextId: nat, stats: Stats)

  /** The first empty slot at or after `from`. */
  function FreeSlot(slots: seq<Option<Connection>>, from: nat): (slot: Option<nat>)
    ensures slot.Some? ==> from <= slot.value < |slots| && slots[slot.value].None?
    ensures slot.Some? ==> forall i :: from <= i < slot.value ==> slots[i].Some?
    ensures slot.None? ==> forall i :: from <= i < |slots| ==> slots[i].Some?
    decreases |slots| - from
  {
    if from >= |slots| then None
    else if slots[from].None? then Some(from) else FreeSlot(slots, from + 1)
  }

  /** One accepted socket; `configured` says whether setting it up succeeded. */
  function AcceptOne(a: Accepting, count: nat, index: nat, configured: bool, now: nat): Accepting {
    var rejected := a.(stats := a.stats.(rejected := a.stats.rejected + 1));
    var slot := FreeSlot(a.endpoint.slots, 0);
    if slot.None? || a.nextId + 1 > U64_MAX then rejected
    else if Tokens.ConnectionToken(count, index, slot.value, a.nextId).None? || !configured then rejected
    else Accepting(Put(a.endpoint, slot.value, NewConnection(a.nextId, now)), a.nextId + 1,
                   a.stats.(accepted := a.stats.accepted + 1))
  }

  function AcceptAll(a: Accepting, count: nat, index: nat, sockets: seq<bool>, now: nat): Accepting
    decreases |sockets|
  {
    if sockets == [] then a
    else AcceptAll(AcceptOne(a, count, index, sockets[0], now), count, index, sockets[1..], now)
  }

  // ----- a tick ----------------------------------------------------------------------------

  /** The frame plan of one endpoint for one tick, with the frame encoded for the sample. */
  datatype Tick = Tick(sample: nat, frame: seq<byte>, omit: bool, disconnect: set<nat>, writes: seq<WriteOutcome>)

  /** Planned PDC disconnects on the first `n` slots. */
  function Disconnect(e: Endpoint, ids: set<nat>, stats: Stats, n: nat): Step
    requires n <= |e.slots|
    ensures |Disconnect(e, ids, stats, n).endpoint.slots| == |e.slots|
  {
    if n == 0 then Step(e, stats)
    else
      var s := Disconnect(e, ids, stats, n - 1);
      var slot := s.endpoint.slots[n - 1];
      if slot.Some? && slot.value.id in ids then Close(s.endpoint, n - 1, slot.value.id, s.stats) else s
  }

  /** Slow-client eviction on the first `n` slots: streaming with a frame still pending. */
  function Evict(e: Endpoint, stats: Stats, n: nat): Step
    requires n <= |e.slots|
    ensures |Evict(e, stats, n).endpoint.slots| == |e.slots|
  {
    if n == 0 then Step(e, stats)
    else
      var s := Evict(e, stats, n - 1);
      var slot := s.endpoint.slots[n - 1];
      if slot.Some? && slot.value.streaming && slot.value.pending.Sending? then
        Close(s.endpoint, n - 1, slot.value.id, s.stats.(slow := s.stats.slow + 1))
      else s
  }

  predicate AnyStreaming(e: Endpoint) {
    exists i :: 0 <= i < |e.slots| && e.slots[i].Some? && e.slots[i].value.streaming
  }

  /** The shared buffer is overwritten with the frame of a new sample. */
  function Rewrite(e: Endpoint, sample: nat, frame: seq<byte>): Endpoint {
    e.(data := frame, emitted := e.emitted[sample := frame])
  }

  /** Queue the shared buffer on the first `n` slots that stream, and flush each once. */
  function Send(e: Endpoint, sample: nat, writes: seq<WriteOutcome>, env: Env, stats: Stats, n: nat): Step
    requires n <= |e.slots| <= |writes|
    ensures |Send(e, sample, writes, env, stats, n).endpoint.slots| == |e.slots|
  {
    hide Flush;
    if n == 0 then Step(e, stats)
    else
      var s := Send(e, sample, writes, env, stats, n - 1);
      var slot := s.endpoint.slots[n - 1];
      if slot.None? || !slot.value.streaming then s
      else
        var queued := slot.value.(pending := Sending(DataFrame(sample), 0));
        Settle(s.endpoint, n - 1, Flush(e.cfg, s.endpoint.data, queued, writes[n - 1], env, s.stats))
  }

  /** `emit_data` for one endpoint. */
  function Emit(e: Endpoint, tick: Tick, env: Env, stats: Stats): Step
    requires |e.slots| <= |tick.writes|
  {
    hide Send, Evict, Disconnect;
    var d := Disconnect(e, tick.disconnect, stats, |e.slots|);
    var v := Evict(d.endpoint, d.stats, |e.slots|);
    if !AnyStreaming(v.endpoint) || tick.omit then v
    else Send(Rewrite(v.endpoint, tick.sample, tick.frame), tick.sample, tick.writes, env, v.stats, |e.slots|)
  }

  // ----- invariant -------------------------------------------------------------------------

  ghost predicate SlotLive(e: Endpoint, i: nat)
    requires i < |e.slots|
  {
    e.slots[i].Some? ==> Live(e.cfg, e.data, e.emitted, e.slots[i].value)
  }

  /** Every live connection keeps its invariant, and every retired one was never torn. */
  ghost predicate Valid(e: Endpoint) {
    && ValidConfig(e.cfg)
    && (forall i :: 0 <= i < |e.slots| ==> SlotLive(e, i))
    && (forall i :: 0 <= i < |e.retired| ==> WellSent(e.cfg, e.emitted, e.retired[i]))
  }

  function LiveCount(slots: seq<Option<Connection>>): nat {
    if slots == [] then 0 else LiveCount(slots[..|slots| - 1]) + (if slots[|slots| - 1].Some? then 1 else 0)
  }

  lemma {:induction false} LiveCountUpdate(slots: seq<Option<Connection>>, i: nat, c: Option<Connection>)
    requires i < |slots|
    ensures LiveCount(slots[i := c])
         == LiveCount(slots) - (if slots[i].Some? then 1 else 0) + (if c.Some? then 1 else 0)
  {
    var n := |slots| - 1;
    if i == n {
      assert slots[i := c][..n] == slots[..n];
    } else {
      LiveCountUpdate(slots[..n], i, c);
      assert slots[i := c][..n] == slots[..n][i := c];
    }
  }

  /** Clients accepted equal clients closed plus clients connected. */
  predicate Balanced(e: Endpoint, stats: Stats, f: Endpoint, stats': Stats) {
    stats'.accepted - stats'.closed - LiveCount(f.slots) == stats.accepted - stats.closed - LiveCount(e.slots)
  }

  /** What every step keeps: the invariant, the configuration, the balance and the slot count. */
  ghost predicate Kept(e: Endpoint, stats: Stats, s: Step) {
    && Valid(s.endpoint) && s.endpoint.cfg == e.cfg && |s.endpoint.slots| == |e.slots|
    && Balanced(e, stats, s.endpoint, s.stats)
    && s.endpoint.emitted == e.emitted && s.endpoint.data == e.data
    && e.retired <= s.endpoint.retired
  }

  lemma CloseKeeps(e: Endpoint, slot: nat, id: nat, stats: Stats)
    requires slot < |e.slots|
    requires forall i :: 0 <= i < |e.slots| && i != slot ==> SlotLive(e, i)
    requires ValidConfig(e.cfg) && forall i :: 0 <= i < |e.retired| ==> WellSent(e.cfg, e.emitted, e.retired[i])
    requires e.slots[slot].Some? && e.slots[slot].value.id == id && WellSent(e.cfg, e.emitted, e.slots[slot].value)
    ensures Kept(e, stats, Close(e, slot, id, stats))
  {
    hide Live, WellSent, LiveCount;
    LiveCountUpdate(e.slots, slot, None);
    var f := Close(e, slot, id, stats).endpoint;
    forall i | 0 <= i < |f.slots|
      ensures SlotLive(f, i)
    {
      assert i != slot ==> SlotLive(e, i);
    }
  }

  lemma SettleKeeps(e: Endpoint, slot: nat, served: Served, stats: Stats)
    requires Valid(e) && slot < |e.slots| && e.slots[slot].Some?
    requires WellSent(e.cfg, e.emitted, served.connection)
    requires served.open ==> Live(e.cfg, e.data, e.emitted, served.connection)
    requires served.stats.accepted == stats.accepted && served.stats.closed == stats.closed
    ensures Kept(e, stats, Settle(e, slot, served))
  {
    hide Live, WellSent, LiveCount;
    var f := Put(e, slot, served.connection);
    LiveCountUpdate(e.slots, slot, Some(served.connection));
    forall i | 0 <= i < |f.slots| && (i != slot || served.open)
      ensures SlotLive(f, i)
    {
      assert i != slot ==> SlotLive(e, i);
    }
    if !served.open {
      CloseKeeps(f, slot, served.connection.id, served.stats);
    }
  }

  lemma ReadableKeeps(e: Endpoint, slot: nat, id: nat, arrivals: seq<ReadOutcome>, env: Env, stats: Stats)
    requires Valid(e) && slot < |e.slots|
    ensures Kept(e, stats, Readable(e, slot, id, arrivals, env, stats))
  {
    hide Live, WellSent, LiveCount, ReadConnection, Settle;
    if Occupied(e, slot, id) {
      assert SlotLive(e, slot);
      ReadKeeps(e.cfg, e.data, e.emitted, e.slots[slot].value, arrivals, env, stats);
      LiveIsWellSent(e.cfg, e.data, e.emitted,
                     ReadConnection(e.cfg, e.slots[slot].value, arrivals, env, stats).connection);
      SettleKeeps(e, slot, ReadConnection(e.cfg, e.slots[slot].value, arrivals, env, stats), stats);
    }
  }

  /** The `unreachable!` arms of the flush are not reached in a valid endpoint. */
  lemma ValidIsFlushable(e: Endpoint, slot: nat)
    requires Valid(e) && slot < |e.slots|
    ensures Flushable(e, slot)
  {
    assert SlotLive(e, slot);
  }

  lemma WritableKeeps(e: Endpoint, slot: nat, id: nat, outcome: WriteOutcome, env: Env, stats: Stats)
    requires Valid(e) && slot < |e.slots|
    ensures Flushable(e, slot)
    ensures Kept(e, stats, Writable(e, slot, id, outcome, env, stats))
  {
    hide Live, WellSent, LiveCount, Flush, Settle;
    ValidIsFlushable(e, slot);
    if Occupied(e, slot, id) {
      assert SlotLive(e, slot);
      FlushKeeps(e.cfg, e.data, e.emitted, e.slots[slot].value, outcome, env, stats);
      SettleKeeps(e, slot, Flush(e.cfg, e.data, e.slots[slot].value, outcome, env, stats), stats);
    }
  }

  lemma CloseLiveKeeps(e: Endpoint, slot: nat, id: nat, stats: Stats)
    requires Valid(e) && slot < |e.slots| && Occupied(e, slot, id)
    ensures Kept(e, stats, Close(e, slot, id, stats))
  {
    hide Live, WellSent, LiveCount, Close;
    assert SlotLive(e, slot);
    LiveIsWellSent(e.cfg, e.data, e.emitted, e.slots[slot].value);
    CloseKeeps(e, slot, id, stats);
  }

  lemma {:induction false} ExpireKeeps(e: Endpoint, now: nat, stats: Stats, n: nat)
    requires Valid(e) && n <= |e.slots|
    ensures Kept(e, stats, Expire(e, now, stats, n))
  {
    hide Valid, LiveCount, Close;
    if n > 0 {
      ExpireKeeps(e, now, stats, n - 1);
      var s := Expire(e, now, stats, n - 1);
      var slot := s.endpoint.slots[n - 1];
      if slot.Some? && DeadlineExpired(slot.value, now) {
        CloseLiveKeeps(s.endpoint, n - 1, slot.value.id, s.stats);
      }
    }
  }

  lemma {:induction false} DisconnectKeeps(e: Endpoint, ids: set<nat>, stats: Stats, n: nat)
    requires Valid(e) && n <= |e.slots|
    ensures Kept(e, stats, Disconnect(e, ids, stats, n))
  {
    hide Valid, LiveCount, Close;
    if n > 0 {
      DisconnectKeeps(e, ids, stats, n - 1);
      var s := Disconnect(e, ids, stats, n - 1);
      var slot := s.endpoint.slots[n - 1];
      if slot.Some? && slot.value.id in ids {
        CloseLiveKeeps(s.endpoint, n - 1, slot.value.id, s.stats);
      }
    }
  }

  /** No connection of the first `n` slots has a data frame pending. */
  predicate Quiescent(e: Endpoint, n: nat) {
    forall i :: 0 <= i < n && i < |e.slots| && e.slots[i].Some? ==>
                  !(e.slots[i].value.pending.Sending? && e.slots[i].value.pending.kind.DataFrame?)
                  && (e.slots[i].value.streaming ==> e.slots[i].value.pending.Idle?)
  }

  /** Eviction leaves no data frame in flight: a pending data frame implies streaming. */
  lemma {:induction false} EvictKeeps(e: Endpoint, stats: Stats, n: nat)
    requires Valid(e) && n <= |e.slots|
    ensures Kept(e, stats, Evict(e, stats, n))
    ensures Quiescent(Evict(e, stats, n).endpoint, n)
  {
    hide Valid, LiveCount;
    if n > 0 {
      EvictKeeps(e, stats, n - 1);
      var s := Evict(e, stats, n - 1);
      var slot := s.endpoint.slots[n - 1];
      if slot.Some? && slot.value.streaming && slot.value.pending.Sending? {
        CloseLiveKeeps(s.endpoint, n - 1, slot.value.id, s.stats.(slow := s.stats.slow + 1));
      } else if slot.Some? {
        DataImpliesStreaming(s.endpoint, n - 1);
      }
    }
  }

  lemma DataImpliesStreaming(e: Endpoint, slot: nat)
    requires Valid(e) && slot < |e.slots| && e.slots[slot].Some?
    ensures var c := e.slots[slot].value; c.pending.Sending? && c.pending.kind.DataFrame? ==> c.streaming
  {
    assert SlotLive(e, slot);
  }

  /**
    * Rewriting the shared buffer is safe once no data frame is in flight: no connection's pending
    * frame changes under it, and every frame already sent keeps its own sample.
    */
  lemma RewriteKeeps(e: Endpoint, sample: nat, frame: seq<byte>)
    requires Valid(e) && Quiescent(e, |e.slots|) && sample !in e.emitted
    ensures Valid(Rewrite(e, sample, frame))
  {
    hide WellSent;
    var f := Rewrite(e, sample, frame);
    forall i | 0 <= i < |f.slots|
      ensures SlotLive(f, i)
    {
      assert SlotLive(e, i);
      if e.slots[i].Some? {
        LiveSurvivesRewrite(e.cfg, e.data, e.emitted, e.slots[i].value, sample, frame);
      }
    }
    forall i | 0 <= i < |f.retired|
      ensures WellSent(f.cfg, f.emitted, f.retired[i])
    {
      WellSentGrows(e.cfg, e.emitted, sample, frame, e.retired[i]);
    }
  }

  lemma LiveSurvivesRewrite(cfg: Config, data: seq<byte>, emitted: Emitted, c: Connection, sample: nat,
                            frame: seq<byte>)
    requires Live(cfg, data, emitted, c) && sample !in emitted
    requires !(c.pending.Sending? && c.pending.kind.DataFrame?)
    ensures Live(cfg, frame, emitted[sample := frame], c)
  {
    hide Rising, Transcript;
    WellSentGrows(cfg, emitted, sample, frame, c);
  }

  /** Queueing the shared buffer on an idle streaming connection. */
  lemma QueueDataKeeps(cfg: Config, data: seq<byte>, emitted: Emitted, c: Connection, sample: nat)
    requires Live(cfg, data, emitted, c) && c.pending.Idle? && c.streaming && data != []
    requires sample in emitted && emitted[sample] == data
    requires forall i :: 0 <= i < |c.delivered| && c.delivered[i].DataFrame? ==> c.delivered[i].sample < sample
    ensures Live(cfg, data, emitted, c.(pending := Sending(DataFrame(sample), 0)))
  {
    hide Transcript;
    var d := c.(pending := Sending(DataFrame(sample), 0));
    assert InFlight(c) == c.delivered;
    assert Rising(c.delivered + [DataFrame(sample)]);
    hide Rising;
    QueueKeeps(cfg, data, emitted, c, d, DataFrame(sample));
  }

  /** Slots not yet served are idle if they stream and have only earlier samples behind them. */
  predicate Waiting(e: Endpoint, sample: nat, n: nat) {
    forall i :: n <= i < |e.slots| && e.slots[i].Some? ==>
                  && (e.slots[i].value.streaming ==> e.slots[i].value.pending.Idle?)
                  && Before(e.slots[i].value.delivered, sample)
  }

  predicate Before(kinds: seq<FrameKind>, sample: nat) {
    forall k :: 0 <= k < |kinds| && kinds[k].DataFrame? ==> kinds[k].sample < sample
  }

  lemma SendSlotKeeps(e: Endpoint, slot: nat, sample: nat, outcome: WriteOutcome, env: Env, stats: Stats)
    requires Valid(e) && slot < |e.slots| && e.slots[slot].Some? && e.slots[slot].value.streaming && e.data != []
    requires sample in e.emitted && e.emitted[sample] == e.data && Waiting(e, sample, slot)
    ensures var queued := e.slots[slot].value.(pending := Sending(DataFrame(sample), 0));
            var s := Settle(e, slot, Flush(e.cfg, e.data, queued, outcome, env, stats));
            && Kept(e, stats, s)
            && forall i :: 0 <= i < |e.slots| && i != slot ==> s.endpoint.slots[i] == e.slots[i]
  {
    hide Live, WellSent, LiveCount, Flush, Waiting;
    var queued := e.slots[slot].value.(pending := Sending(DataFrame(sample), 0));
    QueueSlotKeeps(e, slot, sample);
    FlushKeeps(e.cfg, e.data, e.emitted, queued, outcome, env, stats);
    SettleKeeps(e, slot, Flush(e.cfg, e.data, queued, outcome, env, stats), stats);
  }

  lemma {:induction false} SendKeeps(e: Endpoint, sample: nat, writes: seq<WriteOutcome>, env: Env, stats: Stats,
                                     n: nat)
    requires Valid(e) && n <= |e.slots| <= |writes| && e.data != []
    requires sample in e.emitted && e.emitted[sample] == e.data && Waiting(e, sample, 0)
    ensures Kept(e, stats, Send(e, sample, writes, env, stats, n))
    ensures Waiting(Send(e, sample, writes, env, stats, n).endpoint, sample, n)
  {
    hide Valid, LiveCount, Flush, Before, Settle;
    if n > 0 {
      SendKeeps(e, sample, writes, env, stats, n - 1);
      var s := Send(e, sample, writes, env, stats, n - 1);
      var f := s.endpoint;
      var slot := f.slots[n - 1];
      if slot.Some? && slot.value.streaming {
        SendSlotKeeps(f, n - 1, sample, writes[n - 1], env, s.stats);
      }
    }
  }

  lemma QueueSlotKeeps(e: Endpoint, slot: nat, sample: nat)
    requires Valid(e) && slot < |e.slots| && e.slots[slot].Some? && e.slots[slot].value.streaming && e.data != []
    requires sample in e.emitted && e.emitted[sample] == e.data && Waiting(e, sample, slot)
    ensures Live(e.cfg, e.data, e.emitted, e.slots[slot].value.(pending := Sending(DataFrame(sample), 0)))
  {
    hide Live;
    assert SlotLive(e, slot);
    QueueDataKeeps(e.cfg, e.data, e.emitted, e.slots[slot].value, sample);
  }

  /** Samples are issued in increasing order. */
  predicate Fresh(e: Endpoint, sample: nat) {
    forall k :: k in e.emitted ==> k < sample
  }

  lemma FreshIsWaiting(e: Endpoint, sample: nat, frame: seq<byte>)
    requires Valid(e) && Quiescent(e, |e.slots|) && Fresh(e, sample)
    ensures Waiting(Rewrite(e, sample, frame), sample, 0)
  {
    forall i | 0 <= i < |e.slots| && e.slots[i].Some?
      ensures Before(e.slots[i].value.delivered, sample)
    {
      assert SlotLive(e, i);
      var kinds := e.slots[i].value.delivered;
      assert forall k :: 0 <= k < |kinds| ==> Known(e.cfg, e.emitted, kinds[k]);
    }
  }

  /** A tick keeps the invariant; it extends the emitted samples by at most its own. */
  lemma EmitKeeps(e: Endpoint, tick: Tick, env: Env, stats: Stats)
    requires Valid(e) && |e.slots| <= |tick.writes| && Fresh(e, tick.sample) && tick.frame != []
    ensures var s := Emit(e, tick, env, stats);
            && Valid(s.endpoint) && s.endpoint.cfg == e.cfg && |s.endpoint.slots| == |e.slots|
            && Balanced(e, stats, s.endpoint, s.stats) && e.retired <= s.endpoint.retired
            && (|| (s.endpoint.emitted == e.emitted && s.endpoint.data == e.data)
                || (s.endpoint.emitted == e.emitted[tick.sample := tick.frame] && s.endpoint.data == tick.frame))
  {
    hide Valid, LiveCount, Send, Evict, Disconnect, Waiting, Quiescent;
    DisconnectKeeps(e, tick.disconnect, stats, |e.slots|);
    var d := Disconnect(e, tick.disconnect, stats, |e.slots|);
    EvictKeeps(d.endpoint, d.stats, |e.slots|);
    var v := Evict(d.endpoint, d.stats, |e.slots|);
    if AnyStreaming(v.endpoint) && !tick.omit {
      RewriteKeeps(v.endpoint, tick.sample, tick.frame);
      FreshIsWaiting(v.endpoint, tick.sample, tick.frame);
      SendKeeps(Rewrite(v.endpoint, tick.sample, tick.frame), tick.sample, tick.writes, env, v.stats, |e.slots|);
    }
  }

  lemma AcceptOneKeeps(a: Accepting, count: nat, index: nat, configured: bool, now: nat)
    requires Valid(a.endpoint)
    ensures var b := AcceptOne(a, count, index, configured, now);
            Kept(a.endpoint, a.stats, Step(b.endpoint, b.stats)) && a.nextId <= b.nextId
  {
    hide Live, LiveCount, Tokens.ConnectionToken;
    var slot := FreeSlot(a.endpoint.slots, 0);
    if slot.Some? {
      LiveCountUpdate(a.endpoint.slots, slot.value, Some(NewConnection(a.nextId, now)));
      NewIsLive(a.endpoint.cfg, a.endpoint.data, a.endpoint.emitted, a.nextId, now);
      var f := Put(a.endpoint, slot.value, NewConnection(a.nextId, now));
      forall i | 0 <= i < |f.slots|
        ensures SlotLive(f, i)
      {
        assert i != slot.value ==> SlotLive(a.endpoint, i);
      }
    }
  }

  lemma NewIsLive(cfg: Config, data: seq<byte>, emitted: Emitted, id: nat, now: nat)
    ensures Live(cfg, data, emitted, NewConnection(id, now))
  {
  }

  lemma {:induction false} AcceptAllKeeps(a: Accepting, count: nat, index: nat, sockets: seq<bool>, now: nat)
    requires Valid(a.endpoint)
    ensures var b := AcceptAll(a, count, index, sockets, now);
            Kept(a.endpoint, a.stats, Step(b.endpoint, b.stats)) && a.nextId <= b.nextId
    decreases |sockets|
  {
    hide Valid, LiveCount, AcceptOne;
    if sockets != [] {
      AcceptOneKeeps(a, count, index, sockets[0], now);
      AcceptAllKeeps(AcceptOne(a, count, index, sockets[0], now), count, index, sockets[1..], now);
    }
  }
}

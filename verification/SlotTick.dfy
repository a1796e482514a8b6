/** What a whole tick of an endpoint does to one of its slots. */
module SlotTick {
  import opened Bytes
  import opened Frames
  import opened Connections
  import opened Endpoints

  /** Slot `i` and everything a flush of it reads are the same in both endpoints. */
  predicate SameSlot(e: Endpoint, f: Endpoint, i: nat) {
    && |f.slots| == |e.slots| && f.cfg == e.cfg && f.data == e.data && f.emitted == e.emitted
    && (i < |e.slots| ==> f.slots[i] == e.slots[i])
  }

  lemma {:induction false} DisconnectSpares(e: Endpoint, ids: set<nat>, stats: Stats, n: nat, i: nat)
    requires n <= |e.slots| && i < |e.slots| && (e.slots[i].Some? ==> e.slots[i].value.id !in ids)
    ensures SameSlot(e, Disconnect(e, ids, stats, n).endpoint, i)
  {
    if n > 0 {
      DisconnectSpares(e, ids, stats, n - 1, i);
    }
  }

  lemma {:induction false} EvictSpares(e: Endpoint, stats: Stats, n: nat, i: nat)
    requires n <= |e.slots| && i < |e.slots|
             && (e.slots[i].Some? && e.slots[i].value.streaming ==> e.slots[i].value.pending.Idle?)
    ensures SameSlot(e, Evict(e, stats, n).endpoint, i)
  {
    if n > 0 {
      EvictSpares(e, stats, n - 1, i);
    }
  }

  /** Sending to slots before `i` does not touch it. */
  lemma {:induction false} SendSpares(e: Endpoint, sample: nat, writes: seq<WriteOutcome>, env: Env, stats: Stats,
                                      n: nat, i: nat)
    requires n <= |e.slots| <= |writes| && i < |e.slots| && (n <= i || e.slots[i].None? || !e.slots[i].value.streaming)
    ensures SameSlot(e, Send(e, sample, writes, env, stats, n).endpoint, i)
  {
    hide Flush;
    if n > 0 {
      SendSpares(e, sample, writes, env, stats, n - 1, i);
    }
  }

  /** The streaming slot is queued the new frame and flushed once. */
  lemma {:induction false} SendServes(e: Endpoint, sample: nat, writes: seq<WriteOutcome>, env: Env, stats: Stats,
                                      n: nat, i: nat)
    returns (seen: Stats)
    requires i < n <= |e.slots| <= |writes| && e.slots[i].Some? && e.slots[i].value.streaming
    ensures var s := Send(e, sample, writes, env, stats, n).endpoint;
            var r := Flush(e.cfg, e.data, e.slots[i].value.(pending := Sending(DataFrame(sample), 0)), writes[i], env,
                           seen);
            s.slots[i] == (if r.open then Some(r.connection) else None) && s.data == e.data && s.cfg == e.cfg
            && s.emitted == e.emitted
  {
    hide Flush;
    if i == n - 1 {
      SendSpares(e, sample, writes, env, stats, n - 1, i);
      seen := Send(e, sample, writes, env, stats, n - 1).stats;
    } else {
      seen := SendServes(e, sample, writes, env, stats, n - 1, i);
    }
  }

  /**
    * A tick that neither omits the data nor disconnects the client: a streaming idle connection
    * is queued the frame of the new sample and flushed once, whatever its peer does; any other
    * connection is left alone, though its peer may have the buffer rewritten.
    */
  lemma TickOnSlot(e: Endpoint, tick: Tick, env: Env, stats: Stats, i: nat) returns (seen: Stats)
    requires i < |e.slots| <= |tick.writes| && e.slots[i].Some? && !tick.omit && e.slots[i].value.id !in tick.disconnect
    requires e.slots[i].value.streaming ==> e.slots[i].value.pending.Idle?
    ensures var c := e.slots[i].value;
            var t := Emit(e, tick, env, stats).endpoint;
            if c.streaming then
              var r := Flush(e.cfg, tick.frame, c.(pending := Sending(DataFrame(tick.sample), 0)), tick.writes[i],
                             env, seen);
              && t.slots[i] == (if r.open then Some(r.connection) else None)
              && t.data == tick.frame && t.emitted == e.emitted[tick.sample := tick.frame]
            else
              && t.slots[i] == Some(c)
              && (SameSlot(e, t, i) || SameSlot(Rewrite(e, tick.sample, tick.frame), t, i))
  {
    hide Flush, Send, Evict, Disconnect;
    seen := stats;
    var n := |e.slots|;
    DisconnectSpares(e, tick.disconnect, stats, n, i);
    var d := Disconnect(e, tick.disconnect, stats, n);
    EvictSpares(d.endpoint, d.stats, n, i);
    var v := Evict(d.endpoint, d.stats, n);
    var w := Rewrite(v.endpoint, tick.sample, tick.frame);
    if e.slots[i].value.streaming {
      assert AnyStreaming(v.endpoint);
      seen := SendServes(w, tick.sample, tick.writes, env, v.stats, n, i);
    } else {
      SendSpares(w, tick.sample, tick.writes, env, v.stats, n, i);
    }
  }

  /** A tick with nobody streaming and nobody to disconnect changes nothing, not even the buffer. */
  lemma IdleTick(e: Endpoint, tick: Tick, env: Env, stats: Stats)
    requires |e.slots| <= |tick.writes|
    requires forall i :: 0 <= i < |e.slots| && e.slots[i].Some? ==>
                           !e.slots[i].value.streaming && e.slots[i].value.id !in tick.disconnect
    ensures Emit(e, tick, env, stats) == Step(e, stats)
  {
    hide Send;
    var n := |e.slots|;
    NobodyDisconnected(e, tick.disconnect, stats, n);
    NobodyEvicted(e, stats, n);
  }

  lemma {:induction false} NobodyDisconnected(e: Endpoint, ids: set<nat>, stats: Stats, n: nat)
    requires n <= |e.slots|
    requires forall i :: 0 <= i < |e.slots| && e.slots[i].Some? ==> e.slots[i].value.id !in ids
    ensures Disconnect(e, ids, stats, n) == Step(e, stats)
  {
    if n > 0 {
      NobodyDisconnected(e, ids, stats, n - 1);
    }
  }

  lemma {:induction false} NobodyEvicted(e: Endpoint, stats: Stats, n: nat)
    requires n <= |e.slots|
    requires forall i :: 0 <= i < |e.slots| && e.slots[i].Some? ==> !e.slots[i].value.streaming
    ensures Evict(e, stats, n) == Step(e, stats)
  {
    if n > 0 {
      NobodyEvicted(e, stats, n - 1);
    }
  }

  /** Every evicted client counts once as slow and once as closed, and nothing else is counted. */
  lemma {:induction false} EvictionsCounted(e: Endpoint, stats: Stats, n: nat)
    requires n <= |e.slots|
    ensures var s := Evict(e, stats, n);
            && s.stats == stats.(slow := s.stats.slow, closed := s.stats.closed)
            && s.stats.slow - stats.slow == s.stats.closed - stats.closed
            && s.stats.closed - stats.closed == LiveCount(e.slots) - LiveCount(s.endpoint.slots)
  {
    hide LiveCount;
    if n > 0 {
      EvictionsCounted(e, stats, n - 1);
      var s := Evict(e, stats, n - 1);
      LiveCountUpdate(s.endpoint.slots, n - 1, None);
    }
  }
}

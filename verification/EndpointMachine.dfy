/**
  * The endpoint as the source runs it: fields updated in place, one data buffer overwritten by
  * every tick, and the accept, command, expiry and emission loops. Each method refines the
  * corresponding step of `Endpoints`, about which the run theorems are proved.
  */
module EndpointMachine {
  import opened Bytes
  import opened Frames
  import opened Receive
  import opened Connections
  import opened Endpoints
  import Tokens

  class Machine {
    const cfg: Config
    const data: array<byte>
    var slots: seq<Option<Connection>>
    var stats: Stats
    ghost var emitted: Emitted
    ghost var retired: seq<Connection>

    ghost function State(): Endpoint
      reads this, data
    {
      Endpoint(cfg, data[..], slots, emitted, retired)
    }

    constructor (cfg: Config, dataBytes: nat)
      ensures fresh(data) && this.cfg == cfg && data.Length == dataBytes
      ensures State() == Endpoint(cfg, data[..], [None, None], map[], []) && stats == Stats(0, 0, 0, 0, 0, 0, 0)
    {
      this.cfg := cfg;
      data := new byte[dataBytes](_ => 0);
      slots := [None, None];
      stats := Stats(0, 0, 0, 0, 0, 0, 0);
      emitted := map[];
      retired := [];
    }

    method CloseConnection(slot: nat, id: nat)
      requires slot < |slots|
      modifies this
      ensures Step(State(), stats) == Close(old(State()), slot, id, old(stats))
    {
      if slots[slot].None? || slots[slot].value.id != id {
        return;
      }
      retired := retired + [slots[slot].value];
      slots := slots[slot := None];
      stats := stats.(closed := stats.closed + 1);
    }

    /** `process_buffered_commands`: the loop runs until a frame is pending or bytes run out. */
    method ProcessBufferedCommands(slot: nat, env: Env) returns (open: bool)
      requires slot < |slots| && slots[slot].Some?
      modifies this`slots, this`stats
      ensures var p := Process(cfg, old(slots[slot].value), env, old(stats));
              State() == Put(old(State()), slot, p.connection) && stats == p.stats && open == p.open
    {
      hide NextCommand, Turn;
      ghost var goal := Process(cfg, slots[slot].value, env, stats);
      var c := slots[slot].value;
      while true
        invariant Process(cfg, c, env, stats) == goal
        invariant slots == old(slots)
        decreases |c.receive|
      {
        if c.pending.Sending? || c.closeAfterFlush {
          slots := slots[slot := Some(c)];
          return true;
        }
        match NextCommand(cfg.version, cfg.limit, c.receive) {
          case NeedMore =>
            slots := slots[slot := Some(c)];
            return true;
          case Malformed(id) =>
            stats := stats.(malformed := stats.malformed + 1);
            open := cfg.version.V3?;
            if open {
              c := QueueError(c, if id.Some? then id.value else cfg.streamId, REJECTED_COMMAND, env);
            }
            slots := slots[slot := Some(c)];
            return open;
          case Received(command, size) =>
            var turn := Turn(cfg, c.(receive := c.receive[size..]), command, env, stats);
            c, stats := turn.connection, turn.stats;
            if !turn.open {
              slots := slots[slot := Some(c)];
              return false;
            }
        }
      }
    }

    /** `flush_connection`: one `write` of the pending bytes, then buffered commands. */
    method FlushConnection(slot: nat, outcome: WriteOutcome, env: Env) returns (open: bool)
      requires slot < |slots| && slots[slot].Some? && Flushable(State(), slot)
      modifies this`slots, this`stats
      ensures var f := Flush(cfg, data[..], old(slots[slot].value), outcome, env, old(stats));
              State() == Put(old(State()), slot, f.connection) && stats == f.stats && open == f.open
    {
      hide Process;
      var c := slots[slot].value;
      if c.pending.Idle? {
        assert slots[slot := Some(c)] == slots;
        return true;
      }
      var bytes := Selected(cfg, data[..], c.errorFrame, c.pending.kind);
      if outcome.Wrote? && 0 < outcome.count && c.pending.offset + outcome.count <= |bytes| {
        var next := Advance(c, bytes, outcome.count);
        slots := slots[slot := Some(next)];
        if next.pending.Sending? {
          return true;
        }
        if c.pending.kind.DataFrame? {
          stats := stats.(sentData := stats.sentData + 1);
        }
        if c.closeAfterFlush {
          return false;
        }
        open := ProcessBufferedCommands(slot, env);
      } else {
        assert slots[slot := Some(c)] == slots;
        open := outcome.WriteBlocked?;
      }
    }

    method ReadReady(slot: nat, arrivals: seq<ReadOutcome>, env: Env) returns (open: bool)
      requires slot < |slots| && slots[slot].Some?
      modifies this`slots, this`stats
      ensures var r := ReadConnection(cfg, old(slots[slot].value), arrivals, env, old(stats));
              State() == Put(old(State()), slot, r.connection) && stats == r.stats && open == r.open
    {
      hide Process, Reads;
      var c := slots[slot].value;
      if c.closeAfterFlush {
        assert slots[slot := Some(c)] == slots;
        return true;
      }
      var (result, buffer) := Reads(c.receive, cfg.limit, arrivals);
      slots := slots[slot := Some(c.(receive := buffer))];
      if result.Closed? {
        return false;
      }
      if result.Failed? {
        stats := stats.(malformed := stats.malformed + 1);
        return false;
      }
      open := ProcessBufferedCommands(slot, env);
      if open && !result.Open? {
        open := slots[slot].value.closeAfterFlush && slots[slot].value.pending.Sending?;
      }
    }

    method ExpireConnections(now: nat)
      modifies this
      ensures Step(State(), stats) == Expire(old(State()), now, old(stats), |old(slots)|)
    {
      for slot := 0 to |slots|
        invariant |slots| == |old(slots)|
        invariant Step(State(), stats) == Expire(old(State()), now, old(stats), slot)
      {
        if slots[slot].Some? && DeadlineExpired(slots[slot].value, now) {
          CloseConnection(slot, slots[slot].value.id);
        }
      }
    }

    /** `accept_connections`: one iteration per pending socket. */
    method AcceptConnections(count: nat, index: nat, sockets: seq<bool>, firstId: nat, now: nat) returns (nextId: nat)
      modifies this
      ensures Accepting(State(), nextId, stats)
           == AcceptAll(Accepting(old(State()), firstId, old(stats)), count, index, sockets, now)
    {
      hide Tokens.ConnectionToken;
      nextId := firstId;
      for i := 0 to |sockets|
        invariant AcceptAll(Accepting(State(), nextId, stats), count, index, sockets[i..], now)
               == AcceptAll(Accepting(old(State()), firstId, old(stats)), count, index, sockets, now)
      {
        assert sockets[i..][1..] == sockets[i + 1..];
        var slot := FreeSlot(slots, 0);
        if slot.None? || nextId + 1 > U64_MAX {
          stats := stats.(rejected := stats.rejected + 1);
          continue;
        }
        var token := Tokens.ConnectionToken(count, index, slot.value, nextId);
        if token.None? || !sockets[i] {
          stats := stats.(rejected := stats.rejected + 1);
          continue;
        }
        slots := slots[slot.value := Some(NewConnection(nextId, now))];
        nextId := nextId + 1;
        stats := stats.(accepted := stats.accepted + 1);
      }
    }

    method DisconnectPlanned(ids: set<nat>)
      modifies this
      ensures Step(State(), stats) == Disconnect(old(State()), ids, old(stats), |old(slots)|)
    {
      for slot := 0 to |slots|
        invariant |slots| == |old(slots)|
        invariant Step(State(), stats) == Disconnect(old(State()), ids, old(stats), slot)
      {
        if slots[slot].Some? && slots[slot].value.id in ids {
          CloseConnection(slot, slots[slot].value.id);
        }
      }
    }

    method EvictSlowClients()
      modifies this
      ensures Step(State(), stats) == Evict(old(State()), old(stats), |old(slots)|)
    {
      for slot := 0 to |slots|
        invariant |slots| == |old(slots)|
        invariant Step(State(), stats) == Evict(old(State()), old(stats), slot)
      {
        if slots[slot].Some? && slots[slot].value.streaming && slots[slot].value.pending.Sending? {
          stats := stats.(slow := stats.slow + 1);
          CloseConnection(slot, slots[slot].value.id);
        }
      }
    }

    /** The frame of a new sample overwrites the shared buffer in place. */
    method RewriteBuffer(sample: nat, frame: seq<byte>)
      requires |frame| == data.Length
      modifies data, this`emitted
      ensures State() == Rewrite(old(State()), sample, frame)
    {
      for i := 0 to |frame|
        invariant data[..i] == frame[..i] && emitted == old(emitted)
      {
        data[i] := frame[i];
      }
      assert data[..] == data[..|frame|] == frame[..|frame|] == frame;
      emitted := emitted[sample := frame];
    }

    method SendToStreaming(sample: nat, writes: seq<WriteOutcome>, env: Env)
      requires |slots| <= |writes|
      modifies this
      ensures Step(State(), stats) == Send(old(State()), sample, writes, env, old(stats), |old(slots)|)
    {
      hide Flush, Process;
      for slot := 0 to |slots|
        invariant |slots| == |old(slots)|
        invariant Step(State(), stats) == Send(old(State()), sample, writes, env, old(stats), slot)
      {
        if slots[slot].Some? && slots[slot].value.streaming {
          ghost var before := State();
          var queued := slots[slot].value.(pending := Sending(DataFrame(sample), 0));
          slots := slots[slot := Some(queued)];
          var open := FlushConnection(slot, writes[slot], env);
          assert State() == Put(before, slot, slots[slot].value);
          if !open {
            CloseConnection(slot, slots[slot].value.id);
          }
        }
      }
    }

    /** `emit_data` for one endpoint. */
    method EmitData(tick: Tick, env: Env)
      requires |slots| <= |tick.writes| && |tick.frame| == data.Length
      modifies this, data
      ensures Step(State(), stats) == Emit(old(State()), tick, env, old(stats))
    {
      hide Send, Evict, Disconnect;
      DisconnectPlanned(tick.disconnect);
      EvictSlowClients();
      if !(exists i :: 0 <= i < |slots| && slots[i].Some? && slots[i].value.streaming) || tick.omit {
        return;
      }
      RewriteBuffer(tick.sample, tick.frame);
      SendToStreaming(tick.sample, tick.writes, env);
    }
  }
}

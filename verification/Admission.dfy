/** Which sockets an endpoint's listener takes in, and where it puts them. */
module Admission {
  import opened Bytes
  import opened Connections
  import opened Endpoints
  import Server
  import Tokens

  /** An id and an event token are left for a connection in this slot. */
  predicate IdLeft(nextId: nat, count: nat, index: nat, slot: nat) {
    nextId < U64_MAX && (nextId * count + index) * 2 + slot + count < Tokens.MANAGEMENT_BASE
  }

  /** All slots before `slot` are taken; it is itself empty, or lies behind the last one. */
  predicate IsFirstEmpty(slots: seq<Option<Connection>>, slot: nat) {
    && slot <= |slots| && (forall i :: 0 <= i < slot ==> slots[i].Some?)
    && (slot < |slots| ==> slots[slot].None?)
  }

  /**
    * A socket is accepted exactly if some slot is empty, its setup succeeded, and an id and a token
    * are left: then into the first empty slot, under the next id. Otherwise it is only counted.
    */
  lemma AcceptedExactly(a: Accepting, count: nat, index: nat, configured: bool, now: nat, slot: nat)
    requires count >= 1 && IsFirstEmpty(a.endpoint.slots, slot)
    ensures var b := AcceptOne(a, count, index, configured, now);
            if slot < |a.endpoint.slots| && configured && IdLeft(a.nextId, count, index, slot) then
              b == a.(endpoint := a.endpoint.(slots := a.endpoint.slots[slot := Some(NewConnection(a.nextId, now))]),
              nextId := a.nextId + 1, stats := a.stats.(accepted := a.stats.accepted + 1))
            else b == a.(stats := a.stats.(rejected := a.stats.rejected + 1))
  {
    hide Tokens.ConnectionToken;
    var found := FreeSlot(a.endpoint.slots, 0);
    assert found.Some? ==> found.value == slot;
    if found.Some? {
      Tokens.ConnectionTokenIssued(count, index, slot, a.nextId);
    }
  }

  /** What is left of a list of sockets once the endpoint is full. */
  lemma {:induction false} FullRejects(a: Accepting, count: nat, index: nat, sockets: seq<bool>, now: nat)
    requires count >= 1 && IsFirstEmpty(a.endpoint.slots, |a.endpoint.slots|)
    ensures AcceptAll(a, count, index, sockets, now)
         == a.(stats := a.stats.(rejected := a.stats.rejected + |sockets|))
    decreases |sockets|
  {
    hide AcceptOne;
    if sockets != [] {
      AcceptedExactly(a, count, index, sockets[0], now, |a.endpoint.slots|);
      FullRejects(AcceptOne(a, count, index, sockets[0], now), count, index, sockets[1..], now);
    }
  }

  /**
    * A client that arrives at a listener with an empty slot is seated there, in the first one, as a
    * fresh connection under the next id; at a full endpoint it is rejected and nothing else changes.
    */
  lemma ClientIsSeated(s: Server.Server, r: Server.Ready, slot: nat)
    requires Server.Valid(s) && r.token < |s.endpoints| <= Tokens.MANAGEMENT_BASE
    requires r.readable && r.sockets == [true] && IsFirstEmpty(s.endpoints[r.token].slots, slot)
    requires slot < |s.endpoints[r.token].slots| ==> IdLeft(s.nextId, |s.endpoints|, r.token, slot)
    ensures var i := r.token;
            var e := s.endpoints[i];
            Server.DispatchEvent(s, r)
            == if slot < |e.slots| then
              var seated := e.(slots := e.slots[slot := Some(NewConnection(s.nextId, r.env.now))]);
              s.(endpoints := s.endpoints[i := seated],
              nextId := s.nextId + 1, stats := s.stats.(accepted := s.stats.accepted + 1))
            else s.(stats := s.stats.(rejected := s.stats.rejected + 1))
  {
    hide AcceptOne, Server.DispatchConnection, Endpoints.Valid, Server.TotalLive;
    var i := r.token;
    assert Server.EndpointOk(s, i);
    var a := Accepting(s.endpoints[i], s.nextId, s.stats);
    AcceptedExactly(a, |s.endpoints|, i, true, r.env.now, slot);
    assert r.sockets[1..] == [];
    assert AcceptAll(a, |s.endpoints|, i, r.sockets, r.env.now) == AcceptOne(a, |s.endpoints|, i, true, r.env.now);
    assert s.endpoints[i := s.endpoints[i]] == s.endpoints;
  }
}

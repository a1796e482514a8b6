/**
  * The management listener's connection slots. What a connection has received and still has to
  * send is one opaque value; `closed` records the ids of the connections closed so far.
  */
module Management {
  import opened Bytes
  import opened Tokens

  datatype Peer = Peer(id: nat, content: seq<byte>)

  datatype Management = Management(slots: seq<Option<Peer>>, nextId: nat, rejected: nat, closed: seq<nat>)

  /** What serving a ready connection comes to. */
  datatype Service = Keep(content: seq<byte>) | Close

  datatype Event = Accept(registered: seq<bool>) | Ready(token: nat, service: Service)

  function FreeSlot(slots: seq<Option<Peer>>, from: nat): (slot: Option<nat>)
    ensures slot.Some? ==> from <= slot.value < |slots| && slots[slot.value].None?
    ensures slot.Some? ==> forall i :: from <= i < slot.value ==> slots[i].Some?
    ensures slot.None? ==> forall i :: from <= i < |slots| ==> slots[i].Some?
    decreases |slots| - from
  {
    if from >= |slots| then None
    else if slots[from].None? then Some(from) else FreeSlot(slots, from + 1)
  }

  /** One accepted socket: a free slot, the next id, a token and a registration, or it is rejected. */
  function AcceptOne(m: Management, registered: bool): Management {
    var slot := FreeSlot(m.slots, 0);
    if slot.None? || m.nextId + 1 > U64_MAX || ManagementToken(slot.value, m.nextId).None? || !registered then
      m.(rejected := m.rejected + 1)
    else m.(slots := m.slots[slot.value := Some(Peer(m.nextId, []))], nextId := m.nextId + 1)
  }

  function AcceptAll(m: Management, registered: seq<bool>): Management
    decreases |registered|
  {
    if registered == [] then m else AcceptAll(AcceptOne(m, registered[0]), registered[1..])
  }

  /**
    * A registered socket is accepted exactly if a slot is empty and an id and a token are left, into
    * the first empty slot and under the next id; otherwise it is only counted.
    */
  lemma AcceptedExactly(m: Management, registered: bool, slot: nat)
    requires |m.slots| == MANAGEMENT_LIMIT && m.nextId >= 1
    requires slot <= |m.slots| && forall i :: 0 <= i < slot ==> m.slots[i].Some?
    requires slot < |m.slots| ==> m.slots[slot].None?
    ensures AcceptOne(m, registered)
         == if slot < 8 && registered && m.nextId < U64_MAX
               && (m.nextId - 1) * 8 + slot + 1 + MANAGEMENT_BASE <= USIZE_MAX
            then m.(slots := m.slots[slot := Some(Peer(m.nextId, []))], nextId := m.nextId + 1)
            else m.(rejected := m.rejected + 1)
  {
    hide ManagementToken;
    var found := FreeSlot(m.slots, 0);
    assert found.Some? ==> found.value == slot;
    if slot < 8 {
      ManagementTokenIssued(slot, m.nextId);
    }
  }

  predicate Current(m: Management, slot: nat, id: nat) {
    slot < |m.slots| && m.slots[slot].Some? && m.slots[slot].value.id == id
  }

  /** `dispatch_management_connection`: an event for a connection that is not current is dropped. */
  function Serve(m: Management, slot: nat, id: nat, service: Service): Management {
    if !Current(m, slot, id) then m
    else match service
         case Keep(content) => m.(slots := m.slots[slot := Some(Peer(id, content))])
         case Close => m.(slots := m.slots[slot := None], closed := m.closed + [id])
  }

  function Next(m: Management, event: Event, endpoints: nat): Management {
    match event
    case Accept(registered) => AcceptAll(m, registered)
    case Ready(token, service) =>
      match EventTarget(token, endpoints)
      case Some(ManagementConnection(slot, id)) => Serve(m, slot, id, service)
      case _ => m
  }

  /** An event carrying the token of a connection that holds its slot serves exactly that connection. */
  lemma ServedExactly(m: Management, slot: nat, id: nat, service: Service, endpoints: nat)
    requires slot < MANAGEMENT_LIMIT && id >= 1 && ManagementToken(slot, id).Some? && Current(m, slot, id)
    ensures Next(m, Ready(ManagementToken(slot, id).value, service), endpoints)
         == match service
            case Keep(content) => m.(slots := m.slots[slot := Some(Peer(id, content))])
            case Close => m.(slots := m.slots[slot := None], closed := m.closed + [id])
  {
    hide ManagementToken, EventTarget;
    ManagementTokenInverts(slot, id, endpoints);
  }

  // ----- invariant -------------------------------------------------------------------------

  /** Ids are below the next one, distinct between the slots, and never those of a closed connection. */
  predicate Valid(m: Management) {
    && |m.slots| == MANAGEMENT_LIMIT && m.nextId >= 1
    && (forall i :: 0 <= i < |m.slots| && m.slots[i].Some? ==> 1 <= m.slots[i].value.id < m.nextId)
    && (forall k :: 0 <= k < |m.closed| ==> 1 <= m.closed[k] < m.nextId)
    && (forall i, j :: 0 <= i < j < |m.slots| && m.slots[i].Some? && m.slots[j].Some? ==>
                         m.slots[i].value.id != m.slots[j].value.id)
    && (forall i, k :: 0 <= i < |m.slots| && m.slots[i].Some? && 0 <= k < |m.closed| ==>
                         m.slots[i].value.id != m.closed[k])
  }

  lemma {:induction false} AcceptKeeps(m: Management, registered: seq<bool>)
    requires Valid(m)
    ensures Valid(AcceptAll(m, registered)) && AcceptAll(m, registered).closed == m.closed
    decreases |registered|
  {
    hide ManagementToken;
    if registered != [] {
      AcceptKeeps(AcceptOne(m, registered[0]), registered[1..]);
    }
  }

  lemma ServeKeeps(m: Management, slot: nat, id: nat, service: Service)
    requires Valid(m)
    ensures Valid(Serve(m, slot, id, service)) && m.closed <= Serve(m, slot, id, service).closed
  {
  }

  lemma NextKeeps(m: Management, event: Event, endpoints: nat)
    requires Valid(m)
    ensures Valid(Next(m, event, endpoints)) && m.closed <= Next(m, event, endpoints).closed
  {
    hide Valid, EventTarget, AcceptAll, Serve;
    match event {
      case Accept(registered) => AcceptKeeps(m, registered);
      case Ready(token, service) =>
        var target := EventTarget(token, endpoints);
        if target.Some? && target.value.ManagementConnection? {
          ServeKeeps(m, target.value.slot, target.value.id, service);
        }
    }
  }

  // ----- runs ------------------------------------------------------------------------------

  const EMPTY := Management([None, None, None, None, None, None, None, None], 1, 0, [])

  predicate IsRun(states: seq<Management>, events: seq<Event>, endpoints: nat) {
    && |states| == |events| + 1 && states[0] == EMPTY
    && forall k :: 0 <= k < |events| ==> states[k + 1] == Next(states[k], events[k], endpoints)
  }

  lemma {:induction false} RunValid(states: seq<Management>, events: seq<Event>, endpoints: nat, k: nat, m: nat)
    requires IsRun(states, events, endpoints) && k <= m < |states|
    ensures Valid(states[m]) && states[k].closed <= states[m].closed
  {
    if k < m {
      hide Valid, Next;
      RunValid(states, events, endpoints, k, m - 1);
      NextKeeps(states[m - 1], events[m - 1], endpoints);
    } else if m > 0 {
      hide Valid, Next;
      RunValid(states, events, endpoints, m - 1, m - 1);
      NextKeeps(states[m - 1], events[m - 1], endpoints);
    }
  }

  /** Once a management connection is closed, its token changes nothing in any later state. */
  lemma StaleEventIgnored(states: seq<Management>, events: seq<Event>, endpoints: nat, k: nat, m: nat, j: nat,
                          slot: nat, service: Service)
    requires IsRun(states, events, endpoints) && k <= m < |states| && j < |states[k].closed| && slot < MANAGEMENT_LIMIT
    requires ManagementToken(slot, states[k].closed[j]).Some?
    ensures Next(states[m], Ready(ManagementToken(slot, states[k].closed[j]).value, service), endpoints) == states[m]
  {
    hide ManagementToken, EventTarget, IsRun;
    RunValid(states, events, endpoints, k, m);
    var id := states[k].closed[j];
    assert id == states[m].closed[j];
    ManagementTokenInverts(slot, id, endpoints);
  }
}

/** The mixed-radix event tokens of the poll loop. */
module Tokens {
  import opened Bytes

  const USIZE_MAX := 0xFFFF_FFFF_FFFF_FFFF
  const SLOTS := 2
  const MANAGEMENT_LIMIT := 8
  const MANAGEMENT_BASE := USIZE_MAX / 2 + 1

  datatype Target =
    | Listener(endpoint: nat)
    | Connection(endpoint: nat, slot: nat, id: nat)
    | ManagementListener
    | ManagementConnection(slot: nat, id: nat)

  /** A checked machine-word result. */
  function Checked(n: int): Option<nat> {
    if 0 <= n <= USIZE_MAX then Some(n) else None
  }

  function CheckedMul(n: Option<nat>, k: nat): Option<nat> {
    if n.Some? then Checked(n.value * k) else None
  }

  function CheckedAdd(n: Option<nat>, k: nat): Option<nat> {
    if n.Some? then Checked(n.value + k) else None
  }

  function ConnectionToken(count: nat, endpoint: nat, slot: nat, id: nat): Option<nat> {
    var t := CheckedAdd(CheckedAdd(CheckedMul(CheckedAdd(CheckedMul(Checked(id), count), endpoint), SLOTS), slot),
                        count);
    if t.Some? && t.value < MANAGEMENT_BASE then t else None
  }

  function ManagementToken(slot: nat, id: nat): Option<nat> {
    CheckedAdd(CheckedAdd(CheckedAdd(CheckedMul(Checked(id - 1), MANAGEMENT_LIMIT), slot), 1), MANAGEMENT_BASE)
  }

  function EventTarget(token: nat, count: nat): Option<Target> {
    if token == MANAGEMENT_BASE then Some(ManagementListener)
    else if token > MANAGEMENT_BASE then
      var encoded := token - (MANAGEMENT_BASE + 1);
      Some(ManagementConnection(encoded % MANAGEMENT_LIMIT, encoded / MANAGEMENT_LIMIT + 1))
    else if token < count then Some(Listener(token))
    else if count == 0 then None
    else
      var encoded := token - count;
      var rest := encoded / SLOTS;
      var id := rest / count;
      if id == 0 then None else Some(Connection(rest % count, encoded % SLOTS, id))
  }

  lemma MultipleBound(d: int, k: int)
    requires d >= 0
    ensures k >= 1 ==> d * k >= d
    ensures k <= -1 ==> d * k <= -d
  {
  }

  lemma QuotientIsUnique(d: nat, q: nat, r: nat)
    requires r < d
    ensures (q * d + r) / d == q && (q * d + r) % d == r
  {
    var n := q * d + r;
    var p := n / d;
    assert n == d * p + n % d;
    assert d * (p - q) == r - n % d;
    MultipleBound(d, p - q);
  }

  /** The value of a token that was issued. */
  lemma TokenValue(count: nat, endpoint: nat, slot: nat, id: nat)
    requires ConnectionToken(count, endpoint, slot, id).Some?
    ensures ConnectionToken(count, endpoint, slot, id).value == (id * count + endpoint) * SLOTS + slot + count
  {
  }

  /** Every issued PDC token leads back to the endpoint, slot and connection it was issued for. */
  lemma ConnectionTokenInverts(count: nat, endpoint: nat, slot: nat, id: nat)
    requires endpoint < count && slot < SLOTS && id >= 1
    requires ConnectionToken(count, endpoint, slot, id).Some?
    ensures EventTarget(ConnectionToken(count, endpoint, slot, id).value, count) == Some(Connection(endpoint, slot, id))
  {
    var t := ConnectionToken(count, endpoint, slot, id).value;
    TokenValue(count, endpoint, slot, id);
    QuotientIsUnique(SLOTS, id * count + endpoint, slot);
    QuotientIsUnique(count, id, endpoint);
  }

  /** A token below the management range is issued: no intermediate product overflows first. */
  lemma SmallTokenIsIssued(count: nat, endpoint: nat, slot: nat, id: nat)
    requires count >= 1 && (id * count + endpoint) * SLOTS + slot + count < MANAGEMENT_BASE
    ensures ConnectionToken(count, endpoint, slot, id) == Some((id * count + endpoint) * SLOTS + slot + count)
  {
    assert id * count >= id by {
      if id >= 1 {
        MultipleBound(id, count);
      }
    }
  }

  /** Conversely, an event resolved to a connection carries exactly that connection's token. */
  lemma ConnectionTargetIsIssued(token: nat, count: nat)
    requires EventTarget(token, count).Some? && EventTarget(token, count).value.Connection?
    ensures var t := EventTarget(token, count).value;
            && t.endpoint < count && t.slot < SLOTS && t.id >= 1
            && ConnectionToken(count, t.endpoint, t.slot, t.id) == Some(token)
  {
    hide ConnectionToken;
    var t := EventTarget(token, count).value;
    var rest := (token - count) / SLOTS;
    assert rest == t.id * count + t.endpoint;
    SmallTokenIsIssued(count, t.endpoint, t.slot, t.id);
  }

  /** A PDC token is issued exactly if its value stays below the management range. */
  lemma ConnectionTokenIssued(count: nat, endpoint: nat, slot: nat, id: nat)
    requires count >= 1
    ensures ConnectionToken(count, endpoint, slot, id).Some?
       <==> (id * count + endpoint) * 2 + slot + count < MANAGEMENT_BASE
  {
    if ConnectionToken(count, endpoint, slot, id).Some? {
      TokenValue(count, endpoint, slot, id);
    } else if (id * count + endpoint) * SLOTS + slot + count < MANAGEMENT_BASE {
      SmallTokenIsIssued(count, endpoint, slot, id);
    }
  }

  /** A management token is issued exactly if its value fits a machine word. */
  lemma ManagementTokenIssued(slot: nat, id: nat)
    requires id >= 1
    ensures ManagementToken(slot, id).Some? <==> (id - 1) * 8 + slot + 1 + MANAGEMENT_BASE <= USIZE_MAX
  {
  }

  /** The same inversion for management connections; their ids start at one. */
  lemma ManagementTokenInverts(slot: nat, id: nat, count: nat)
    requires slot < MANAGEMENT_LIMIT && id >= 1 && ManagementToken(slot, id).Some?
    ensures EventTarget(ManagementToken(slot, id).value, count) == Some(ManagementConnection(slot, id))
  {
    QuotientIsUnique(MANAGEMENT_LIMIT, id - 1, slot);
  }

  /**
    * Listener, PDC and management tokens never collide: resolving tells them apart, and two PDC
    * connections share a token only if they are the same connection of the same slot.
    */
  lemma TokensAreDisjoint(count: nat, listener: nat, e1: nat, s1: nat, i1: nat, e2: nat, s2: nat, i2: nat, ms: nat,
                          mi: nat)
    requires listener < count <= MANAGEMENT_BASE
    requires e1 < count && s1 < SLOTS && i1 >= 1 && ConnectionToken(count, e1, s1, i1).Some?
    requires e2 < count && s2 < SLOTS && i2 >= 1 && ConnectionToken(count, e2, s2, i2).Some?
    requires ms < MANAGEMENT_LIMIT && mi >= 1 && ManagementToken(ms, mi).Some?
    ensures var c := ConnectionToken(count, e1, s1, i1).value;
            && listener != c && listener != MANAGEMENT_BASE && listener != ManagementToken(ms, mi).value
            && c != MANAGEMENT_BASE && c != ManagementToken(ms, mi).value
            && ManagementToken(ms, mi).value != MANAGEMENT_BASE
            && (c == ConnectionToken(count, e2, s2, i2).value ==> e1 == e2 && s1 == s2 && i1 == i2)
  {
    ConnectionTokenInverts(count, e1, s1, i1);
    ConnectionTokenInverts(count, e2, s2, i2);
    ManagementTokenInverts(ms, mi, count);
    TokenValue(count, e1, s1, i1);
    hide ConnectionToken, ManagementToken;
    assert EventTarget(listener, count) == Some(Listener(listener));
  }
}

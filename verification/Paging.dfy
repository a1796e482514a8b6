/**
  * The server's side of the paged console state: ordered listings of the controller's maps,
  * lifecycle pages under an offset, and the reply to a console query.
  */
module Paging {
  import opened Bytes
  import opened Scenario
  import ScenarioRuns

  // ----- ordered listings ------------------------------------------------------------------

  datatype Key = TokenKey(token: nat) | TargetKey(target: Target)

  /** A key as the lexicographic triple that orders it: variant, stream, connection. */
  function Place(k: Key): (nat, nat, nat) {
    match k
    case TokenKey(t) => (0, t, 0)
    case TargetKey(EndpointTarget(s)) => (1, s, 0)
    case TargetKey(PdcTarget(s, c)) => (2, s, c)
  }

  predicate Before(a: Key, b: Key) {
    var x, y := Place(a), Place(b);
    x.0 < y.0 || (x.0 == y.0 && (x.1 < y.1 || (x.1 == y.1 && x.2 < y.2)))
  }

  datatype Row<V> = Row(key: Key, value: V)

  predicate IsLeast(k: Key, keys: set<Key>) {
    k in keys && forall j :: j in keys && j != k ==> Before(k, j)
  }

  lemma Ordered()
    ensures forall a, b :: a == b || Before(a, b) || Before(b, a)
    ensures forall a, b, c :: Before(a, b) && Before(b, c) ==> Before(a, c)
  {
  }

  lemma {:induction false} LeastExists(keys: set<Key>) returns (k: Key)
    requires keys != {}
    ensures IsLeast(k, keys)
  {
    var one :| one in keys;
    k := one;
    if keys != {one} {
      var least := LeastExists(keys - {one});
      Ordered();
      k := if Before(least, one) then least else one;
    }
  }

  /** The order in which a `BTreeMap` iterates. */
  function Listing<V>(m: map<Key, V>): (rows: seq<Row<V>>)
    ensures |rows| == |m|
    decreases |m|
  {
    if m == map[] then []
    else
      assert exists k :: IsLeast(k, m.Keys) by { var k := LeastExists(m.Keys); }
      var k :| IsLeast(k, m.Keys);
      assert m.Keys == (m - {k}).Keys + {k};
      [Row(k, m[k])] + Listing(m - {k})
  }

  /** Each entry of the map once, in strictly ascending key order, and nothing else. */
  ghost predicate IsListing<V>(rows: seq<Row<V>>, m: map<Key, V>) {
    && (forall i, j :: 0 <= i < j < |rows| ==> Before(rows[i].key, rows[j].key))
    && (forall i :: 0 <= i < |rows| ==> rows[i].key in m && m[rows[i].key] == rows[i].value)
    && (forall k :: k in m ==> exists i :: 0 <= i < |rows| && rows[i].key == k)
  }

  /** A listing in front of which the least key is put. */
  lemma ListingStep<V>(k: Key, m: map<Key, V>, rest: seq<Row<V>>)
    requires IsLeast(k, m.Keys) && IsListing(rest, m - {k})
    ensures IsListing([Row(k, m[k])] + rest, m)
  {
    hide Before;
    var rows := [Row(k, m[k])] + rest;
    assert forall i :: 0 < i < |rows| ==> rows[i] == rest[i - 1];
    forall j | j in m
      ensures exists i :: 0 <= i < |rows| && rows[i].key == j
    {
      if j == k {
        assert rows[0].key == j;
      } else {
        assert j in m - {k};
        var i :| 0 <= i < |rest| && rest[i].key == j;
        assert rows[i + 1].key == j;
      }
    }
  }

  lemma {:induction false} ListingLists<V>(m: map<Key, V>)
    ensures IsListing(Listing(m), m)
    decreases |m|
  {
    hide IsListing;
    if m != map[] {
      var k := Listing(m)[0].key;
      assert IsLeast(k, m.Keys) && m.Keys == (m - {k}).Keys + {k};
      ListingLists(m - {k});
      ListingStep(k, m, Listing(m - {k}));
    } else {
      EmptyListing(m);
    }
  }

  lemma EmptyListing<V>(m: map<Key, V>)
    requires m == map[]
    ensures IsListing([], m)
  {
  }

  // ----- the controller's lists ------------------------------------------------------------

  datatype Lists = Lists(prepared: seq<Row<Prepared>>, pending: seq<Row<Pending>>, active: seq<Row<Active>>)

  function TokenKeyed(m: map<nat, Prepared>): map<Key, Prepared> {
    map t | t in m :: TokenKey(t) := m[t]
  }

  function TargetKeyed<V>(m: map<Target, V>): map<Key, V> {
    map t | t in m :: TargetKey(t) := m[t]
  }

  /** The lists of a controller snapshot. */
  function ListsOf(r: Records): Lists {
    Lists(Listing(TokenKeyed(r.prepared)), Listing(TargetKeyed(r.pending)), Listing(TargetKeyed(r.active)))
  }

  /** Endpoints before PDC connections; by stream, then by connection. */
  predicate TargetBefore(g: Target, h: Target) {
    match (g, h)
    case (EndpointTarget(s), EndpointTarget(t)) => s < t
    case (EndpointTarget(_), PdcTarget(_, _)) => true
    case (PdcTarget(_, _), EndpointTarget(_)) => false
    case (PdcTarget(s, c), PdcTarget(t, d)) => s < t || (s == t && c < d)
  }

  /** The rows of a list of targets: each record once under its target, in the order of the targets. */
  ghost predicate TargetsInOrder<V>(rows: seq<Row<V>>, m: map<Target, V>) {
    && (forall i :: 0 <= i < |rows| ==>
                      rows[i].key.TargetKey? && rows[i].key.target in m && rows[i].value == m[rows[i].key.target])
    && (forall i, j :: 0 <= i < j < |rows| && rows[i].key.TargetKey? && rows[j].key.TargetKey? ==>
                         TargetBefore(rows[i].key.target, rows[j].key.target))
    && (forall g :: g in m ==> exists i :: 0 <= i < |rows| && rows[i].key == TargetKey(g))
  }

  lemma TargetRows<V>(m: map<Target, V>)
    ensures TargetsInOrder(Listing(TargetKeyed(m)), m)
  {
    var rows := Listing(TargetKeyed(m));
    ListingLists(TargetKeyed(m));
    forall g | g in m
      ensures exists i :: 0 <= i < |rows| && rows[i].key == TargetKey(g)
    {
      assert TargetKey(g) in TargetKeyed(m);
    }
    forall i, j | 0 <= i < j < |rows| && rows[i].key.TargetKey? && rows[j].key.TargetKey?
      ensures TargetBefore(rows[i].key.target, rows[j].key.target)
    {
      assert Before(rows[i].key, rows[j].key);
    }
  }

  /** The rows of the preparations: each once under its token, in ascending token order. */
  ghost predicate TokensInOrder(rows: seq<Row<Prepared>>, m: map<nat, Prepared>) {
    && (forall i :: 0 <= i < |rows| ==>
                      rows[i].key.TokenKey? && rows[i].key.token in m && rows[i].value == m[rows[i].key.token])
    && (forall i, j :: 0 <= i < j < |rows| && rows[i].key.TokenKey? && rows[j].key.TokenKey? ==>
                         rows[i].key.token < rows[j].key.token)
    && (forall t :: t in m ==> exists i :: 0 <= i < |rows| && rows[i].key == TokenKey(t))
  }

  lemma TokenRows(m: map<nat, Prepared>)
    ensures TokensInOrder(Listing(TokenKeyed(m)), m)
  {
    var rows := Listing(TokenKeyed(m));
    ListingLists(TokenKeyed(m));
    forall t | t in m
      ensures exists i :: 0 <= i < |rows| && rows[i].key == TokenKey(t)
    {
      assert TokenKey(t) in TokenKeyed(m);
    }
    forall i, j | 0 <= i < j < |rows| && rows[i].key.TokenKey? && rows[j].key.TokenKey?
      ensures rows[i].key.token < rows[j].key.token
    {
      assert Before(rows[i].key, rows[j].key);
    }
  }

  /** The console's order: preparations by token, then queued and active records by target. */
  lemma RecordsInOrder(r: Records)
    ensures var l := ListsOf(r);
            && TokensInOrder(l.prepared, r.prepared)
            && TargetsInOrder(l.pending, r.pending) && TargetsInOrder(l.active, r.active)
  {
    hide TokensInOrder, TargetsInOrder;
    TokenRows(r.prepared);
    TargetRows(r.pending);
    TargetRows(r.active);
  }

  lemma {:induction false} TokenKeyedSize(m: map<nat, Prepared>)
    ensures |TokenKeyed(m)| == |m|
    decreases |m|
  {
    if m != map[] {
      var t :| t in m;
      var rest := m - {t};
      assert m.Keys == rest.Keys + {t};
      TokenKeyedSize(rest);
      assert TokenKeyed(m).Keys == TokenKeyed(rest).Keys + {TokenKey(t)};
    }
  }

  lemma {:induction false} TargetKeyedSize<V>(m: map<Target, V>)
    ensures |TargetKeyed(m)| == |m|
    decreases |m|
  {
    if m != map[] {
      var t :| t in m;
      var rest := m - {t};
      assert m.Keys == rest.Keys + {t};
      TargetKeyedSize(rest);
      assert TargetKeyed(m).Keys == TargetKeyed(rest).Keys + {TargetKey(t)};
    }
  }

  function Total(l: Lists): nat {
    |l.prepared| + |l.pending| + |l.active|
  }

  /** A reachable controller never lists more than 900 records. */
  lemma TotalBound(c: Controller)
    requires Valid(c)
    ensures Total(ListsOf(RecordsOf(c))) <= 900
  {
    hide Valid;
    ScenarioRuns.CapacityBound(c);
    TokenKeyedSize(c.prepared);
    TargetKeyedSize(c.pending);
    TargetKeyedSize(c.active);
  }

  // ----- one page --------------------------------------------------------------------------

  const RECORDS_PER_PAGE := 48

  function Min(a: nat, b: nat): (m: nat)
    ensures m <= a && m <= b
  {
    if a <= b then a else b
  }

  function SaturatingSub(a: nat, b: nat): nat { if a >= b then a - b else 0 }

  /** `skip(n).take(k)`. */
  function Slice<T>(s: seq<T>, n: nat, k: nat): (r: seq<T>)
    requires n <= |s|
    ensures |r| <= k
  {
    s[n..Min(n + k, |s|)]
  }

  datatype LifecyclePage = LifecyclePage(records: Lists, next: Option<nat>)

  /** `management_console_lifecycle_page`. */
  function PageAt(l: Lists, offset: nat): (r: Option<LifecyclePage>)
    ensures r.Some? <==> offset <= Total(l)
  {
    if offset > Total(l) then None
    else
      var prepared := Slice(l.prepared, Min(offset, |l.prepared|), RECORDS_PER_PAGE);
      var remaining := RECORDS_PER_PAGE - |prepared|;
      var pending := Slice(l.pending, Min(SaturatingSub(offset, |l.prepared|), |l.pending|), remaining);
      var remaining' := remaining - |pending|;
      var active := Slice(l.active, Min(SaturatingSub(offset, |l.prepared| + |l.pending|), |l.active|), remaining');
      var end := offset + |prepared| + |pending| + |active|;
      Some(LifecyclePage(Lists(prepared, pending, active), if end < Total(l) then Some(end) else None))
  }

  /** The first `n` records of the prepared, then pending, then active list. */
  function Prefix(l: Lists, n: nat): Lists {
    Lists(l.prepared[..Min(n, |l.prepared|)],
          l.pending[..Min(SaturatingSub(n, |l.prepared|), |l.pending|)],
          l.active[..Min(SaturatingSub(n, |l.prepared| + |l.pending|), |l.active|)])
  }

  function Append(a: Lists, b: Lists): Lists {
    Lists(a.prepared + b.prepared, a.pending + b.pending, a.active + b.active)
  }

  /**
    * A page holds the next 48 records, or all that are left: it extends the first `offset`
    * records to the first `offset + 48`, and points on exactly if more remain.
    */
  lemma PageExtends(l: Lists, offset: nat)
    requires offset <= Total(l)
    ensures var p := PageAt(l, offset).value;
            && Append(Prefix(l, offset), p.records) == Prefix(l, Min(offset + 48, Total(l)))
            && Total(p.records) == Min(48, Total(l) - offset)
            && p.next == if offset + 48 < Total(l) then Some(offset + 48) else None
  {
    hide Slice, Min, SaturatingSub;
    PageSizes(|l.prepared|, |l.pending|, |l.active|, offset);
    var p := PageAt(l, offset).value.records;
    SliceExtends(l.prepared, Min(offset, |l.prepared|), RECORDS_PER_PAGE);
    SliceExtends(l.pending, Min(SaturatingSub(offset, |l.prepared|), |l.pending|), RECORDS_PER_PAGE - |p.prepared|);
    SliceExtends(l.active, Min(SaturatingSub(offset, |l.prepared| + |l.pending|), |l.active|),
                 RECORDS_PER_PAGE - |p.prepared| - |p.pending|);
  }

  lemma PageSizes(p: nat, q: nat, a: nat, offset: nat)
    requires offset <= p + q + a
    ensures var n1 := Min(RECORDS_PER_PAGE, p - Min(offset, p));
            var n2 := Min(RECORDS_PER_PAGE - n1, q - Min(SaturatingSub(offset, p), q));
            var n3 := Min(RECORDS_PER_PAGE - n1 - n2, a - Min(SaturatingSub(offset, p + q), a));
            var end := Min(offset + RECORDS_PER_PAGE, p + q + a);
            && Min(Min(offset, p) + RECORDS_PER_PAGE, p) == Min(end, p)
            && Min(Min(SaturatingSub(offset, p), q) + (RECORDS_PER_PAGE - n1), q) == Min(SaturatingSub(end, p), q)
            && Min(Min(SaturatingSub(offset, p + q), a) + (RECORDS_PER_PAGE - n1 - n2), a)
               == Min(SaturatingSub(end, p + q), a)
            && offset + n1 + n2 + n3 == end
            && n1 + n2 + n3 == Min(RECORDS_PER_PAGE, p + q + a - offset)
            && (end < p + q + a <==> offset + RECORDS_PER_PAGE < p + q + a)
            && (end < p + q + a ==> end == offset + RECORDS_PER_PAGE)
  {
  }

  lemma SliceExtends<T>(s: seq<T>, n: nat, k: nat)
    requires n <= |s|
    ensures s[..n] + Slice(s, n, k) == s[..Min(n + k, |s|)] && |Slice(s, n, k)| == Min(k, |s| - n)
  {
  }

  lemma PrefixEnds(l: Lists)
    ensures Prefix(l, 0) == Lists([], [], []) && Prefix(l, Total(l)) == l
  {
  }
}

/**
  * Snapshot isolation of the console's paged read: page requests interleave with controller
  * steps, expiries, connection changes and restarts of the server process.
  */
module ConsoleRuns {
  import opened Bytes
  import opened Scenario
  import opened Paging
  import opened Cursor
  import opened Console
  import Decimal
  import ScenarioRuns

  /** Hexadecimal identities, a reachable controller, and a revision counter that still fits. */
  ghost predicate Sound(s: Server) {
    ValidIdentity(s.identity) && ValidIdentity(s.catalogSha) && Valid(s.controller) && s.controller.revision <= U64_MAX
  }

  function ListsAt(s: Server): Lists { ListsOf(RecordsOf(s.controller)) }

  /** Same process, same revision. */
  predicate Same(s: Server, t: Server) {
    t.identity == s.identity && t.controller.revision == s.controller.revision
  }

  predicate SameRecords(s: Server, t: Server) {
    RecordsOf(t.controller) == RecordsOf(s.controller)
  }

  // ----- one request -----------------------------------------------------------------------

  lemma QueryRoutes(c: Cursor)
    requires InRange(c)
    ensures RouteOf(StateQuery(Some(PrintCursor(c)))) == Some(Some(c))
    ensures RouteOf(StateQuery(None)) == Some(None)
  {
    hide RouteOf, StateQuery, ParseCursor, PrintCursor, InRange;
    CursorRoundTrip(c);
    var query := StateQuery(Some(PrintCursor(c)));
    assert Carries(query, PrintCursor(c));
    RouteIff(query, c);
    RouteIff(StateQuery(None), c);
  }

  function CursorAt(s: Server, offset: nat): Cursor {
    Cursor(s.identity, s.controller.revision, offset)
  }

  function ConsoleCursorAt(s: Server, offset: nat): ConsoleCursor {
    ConsoleCursor(PrintCursor(CursorAt(s, offset)), s.identity, Decimal.Print(s.controller.revision),
                  Decimal.Print(offset))
  }

  /** What the console makes of a server's own page. */
  function OwnPage(s: Server, p: LifecyclePage): ConsolePage {
    ConsolePage(s.identity, Decimal.Print(s.controller.revision), s.catalogSha, s.view, s.controller.current, p.records,
                CountsOf(ListsAt(s)), match p.next case None => None case Some(n) => Some(ConsoleCursorAt(s, n)))
  }

  lemma PrintedIsRequired(n: nat)
    requires n <= U64_MAX
    ensures Decimal.Required(Decimal.Print(n)) == Some(Decimal.Print(n))
  {
    Decimal.PrintValue(n);
    Decimal.ParseU64Iff(Decimal.Print(n), n);
    Decimal.RequiredIsPrinted(Decimal.Print(n));
  }

  lemma OwnPageNormalizes(s: Server, p: LifecyclePage)
    requires Sound(s) && (p.next.Some? ==> p.next.value <= U64_MAX)
    ensures Normalize(PageOf(s, ListsAt(s), p)) == Ok(OwnPage(s, p))
  {
    hide Decimal.Required, ReadCursor, ParseCursor, PrintCursor, ListsOf, Valid, Decimal.Print;
    PrintedIsRequired(s.controller.revision);
    if p.next.Some? {
      var c := CursorAt(s, p.next.value);
      CursorRoundTrip(c);
      ReadersAgree(PrintCursor(c));
    }
  }

  /** Texts of cursors with different offsets differ. */
  lemma CursorsDiffer(s: Server, m: nat, n: nat)
    requires ValidIdentity(s.identity) && s.controller.revision <= U64_MAX && m < n <= U64_MAX
    ensures PrintCursor(CursorAt(s, m)) != PrintCursor(CursorAt(s, n))
  {
    hide PrintCursor, ParseCursor;
    CursorRoundTrip(CursorAt(s, m));
    CursorRoundTrip(CursorAt(s, n));
  }

  /** The number of pages that `total` records take. */
  function Pages(total: nat): nat {
    if total == 0 then 1 else (total + RECORDS_PER_PAGE - 1) / RECORDS_PER_PAGE
  }

  lemma PageCount(total: nat, n: nat)
    ensures n < Pages(total) <==> n == 0 || n * RECORDS_PER_PAGE < total
    ensures total <= 900 ==> 1 <= Pages(total) <= 19
  {
  }

  ghost function Seen(s: Server, n: nat): set<string> {
    set k | 0 < k < n :: PrintCursor(CursorAt(s, k * RECORDS_PER_PAGE))
  }

  /** The collector's variables after `n` pages of one unchanged snapshot. */
  ghost function ProgressAt(s: Server, n: nat): Progress {
    if n == 0 then START
    else Progress(Some(ConsoleCursorAt(s, n * RECORDS_PER_PAGE)), Some(OwnPage(s, PageAt(ListsAt(s), 0).value)),
                  Seen(s, n),
                  Prefix(ListsAt(s), n * RECORDS_PER_PAGE))
  }

  /** The reply to the request for page `n` of snapshot `s`, served by `t`. */
  lemma ReplyIs(s: Server, t: Server, n: nat)
    requires Sound(s) && n < Pages(Total(ListsAt(s))) && (n == 0 ==> t == s) && (Same(s, t) ==> SameRecords(s, t))
    ensures var route := RouteOf(Query(ProgressAt(s, n)));
            && route.Some?
            && Respond(t, route.value) == if !Same(s, t) then StaleCursor
                                          else PageReply(PageOf(t, ListsAt(t),
                                                                PageAt(ListsAt(s), n * RECORDS_PER_PAGE).value))
    ensures n * RECORDS_PER_PAGE <= Total(ListsAt(s)) <= 900
  {
    hide RouteOf, StateQuery, PrintCursor, Valid, ListsOf, PageAt, PageOf, RecordsOf;
    var l := ListsAt(s);
    TotalBound(s.controller);
    PageCount(Total(l), n);
    QueryRoutes(CursorAt(s, n * RECORDS_PER_PAGE));
    PageExtends(l, n * RECORDS_PER_PAGE);
  }

  /** What one iteration comes to: stale, mismatched, incoherent, the next page, or the end. */
  ghost function Expected(s: Server, t: Server, n: nat, catalogSha: string): Turn {
    if !Same(s, t) then Failed(StaleSnapshot)
    else if t.catalogSha != catalogSha then Failed(CatalogMismatch)
    else if n > 0 && s.catalogSha != catalogSha then Failed(CatalogMismatch)
    else if t.view != s.view then Failed(Incoherent)
    else if n + 1 < Pages(Total(ListsAt(s))) then More(ProgressAt(s, n + 1))
    else if KnownTargets(ListsAt(s), s.view.streams)
    then Done(Collected(OwnPage(s, PageAt(ListsAt(s), 0).value), ListsAt(s)))
    else Failed(Incoherent)
  }

  lemma KeysDiffer<V>(m: map<Key, V>)
    ensures forall i, j :: 0 <= i < j < |Listing(m)| ==> Listing(m)[i].key != Listing(m)[j].key
  {
    hide Place, Listing;
    ListingLists(m);
    assert forall k :: !Before(k, k) by { Irreflexive(); }
  }

  lemma Irreflexive()
    ensures forall k :: !Before(k, k)
  {
  }

  lemma ListsAreUnique(c: Controller)
    ensures UniqueRecords(ListsOf(RecordsOf(c)))
  {
    hide Listing, TokenKeyed, TargetKeyed;
    KeysDiffer(TokenKeyed(c.prepared));
    KeysDiffer(TargetKeyed(c.pending));
    KeysDiffer(TargetKeyed(c.active));
  }

  lemma NextCursorFresh(s: Server, n: nat)
    requires Sound(s) && n * RECORDS_PER_PAGE <= 900
    ensures var next := ConsoleCursorAt(s, (n + 1) * RECORDS_PER_PAGE);
            && next.text !in Seen(s, n + 1)
            && Decimal.IsGreater(next.offset, OffsetOf(ProgressAt(s, n).cursor))
    ensures n > 0 ==> ConsoleCursorAt(s, n * RECORDS_PER_PAGE).text !in Seen(s, n)
    ensures n > 0 ==> Seen(s, n + 1) == Seen(s, n) + {ConsoleCursorAt(s, n * RECORDS_PER_PAGE).text}
    ensures Seen(s, 0) == Seen(s, 1) == {}
  {
    hide PrintCursor, Valid, ListsOf, Decimal.IsGreater;
    forall k, m | 0 < k < m && m <= n + 1
      ensures PrintCursor(CursorAt(s, k * RECORDS_PER_PAGE)) != PrintCursor(CursorAt(s, m * RECORDS_PER_PAGE))
    {
      CursorsDiffer(s, k * RECORDS_PER_PAGE, m * RECORDS_PER_PAGE);
    }
    PrintedGreater((n + 1) * RECORDS_PER_PAGE, n * RECORDS_PER_PAGE);
    assert Decimal.Print(0) == "0";
  }

  lemma PrintedGreater(a: nat, b: nat)
    ensures Decimal.IsGreater(Decimal.Print(a), Decimal.Print(b)) <==> a > b
  {
    Decimal.PrintValue(a);
    Decimal.PrintValue(b);
    Decimal.GreaterIsNumeric(Decimal.Print(a), Decimal.Print(b));
  }

  /** The collector's iteration is the expected one. */
  lemma IterateIs(s: Server, t: Server, n: nat, now: nat, server: Server, catalogSha: string)
    requires Sound(s) && Sound(t) && n < Pages(Total(ListsAt(s))) && (n == 0 ==> t == s)
             && (Same(s, t) ==> SameRecords(s, t))
    requires t == Snap(server, now)
    requires n > 0 ==> s.catalogSha == catalogSha
    ensures Iterate(ProgressAt(s, n), Fetched(Serve(server, Query(ProgressAt(s, n)), now)), catalogSha)
         == Expected(s, t, n, catalogSha)
  {
    hide RouteOf, StateQuery, PrintCursor, Valid, ListsOf, PageAt, PageOf, RecordsOf, Respond, Snap, Normalize,
      Decimal.IsGreater,
      Decimal.Print, Prefix, Append, UniqueRecords, KnownTargets, Seen, Query;
    var l := ListsAt(s);
    ReplyIs(s, t, n);
    PageCount(Total(l), n);
    PageCount(Total(l), n + 1);
    PageExtends(l, n * RECORDS_PER_PAGE);
    PageExtends(l, 0);
    PrefixEnds(l);
    NextCursorFresh(s, n);
    ListsAreUnique(s.controller);
    if Same(s, t) {
      OwnPageNormalizes(t, PageAt(l, n * RECORDS_PER_PAGE).value);
    }
  }

  // ----- a whole collection ----------------------------------------------------------------

  /** The server just after it took the snapshot for request `k`. */
  function SnapAt(env: seq<Request>, k: nat): Server
    requires k < |env|
  {
    Snap(env[k].server, env[k].now)
  }

  /** Every request meets a sound server; where the revision is that of the first, so are the records. */
  ghost predicate Faithful(env: seq<Request>) {
    forall k :: 0 <= k < |env| ==>
                  && Sound(SnapAt(env, k))
                  && (Same(SnapAt(env, 0), SnapAt(env, k)) ==> SameRecords(SnapAt(env, 0), SnapAt(env, k)))
  }

  /** Request `k` finds process, revision, catalogue and view of the first request. */
  predicate Agrees(env: seq<Request>, k: nat, catalogSha: string)
    requires k < |env|
  {
    && Same(SnapAt(env, 0), SnapAt(env, k))
    && SnapAt(env, k).catalogSha == catalogSha
    && SnapAt(env, k).view == SnapAt(env, 0).view
  }

  lemma {:induction false} CollectsFrom(env: seq<Request>, n: nat, catalogSha: string)
    requires 0 < |env| && Faithful(env)
    requires n < Pages(Total(ListsAt(SnapAt(env, 0)))) && (n > 0 ==> SnapAt(env, 0).catalogSha == catalogSha)
    ensures var s := SnapAt(env, 0);
            var pages := Pages(Total(ListsAt(s)));
            var r := CollectFrom(env, n, ProgressAt(s, n), catalogSha);
            && (r.Ok? <==> pages <= |env| && KnownTargets(ListsAt(s), s.view.streams)
                           && forall k :: n <= k < pages ==> Agrees(env, k, catalogSha))
            && (r.Ok? ==> r.value == Collected(OwnPage(s, PageAt(ListsAt(s), 0).value), ListsAt(s)))
            && n + Requests(env, n, ProgressAt(s, n), catalogSha) <= pages
    decreases Pages(Total(ListsAt(SnapAt(env, 0)))) - n
  {
    hide Serve, Query, ProgressAt, ListsAt, Sound, KnownTargets, PageAt, OwnPage, SameRecords, Snap, Iterate;
    var s := SnapAt(env, 0);
    var total := Total(ListsAt(s));
    BoundAt(s);
    PageCount(total, n);
    if n < |env| {
      var t := SnapAt(env, n);
      IterateIs(s, t, n, env[n].now, env[n].server, catalogSha);
      var fetched := Fetched(Serve(env[n].server, Query(ProgressAt(s, n)), env[n].now));
      var turn := Iterate(ProgressAt(s, n), fetched, catalogSha);
      assert turn.More? ==> n + 1 < Pages(total) && Agrees(env, n, catalogSha);
      assert !turn.More? && !turn.Done? ==> !Agrees(env, n, catalogSha) || !KnownTargets(ListsAt(s), s.view.streams);
      if turn.More? {
        CollectsFrom(env, n + 1, catalogSha);
      }
    }
  }

  lemma BoundAt(s: Server)
    requires Sound(s)
    ensures Total(ListsAt(s)) <= 900
  {
    hide Valid;
    TotalBound(s.controller);
  }

  /**
    * A cursor that the server issued, replayed at its own revision, gets its page: never an
    * `invalid_console_cursor`, and never a refused query.
    */
  lemma IssuedCursorReplays(s: Server, t: Server, asked: Option<Cursor>, server: Server, now: nat)
    requires Sound(s) && Respond(s, asked).PageReply? && Respond(s, asked).page.next.Some?
    requires t == Snap(server, now) && Same(s, t) && SameRecords(s, t)
    ensures Serve(server, StateQuery(Some(Respond(s, asked).page.next.value)), now).PageReply?
  {
    hide RouteOf, StateQuery, PrintCursor, Valid, ListsOf, PageAt, RecordsOf, Snap;
    var l := ListsAt(s);
    var offset := if asked.Some? then asked.value.offset else 0;
    PageExtends(l, offset);
    BoundAt(s);
    var next := CursorAt(s, offset + RECORDS_PER_PAGE);
    QueryRoutes(next);
    PageExtends(l, next.offset);
  }

  // ----- interleaving with everything else that happens ------------------------------------

  datatype Event = Operate(op: ScenarioRuns.Op) | ChangeView(view: View) | Restart(server: Server)

  /** A controller step, a change of connections or health, or a new process with a new identity. */
  ghost predicate Occurs(worlds: seq<Server>, event: Event, k: nat)
    requires k + 1 < |worlds|
  {
    var w, next := worlds[k], worlds[k + 1];
    match event
    case Operate(op) => Valid(w.controller) ==> next == w.(controller := ScenarioRuns.Apply(w.controller, op))
    case ChangeView(view) => next == w.(view := view)
    case Restart(server) =>
      && next == server && Valid(server.controller)
      && forall i :: 0 <= i <= k ==> worlds[i].identity != server.identity
  }

  ghost predicate IsTrace(worlds: seq<Server>, events: seq<Event>) {
    && |worlds| == |events| + 1 && Valid(worlds[0].controller)
    && forall k :: 0 <= k < |events| ==> Occurs(worlds, events[k], k)
  }

  lemma {:induction false} TraceValid(worlds: seq<Server>, events: seq<Event>, k: nat)
    requires IsTrace(worlds, events) && k < |worlds|
    ensures Valid(worlds[k].controller)
  {
    hide Valid, ScenarioRuns.Apply;
    if k > 0 {
      var j := k - 1;
      TraceValid(worlds, events, j);
      assert Occurs(worlds, events[j], j);
      if events[j].Operate? {
        ScenarioRuns.ApplyKeeps(worlds[j].controller, events[j].op);
      }
    }
  }

  /** A process identity that was left never comes back. */
  lemma {:induction false} NeverReturns(worlds: seq<Server>, events: seq<Event>, i: nat, k: nat, j: nat)
    requires IsTrace(worlds, events) && i <= k <= j < |worlds| && worlds[k].identity != worlds[i].identity
    ensures worlds[j].identity != worlds[i].identity
    decreases j
  {
    hide Valid, ScenarioRuns.Apply;
    if k < j {
      NeverReturns(worlds, events, i, k, j - 1);
      TraceValid(worlds, events, j - 1);
      assert Occurs(worlds, events[j - 1], j - 1);
    }
  }

  /** Within one process the revision never falls, and equal revisions mean equal records. */
  lemma {:induction false} RevisionCovers(worlds: seq<Server>, events: seq<Event>, i: nat, j: nat)
    requires IsTrace(worlds, events) && i <= j < |worlds| && worlds[i].identity == worlds[j].identity
    ensures worlds[i].controller.revision <= worlds[j].controller.revision
    ensures Same(worlds[i], worlds[j]) ==> SameRecords(worlds[i], worlds[j])
    decreases j
  {
    hide Valid, ScenarioRuns.Apply, RecordsOf;
    if i < j {
      var k := j - 1;
      if worlds[k].identity != worlds[i].identity {
        NeverReturns(worlds, events, i, k, j);
      } else {
        RevisionCovers(worlds, events, i, k);
        TraceValid(worlds, events, k);
        assert Occurs(worlds, events[k], k);
        if events[k].Operate? {
          ScenarioRuns.StepFacts(worlds[k].controller, events[k].op);
        }
      }
    }
  }

  /** The requests of a collection are snapshots taken in order at places of the trace. */
  ghost predicate ServedAt(worlds: seq<Server>, events: seq<Event>, env: seq<Request>, places: seq<nat>) {
    && |places| == |env| && |worlds| == |events| + 1
    && (forall k :: 0 <= k < |env| ==>
                      && places[k] < |events| && events[places[k]] == Operate(ScenarioRuns.OpSnapshot(env[k].now))
                      && env[k].server == worlds[places[k]])
    && (forall k, m :: 0 <= k < m < |env| ==> places[k] < places[m])
  }

  ghost predicate SoundTrace(worlds: seq<Server>) {
    forall k :: 0 <= k < |worlds| ==>
                  ValidIdentity(worlds[k].identity) && ValidIdentity(worlds[k].catalogSha)
                  && worlds[k].controller.revision <= U64_MAX
  }

  lemma SnapIsNext(worlds: seq<Server>, events: seq<Event>, env: seq<Request>, places: seq<nat>, k: nat)
    requires IsTrace(worlds, events) && ServedAt(worlds, events, env, places) && k < |env|
    ensures places[k] + 1 < |worlds| && SnapAt(env, k) == worlds[places[k] + 1]
  {
    hide Valid, DiscardExpired;
    var i := places[k];
    TraceValid(worlds, events, i);
    assert Occurs(worlds, events[i], i);
  }

  lemma TraceIsFaithful(worlds: seq<Server>, events: seq<Event>, env: seq<Request>, places: seq<nat>)
    requires IsTrace(worlds, events) && SoundTrace(worlds) && ServedAt(worlds, events, env, places)
    ensures Faithful(env)
  {
    hide Valid, Snap, RecordsOf, IsTrace, ServedAt;
    forall k | 0 <= k < |env|
      ensures Sound(SnapAt(env, k))
              && (Same(SnapAt(env, 0), SnapAt(env, k)) ==> SameRecords(SnapAt(env, 0), SnapAt(env, k)))
    {
      SnapIsNext(worlds, events, env, places, 0);
      SnapIsNext(worlds, events, env, places, k);
      Ordered(worlds, events, env, places, k);
      TraceValid(worlds, events, places[k] + 1);
      if Same(SnapAt(env, 0), SnapAt(env, k)) {
        RevisionCovers(worlds, events, places[0] + 1, places[k] + 1);
      }
    }
  }

  lemma Ordered(worlds: seq<Server>, events: seq<Event>, env: seq<Request>, places: seq<nat>, k: nat)
    requires ServedAt(worlds, events, env, places) && k < |env|
    ensures |places| == |env| && places[0] <= places[k]
  {
  }

  /**
    * Snapshot isolation. In every interleaving, a collection that the console accepts equals the
    * lists the controller held at one instant, the one right after the first request: each record
    * once, in order. It is accepted exactly if every page was served by the same process at the
    * same revision, catalogue and view and the records name known endpoints, and it never takes
    * more than 19 requests.
    */
  lemma SnapshotIsolation(worlds: seq<Server>, events: seq<Event>, env: seq<Request>, places: seq<nat>,
                          catalogSha: string)
    requires IsTrace(worlds, events) && SoundTrace(worlds) && ServedAt(worlds, events, env, places) && env != []
    ensures |places| > 0 && places[0] + 1 < |worlds|
    ensures var at := worlds[places[0] + 1];
            var pages := Pages(Total(ListsAt(at)));
            var r := Collect(env, catalogSha);
            && (r.Ok? ==>
                  && r.value.lists == ListsAt(at) && r.value.baseline.view == at.view
                  && r.value.baseline.identity == at.identity)
            && (r.Ok? <==> pages <= |env| && KnownTargets(ListsAt(at), at.view.streams)
                           && forall k :: 0 <= k < pages ==> Agrees(env, k, catalogSha))
            && Requests(env, 0, START, catalogSha) <= pages <= 19
            && IsListing(ListsAt(at).prepared, TokenKeyed(at.controller.prepared))
            && IsListing(ListsAt(at).pending, TargetKeyed(at.controller.pending))
            && IsListing(ListsAt(at).active, TargetKeyed(at.controller.active))
  {
    hide Valid, Snap, IsTrace, ServedAt, KnownTargets, IsListing, Sound, Agrees, TokenKeyed, TargetKeyed, CollectFrom,
      PageAt, Requests;
    TraceIsFaithful(worlds, events, env, places);
    SnapIsNext(worlds, events, env, places, 0);
    Ordered(worlds, events, env, places, 0);
    var at := worlds[places[0] + 1];
    FaithfulFirst(env);
    BoundAt(at);
    PageCount(Total(ListsAt(at)), 0);
    CollectsFrom(env, 0, catalogSha);
    ListingLists(TokenKeyed(at.controller.prepared));
    ListingLists(TargetKeyed(at.controller.pending));
    ListingLists(TargetKeyed(at.controller.active));
  }

  lemma FaithfulFirst(env: seq<Request>)
    requires Faithful(env) && env != []
    ensures Sound(SnapAt(env, 0))
  {
  }
}

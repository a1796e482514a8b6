/**
  * The console's optimistic paged read: the server's reply to a console query, the loop that
  * stitches pages together, and what the stitched result is worth while the controller changes.
  */
module Console {
  import opened Bytes
  import opened Scenario
  import opened Paging
  import opened Cursor
  import Decimal

  /** The page fields that the console's fingerprint covers; `streams` are the endpoints' stream ids. */
  datatype View = View(streams: seq<nat>, other: string)

  datatype Server = Server(identity: string, catalogSha: string, view: View, controller: Controller)

  datatype Counts = Counts(prepared: nat, pending: nat, active: nat)

  datatype Page = Page(
    identity: string,
    revision: string,
    catalogSha: string,
    view: View,
    currentSample: Option<nat>,
    records: Lists,
    counts: Counts,
    next: Option<string>)

  datatype Reply = PageReply(page: Page) | StaleCursor | InvalidCursor | InvalidQuery

  // ----- the server ------------------------------------------------------------------------

  function CountsOf(l: Lists): Counts {
    Counts(|l.prepared|, |l.pending|, |l.active|)
  }

  function PageOf(s: Server, l: Lists, p: LifecyclePage): Page {
    Page(s.identity, Decimal.Print(s.controller.revision), s.catalogSha, s.view, s.controller.current, p.records,
         CountsOf(l),
         match p.next
         case None => None
         case Some(n) => Some(PrintCursor(Cursor(s.identity, s.controller.revision, n))))
  }

  /** The reply once the snapshot has been taken. */
  function Respond(s: Server, cursor: Option<Cursor>): Reply {
    if cursor.Some? && (cursor.value.identity != s.identity || cursor.value.revision != s.controller.revision)
    then StaleCursor
    else
      var l := ListsOf(RecordsOf(s.controller));
      match PageAt(l, if cursor.Some? then cursor.value.offset else 0)
      case None => InvalidCursor
      case Some(p) =>
        if cursor.Some? && p.records.prepared == [] && p.records.pending == []
           && p.records.active == [] then InvalidCursor
        else PageReply(PageOf(s, l, p))
  }

  /** Taking the snapshot discards expired preparations. */
  function Snap(s: Server, now: nat): Server {
    s.(controller := DiscardExpired(s.controller, now))
  }

  /** `management_console_state_response` behind its route. */
  function Serve(s: Server, query: string, now: nat): Reply {
    match RouteOf(query)
    case None => InvalidQuery
    case Some(cursor) => Respond(Snap(s, now), cursor)
  }

  // ----- the console -----------------------------------------------------------------------

  datatype Failure = BadPayload | Incoherent | CatalogMismatch | StaleSnapshot | BadResponse

  /** A page after validation; the revision is a normalised decimal string. */
  datatype ConsolePage = ConsolePage(
    identity: string,
    revision: string,
    catalogSha: string,
    view: View,
    currentSample: Option<nat>,
    records: Lists,
    counts: Counts,
    next: Option<ConsoleCursor>)

  function Normalize(p: Page): Result<ConsolePage, Failure> {
    if !ValidIdentity(p.identity) || !ValidIdentity(p.catalogSha) then Err(BadPayload)
    else match Decimal.Required(p.revision)
         case None => Err(BadPayload)
         case Some(revision) =>
           if p.next.None? then
             Ok(ConsolePage(p.identity, revision, p.catalogSha, p.view, p.currentSample, p.records, p.counts, None))
           else match ReadCursor(p.next.value)
                case None => Err(BadPayload)
                case Some(c) =>
                  if c.identity != p.identity || c.revision != revision then Err(BadPayload)
                  else Ok(ConsolePage(p.identity, revision, p.catalogSha, p.view, p.currentSample, p.records, p.counts,
                                      Some(c)))
  }

  /** `fetchConsolePage`: error replies become failures. */
  function Fetched(reply: Reply): Result<ConsolePage, Failure> {
    match reply
    case PageReply(p) => Normalize(p)
    case StaleCursor => Err(StaleSnapshot)
    case _ => Err(BadResponse)
  }

  /** Two rows that the console cannot tell apart. */
  predicate SamePending(a: Row<Pending>, b: Row<Pending>) {
    a.key == b.key && a.value.action.Activate? == b.value.action.Activate?
    && (a.value.action.Activate? && b.value.action.Activate? ==>
          a.value.action.scenario.name == b.value.action.scenario.name)
  }

  predicate SameActive(a: Row<Active>, b: Row<Active>) {
    && a.key == b.key && a.value.scenario.name == b.value.scenario.name
    && a.value.scenario.startFrameOffset == b.value.scenario.startFrameOffset
  }

  /** `assertUniqueLifecycleRecords`. */
  predicate UniqueRecords(l: Lists) {
    && (forall i, j :: 0 <= i < j < |l.prepared| ==> l.prepared[i].key != l.prepared[j].key)
    && (forall i, j :: 0 <= i < j < |l.pending| ==> !SamePending(l.pending[i], l.pending[j]))
    && (forall i, j :: 0 <= i < j < |l.active| ==> !SameActive(l.active[i], l.active[j]))
  }

  predicate KnownTarget(t: Target, streams: seq<nat>) { t.streamId in streams }

  /** `assertTargetsMatchEndpoints`. */
  predicate KnownTargets(l: Lists, streams: seq<nat>) {
    && (forall r :: r in l.prepared ==> KnownTarget(r.value.target, streams))
    && (forall r :: r in l.pending ==> r.key.TargetKey? && KnownTarget(r.key.target, streams))
    && (forall r :: r in l.active ==> r.key.TargetKey? && KnownTarget(r.key.target, streams))
  }

  /** The collector's variables between two pages. */
  datatype Progress = Progress(cursor: Option<ConsoleCursor>, baseline: Option<ConsolePage>, seen: set<string>,
                               lists: Lists)

  datatype Collected = Collected(baseline: ConsolePage, lists: Lists)

  datatype Turn = Done(collected: Collected) | Failed(failure: Failure) | More(progress: Progress)

  const START := Progress(None, None, {}, Lists([], [], []))

  function Query(p: Progress): string {
    StateQuery(match p.cursor case None => None case Some(c) => Some(c.text))
  }

  function OffsetOf(c: Option<ConsoleCursor>): string {
    if c.None? then "0" else c.value.offset
  }

  /** One iteration of the collector's loop, given what its request fetched. */
  function Iterate(p: Progress, fetched: Result<ConsolePage, Failure>, catalogSha: string): Turn {
    if p.cursor.Some? && p.cursor.value.text in p.seen then Failed(Incoherent)
    else
      var seen := if p.cursor.Some? then p.seen + {p.cursor.value.text} else p.seen;
      match fetched
      case Err(f) => Failed(f)
      case Ok(page) =>
        if page.catalogSha != catalogSha then Failed(CatalogMismatch)
        else
          var base := if p.baseline.Some? then p.baseline.value else page;
          if page.identity != base.identity || page.revision != base.revision then Failed(Incoherent)
          else if page.catalogSha != base.catalogSha then Failed(CatalogMismatch)
          else if page.view != base.view || page.counts != base.counts then Failed(Incoherent)
          else
            var lists := Append(p.lists, page.records);
            if page.next.None? then
              if CountsOf(lists) == base.counts && UniqueRecords(lists) && KnownTargets(lists, base.view.streams)
              then Done(Collected(base, lists)) else Failed(Incoherent)
            else if !Decimal.IsGreater(page.next.value.offset, OffsetOf(p.cursor)) || page.next.value.text in seen then
              Failed(Incoherent)
            else More(Progress(page.next, Some(base), seen, lists))
  }

  const MAX_CONSOLE_PAGES := 256

  /** The server that handles a request, and when. */
  datatype Request = Request(server: Server, now: nat)

  /** The loop from its `n`-th request on; a request beyond `env` is one that is never answered. */
  function CollectFrom(env: seq<Request>, n: nat, p: Progress, catalogSha: string): Result<Collected, Failure>
    decreases MAX_CONSOLE_PAGES - n
  {
    if n >= MAX_CONSOLE_PAGES then Err(Incoherent)
    else if n >= |env| then Err(BadResponse)
    else match Iterate(p, Fetched(Serve(env[n].server, Query(p), env[n].now)), catalogSha)
         case Done(c) => Ok(c)
         case Failed(f) => Err(f)
         case More(q) => CollectFrom(env, n + 1, q, catalogSha)
  }

  function Collect(env: seq<Request>, catalogSha: string): Result<Collected, Failure> {
    CollectFrom(env, 0, START, catalogSha)
  }

  /** How many requests the loop sends. */
  function Requests(env: seq<Request>, n: nat, p: Progress, catalogSha: string): nat
    decreases MAX_CONSOLE_PAGES - n
  {
    if n >= MAX_CONSOLE_PAGES then 0
    else if n >= |env| then 1
    else match Iterate(p, Fetched(Serve(env[n].server, Query(p), env[n].now)), catalogSha)
         case More(q) => 1 + Requests(env, n + 1, q, catalogSha)
         case _ => 1
  }

  /** `collectConsolePages`, variable by variable. */
  method CollectConsolePages(env: seq<Request>, catalogSha: string) returns (r: Result<Collected, Failure>)
    ensures r == Collect(env, catalogSha)
  {
    hide Serve, Decimal.IsGreater, KnownTargets, UniqueRecords, Fetched, StateQuery;
    var cursor: Option<ConsoleCursor> := None;
    var baseline: Option<ConsolePage> := None;
    var seen: set<string> := {};
    var prepared: seq<Row<Prepared>>, pending: seq<Row<Pending>>, active: seq<Row<Active>> := [], [], [];
    var pageNumber := 0;
    while pageNumber < MAX_CONSOLE_PAGES
      invariant pageNumber <= MAX_CONSOLE_PAGES
      invariant CollectFrom(env, pageNumber, Progress(cursor, baseline, seen, Lists(prepared, pending, active)),
                            catalogSha)
             == Collect(env, catalogSha)
    {
      ghost var p := Progress(cursor, baseline, seen, Lists(prepared, pending, active));
      if pageNumber >= |env| {
        return Err(BadResponse);
      }
      var reply := Serve(env[pageNumber].server,
                         StateQuery(match cursor case None => None case Some(c) => Some(c.text)), env[pageNumber].now);
      assert reply == Serve(env[pageNumber].server, Query(p), env[pageNumber].now);
      if cursor.Some? {
        if cursor.value.text in seen {
          return Err(Incoherent);
        }
        seen := seen + {cursor.value.text};
      }
      var fetched := Fetched(reply);
      if fetched.Err? {
        return Err(fetched.error);
      }
      var page := fetched.value;
      if page.catalogSha != catalogSha {
        return Err(CatalogMismatch);
      }
      if baseline.None? {
        baseline := Some(page);
      } else {
        if page.identity != baseline.value.identity || page.revision != baseline.value.revision {
          return Err(Incoherent);
        }
        if page.catalogSha != baseline.value.catalogSha {
          return Err(CatalogMismatch);
        }
        if page.view != baseline.value.view || page.counts != baseline.value.counts {
          return Err(Incoherent);
        }
      }
      prepared := prepared + page.records.prepared;
      pending := pending + page.records.pending;
      active := active + page.records.active;
      var lists := Lists(prepared, pending, active);
      if page.next.None? {
        if CountsOf(lists) != baseline.value.counts || !UniqueRecords(lists)
           || !KnownTargets(lists, baseline.value.view.streams) {
          return Err(Incoherent);
        }
        return Ok(Collected(baseline.value, lists));
      }
      if !Decimal.IsGreater(page.next.value.offset, if cursor.None? then "0" else cursor.value.offset)
         || page.next.value.text in seen {
        return Err(Incoherent);
      }
      cursor := page.next;
      pageNumber := pageNumber + 1;
    }
    r := Err(Incoherent);
  }

  /** A collection that is worth another attempt. */
  predicate Retried(env: seq<Request>, catalogSha: string) {
    var r := Collect(env, catalogSha);
    r == Err(CatalogMismatch) || r == Err(StaleSnapshot)
  }

  /**
    * `loadCoherentSnapshot`: one retry after a catalogue mismatch, with a fresh catalogue, and one
    * after a stale cursor per catalogue. Four collections and two catalogues always suffice, and
    * an accepted snapshot is one whole collection under the last catalogue fetched.
    */
  method LoadCoherentSnapshot(catalogs: seq<string>, attempts: seq<seq<Request>>)
    returns (r: Result<Collected, Failure>, used: nat, fetched: nat)
    requires |catalogs| >= 2 && |attempts| >= 4
    ensures 1 <= used <= 4 && 1 <= fetched <= 2
    ensures r == Collect(attempts[used - 1], catalogs[fetched - 1])
    ensures forall k :: 0 <= k < used - 1 ==>
                          exists c :: 0 <= c < fetched && Retried(attempts[k], catalogs[c])
    ensures r == Err(CatalogMismatch) ==> fetched == 2
    ensures r == Err(StaleSnapshot) ==>
              used >= 2 && Collect(attempts[used - 2], catalogs[fetched - 1]) == Err(StaleSnapshot)
  {
    hide Collect;
    fetched := 1;
    used := 0;
    var catalogRetried, staleRetried := false, false;
    while true
      invariant fetched == (if catalogRetried then 2 else 1)
      invariant used <= (if catalogRetried then 2 else 0) + (if staleRetried then 1 else 0)
      invariant forall k :: 0 <= k < used ==>
                              exists c :: 0 <= c < fetched && Retried(attempts[k], catalogs[c])
      invariant staleRetried ==> used >= 1 && Collect(attempts[used - 1], catalogs[fetched - 1]) == Err(StaleSnapshot)
      decreases !catalogRetried, !staleRetried
    {
      r := CollectConsolePages(attempts[used], catalogs[fetched - 1]);
      used := used + 1;
      if r == Err(CatalogMismatch) && !catalogRetried {
        catalogRetried := true;
        staleRetried := false;
        fetched := fetched + 1;
      } else if r == Err(StaleSnapshot) && !staleRetried {
        staleRetried := true;
      } else {
        return;
      }
    }
  }
}

/**
  * The console reads the revision out of the page's text, because as a parsed number it could
  * lose digits. Here pages are the JSON texts that the server sends, and the collector over
  * texts is the collector over pages.
  */
module ConsoleText {
  import opened Bytes
  import opened Json
  import opened JsonScan
  import opened Console
  import ConsoleRuns
  import Cursor
  import Decimal
  import Paging

  // ----- objects from fields ---------------------------------------------------------------

  datatype Field = Field(name: string, value: Value)

  predicate IsNameChar(c: char) { 'a' <= c <= 'z' || '0' <= c <= '9' || c == '_' }

  predicate IsName(s: string) { forall i :: 0 <= i < |s| ==> IsNameChar(s[i]) }

  function Units(s: string): (u: seq<Unit>)
    ensures |u| == |s| && forall i :: 0 <= i < |s| ==> u[i] == Plain(s[i])
  {
    seq(|s|, i requires 0 <= i < |s| => Plain(s[i]))
  }

  /** Compact members, as the serializer writes them. */
  function MembersOf(fields: seq<Field>): Members
    requires fields != []
  {
    var m := Member("", Units(fields[0].name), "", "", fields[0].value, "");
    if |fields| == 1 then LastMember(m) else MoreMembers(m, MembersOf(fields[1..]))
  }

  predicate WellFormedFields(fields: seq<Field>) {
    forall i :: 0 <= i < |fields| ==> IsName(fields[i].name) && WellFormed(fields[i].value)
  }

  lemma {:induction false} MembersWellFormed(fields: seq<Field>)
    requires fields != [] && WellFormedFields(fields)
    ensures WellFormedMembers(MembersOf(fields))
  {
    NameUnits(fields[0].name);
    if |fields| > 1 {
      MembersWellFormed(fields[1..]);
    }
  }

  lemma NameUnits(s: string)
    requires IsName(s)
    ensures WellFormedName(Units(s))
  {
  }

  /** The code units of a name are its characters. */
  lemma {:induction false} NameCodes(s: string)
    requires IsName(s)
    ensures WellFormedName(Units(s)) && |Codes(Units(s))| == |s|
    ensures forall i :: 0 <= i < |s| ==> Codes(Units(s))[i] == s[i] as nat
  {
    NameUnits(s);
    if s != "" {
      NameCodes(s[1..]);
      assert Units(s)[1..] == Units(s[1..]);
      assert Utf16(s[0]) == [s[0] as nat];
      assert Codes(Units(s)) == [s[0] as nat] + Codes(Units(s[1..]));
    }
  }

  lemma CodesInjective(s: string, t: string)
    requires IsName(s) && IsName(t) && s != t
    ensures WellFormedName(Units(s)) && WellFormedName(Units(t)) && Codes(Units(s)) != Codes(Units(t))
  {
    NameCodes(s);
    NameCodes(t);
    assert |s| == |t| ==> !(forall i :: 0 <= i < |s| ==> s[i] == t[i]) by {
      assert |s| == |t| && (forall i :: 0 <= i < |s| ==> s[i] == t[i]) ==> s == t;
    }
  }

  predicate Lacks(fields: seq<Field>, name: string) {
    forall i :: 0 <= i < |fields| ==> fields[i].name != name
  }

  lemma {:induction false} NoneMatching(fields: seq<Field>, name: string)
    requires fields != [] && WellFormedFields(fields) && IsName(name) && Lacks(fields, name)
    ensures WellFormedMembers(MembersOf(fields)) && WellFormedName(Units(name))
    ensures Matching(MembersOf(fields), Codes(Units(name))) == []
  {
    MembersWellFormed(fields);
    CodesInjective(fields[0].name, name);
    if |fields| > 1 {
      NoneMatching(fields[1..], name);
    }
  }

  /** A field that occurs once is the only match of its name. */
  lemma {:induction false} OneMatching(before: seq<Field>, field: Field, after: seq<Field>)
    requires WellFormedFields(before + [field] + after) && IsName(field.name) && WellFormed(field.value)
    requires Lacks(before, field.name) && Lacks(after, field.name)
    ensures var fields := before + [field] + after;
            && WellFormedMembers(MembersOf(fields)) && WellFormedName(Units(field.name))
            && Matching(MembersOf(fields), Codes(Units(field.name))) == [field.value]
    decreases |before|
  {
    var fields := before + [field] + after;
    MembersWellFormed(fields);
    NameUnits(field.name);
    if before == [] {
      assert fields[0] == field && fields[1..] == after;
      if after != [] {
        NoneMatching(after, field.name);
      }
    } else {
      assert fields[0] == before[0] && fields[1..] == before[1..] + [field] + after;
      CodesInjective(before[0].name, field.name);
      OneMatching(before[1..], field, after);
    }
  }

  // ----- the text of a page ----------------------------------------------------------------

  function RevisionName(): string { "controller_revision" }

  /** The members before and behind the revision; the runtime metadata may be absent. */
  datatype Layout = Layout(before: seq<Field>, after: seq<Field>)

  predicate WellLaid(l: Layout) {
    WellFormedFields(l.before + l.after) && Lacks(l.before, RevisionName()) && Lacks(l.after, RevisionName())
  }

  function NamesBefore(): seq<string> { ["format", "process_identity"] }

  function NamesAfter(metadata: bool): seq<string> {
    ["catalog_content_sha256", "ready", "time_health", "stats", "fleet", "endpoints"]
    + (if metadata then ["runtime_metadata"] else []) + ["scenario_controller", "next_cursor"]
  }

  predicate Names(fields: seq<Field>, names: seq<string>) {
    |fields| == |names| && forall i :: 0 <= i < |fields| ==> fields[i].name == names[i]
  }

  lemma OtherNames(metadata: bool)
    ensures forall i :: 0 <= i < |NamesBefore()| ==> NamesBefore()[i] != RevisionName()
    ensures forall i :: 0 <= i < |NamesAfter(metadata)| ==> NamesAfter(metadata)[i] != RevisionName()
  {
    assert "scenario_controller"[0] != RevisionName()[0];
  }

  /** The members that the server's response has, with any values, are well laid out. */
  lemma ResponseIsWellLaid(l: Layout, metadata: bool)
    requires WellFormedFields(l.before + l.after)
    requires Names(l.before, NamesBefore()) && Names(l.after, NamesAfter(metadata))
    ensures WellLaid(l)
  {
    hide NamesBefore, NamesAfter, RevisionName;
    OtherNames(metadata);
  }

  /** The response body of a page. */
  function PageText(p: Page, l: Layout): string {
    Render(Object(MembersOf(l.before + [Field(RevisionName(), Literal(p.revision))] + l.after)))
  }

  lemma RevisionIsName()
    ensures IsName(RevisionName())
  {
  }

  /** The scanner finds the revision of every page text, whatever the other members hold. */
  lemma TextRevision(p: Page, l: Layout)
    requires WellLaid(l) && p.revision != "" && Decimal.Digits(p.revision)
    ensures WellFormedName(Units(RevisionName()))
    ensures Extract(PageText(p, l), Codes(Units(RevisionName()))) == Decimal.Required(p.revision)
  {
    hide Decimal.Required, RevisionName, Extract, Matching, WellFormedMembers;
    RevisionIsName();
    var field := Field(RevisionName(), Literal(p.revision));
    var fields := l.before + [field] + l.after;
    FieldsWellFormed(l, field);
    OneMatching(l.before, field, l.after);
    var v := Object(MembersOf(fields));
    var text := PageText(p, l);
    assert "" + Render(v) == text && text[0..|text|] == text;
    ExtractIsTopLevel(text, "", v, Codes(Units(RevisionName())));
  }

  lemma FieldsWellFormed(l: Layout, field: Field)
    requires WellLaid(l) && IsName(field.name)
    requires field.value.Literal? && field.value.text != "" && Decimal.Digits(field.value.text)
    ensures WellFormed(field.value) && WellFormedFields(l.before + [field] + l.after)
  {
    var fields := l.before + [field] + l.after;
    forall i | 0 <= i < |fields|
      ensures IsName(fields[i].name) && WellFormed(fields[i].value)
    {
      if i < |l.before| {
        assert fields[i] == (l.before + l.after)[i];
      } else if i > |l.before| {
        assert fields[i] == (l.before + l.after)[i - 1];
      }
    }
  }

  // ----- the collector over texts ----------------------------------------------------------

  /** `fetchConsolePage`: the revision comes from the text, the rest from the parsed payload. */
  function FetchedText(reply: Reply, l: Layout): Result<ConsolePage, Failure>
    requires WellLaid(l)
  {
    hide RevisionName;
    match reply
    case PageReply(p) =>
      (RevisionIsName();
       NameUnits(RevisionName());
       match Extract(PageText(p, l), Codes(Units(RevisionName())))
       case None => Err(BadPayload)
       case Some(raw) => Normalize(p.(revision := raw)))
    case _ => Fetched(reply)
  }

  /** Reading the revision from the text changes nothing. */
  lemma FetchedTextIsFetched(s: Server, query: string, now: nat, l: Layout)
    requires WellLaid(l)
    ensures FetchedText(Serve(s, query, now), l) == Fetched(Serve(s, query, now))
  {
    hide Decimal.Required, RevisionName, Extract, PageText, Codes, Serve, Normalize, WellLaid, Units;
    var reply := Serve(s, query, now);
    if reply.PageReply? {
      var p := reply.page;
      ServedRevision(s, query, now);
      TextRevision(p, l);
      RequiredTwice(p.revision);
      if Decimal.Required(p.revision).Some? {
        SameRevision(p, Decimal.Required(p.revision).value);
      } else {
        NoRevision(p);
      }
    }
  }

  lemma SameRevision(p: Page, raw: string)
    requires Decimal.Required(raw) == Decimal.Required(p.revision)
    ensures Normalize(p.(revision := raw)) == Normalize(p)
  {
    hide Decimal.Required, Cursor.ReadCursor, Cursor.ValidIdentity;
  }

  lemma NoRevision(p: Page)
    requires Decimal.Required(p.revision).None?
    ensures Normalize(p) == Err(BadPayload)
  {
    hide Decimal.Required, Cursor.ValidIdentity;
  }

  lemma ServedRevision(s: Server, query: string, now: nat)
    requires Serve(s, query, now).PageReply?
    ensures var r := Serve(s, query, now).page.revision; r != "" && Decimal.Digits(r)
  {
  }

  lemma RequiredTwice(s: string)
    ensures Decimal.Required(s).Some? ==> Decimal.Required(Decimal.Required(s).value) == Decimal.Required(s)
  {
    Decimal.RequiredIsPrinted(s);
    if Decimal.Required(s).Some? {
      var n := Decimal.ParseU64(s).value;
      Decimal.ParseU64Iff(s, n);
      ConsoleRuns.PrintedIsRequired(n);
    }
  }

  /** The collector as it runs: every page arrives as a text in some layout. */
  function CollectTexts(
    env: seq<Request>, layouts: seq<Layout>, n: nat, p: Progress, catalogSha: string): Result<Collected, Failure>
    requires |layouts| == |env| && forall k :: 0 <= k < |layouts| ==> WellLaid(layouts[k])
    decreases MAX_CONSOLE_PAGES - n
  {
    hide WellLaid;
    if n >= MAX_CONSOLE_PAGES then Err(Incoherent)
    else if n >= |env| then Err(BadResponse)
    else match Iterate(p, FetchedText(Serve(env[n].server, Query(p), env[n].now), layouts[n]), catalogSha)
         case Done(c) => Ok(c)
         case Failed(f) => Err(f)
         case More(q) => CollectTexts(env, layouts, n + 1, q, catalogSha)
  }

  lemma {:induction false} TextsArePages(
    env: seq<Request>, layouts: seq<Layout>, n: nat, p: Progress, catalogSha: string)
    requires |layouts| == |env| && forall k :: 0 <= k < |layouts| ==> WellLaid(layouts[k])
    ensures CollectTexts(env, layouts, n, p, catalogSha) == CollectFrom(env, n, p, catalogSha)
    decreases MAX_CONSOLE_PAGES - n
  {
    hide WellLaid, Serve, FetchedText, Fetched, Query, Iterate;
    if n < MAX_CONSOLE_PAGES && n < |env| {
      FetchedTextIsFetched(env[n].server, Query(p), env[n].now, layouts[n]);
      var turn := Iterate(p, Fetched(Serve(env[n].server, Query(p), env[n].now)), catalogSha);
      if turn.More? {
        TextsArePages(env, layouts, n + 1, turn.progress, catalogSha);
      }
    }
  }

  /**
    * Snapshot isolation over the texts on the wire: with any layout, whitespace-free as the server
    * writes it, and any content of the other members, a collection that the console accepts equals
    * the lists the controller held at one instant.
    */
  lemma SnapshotIsolationOfTexts(
    worlds: seq<Server>, events: seq<ConsoleRuns.Event>, env: seq<Request>, places: seq<nat>, catalogSha: string,
    layouts: seq<Layout>)
    requires ConsoleRuns.IsTrace(worlds, events) && ConsoleRuns.SoundTrace(worlds)
    requires ConsoleRuns.ServedAt(worlds, events, env, places) && env != []
    requires |layouts| == |env| && forall k :: 0 <= k < |layouts| ==> WellLaid(layouts[k])
    ensures |places| > 0 && places[0] + 1 < |worlds|
    ensures var at := worlds[places[0] + 1];
            var r := CollectTexts(env, layouts, 0, START, catalogSha);
            && (r.Ok? ==> r.value.lists == ConsoleRuns.ListsAt(at))
            && (r.Ok? <==>
                var pages := ConsoleRuns.Pages(Paging.Total(ConsoleRuns.ListsAt(at)));
                && pages <= |env| && KnownTargets(ConsoleRuns.ListsAt(at), at.view.streams)
                && forall k :: 0 <= k < pages ==> ConsoleRuns.Agrees(env, k, catalogSha))
  {
    hide ConsoleRuns.IsTrace, ConsoleRuns.SoundTrace, ConsoleRuns.ServedAt, WellLaid, CollectTexts, CollectFrom,
      ConsoleRuns.Agrees, KnownTargets, ConsoleRuns.ListsAt, ConsoleRuns.Pages, Paging.IsListing;
    ConsoleRuns.SnapshotIsolation(worlds, events, env, places, catalogSha);
    TextsArePages(env, layouts, 0, START, catalogSha);
  }
}

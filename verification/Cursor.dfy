/**
  * Console cursors: how the server prints them, how the server and the console independently
  * parse them, and the query string that carries them.
  */
module Cursor {
  import opened Bytes
  import opened Decimal

  datatype Cursor = Cursor(identity: string, revision: nat, offset: nat)

  /** A cursor as the console keeps it: the text and its normalised parts. */
  datatype ConsoleCursor = ConsoleCursor(text: string, identity: string, revision: string, offset: string)

  // ----- splitting -------------------------------------------------------------------------

  function IndexOf(s: string, c: char): (i: nat)
    ensures i <= |s| && c !in s[..i]
    ensures i < |s| ==> s[i] == c
  {
    if s == "" || s[0] == c then 0
    else
      var i := 1 + IndexOf(s[1..], c);
      assert s[..i] == [s[0]] + s[1..][..i - 1];
      i
  }

  function Split(s: string, c: char): (parts: seq<string>)
    ensures |parts| > 0
    decreases |s|
  {
    var i := IndexOf(s, c);
    if i == |s| then [s] else [s[..i]] + Split(s[i + 1..], c)
  }

  lemma IndexOfFirst(a: string, c: char, rest: string)
    requires c !in a
    ensures IndexOf(a + [c] + rest, c) == |a|
  {
    var s := a + [c] + rest;
    var i := IndexOf(s, c);
    assert forall k :: 0 <= k < |a| ==> s[k] == a[k] && a[k] != c;
    assert s[|a|] == c;
    assert forall k :: 0 <= k < i ==> s[k] in s[..i];
  }

  lemma SplitHead(a: string, c: char, rest: string)
    requires c !in a
    ensures Split(a + [c] + rest, c) == [a] + Split(rest, c)
  {
    var s := a + [c] + rest;
    IndexOfFirst(a, c, rest);
    assert s[..|a|] == a && s[|a| + 1..] == rest;
  }

  lemma SplitLast(a: string, c: char)
    requires c !in a
    ensures Split(a, c) == [a]
  {
    assert forall k :: 0 <= k < |a| ==> a[k] in a;
  }

  /** Undoing a split: its first part and, if there are more, the separator and the rest. */
  lemma SplitUndo(s: string, c: char)
    ensures c !in Split(s, c)[0]
    ensures |Split(s, c)| == 1 ==> s == Split(s, c)[0]
    ensures |Split(s, c)| > 1 ==>
              var a := Split(s, c)[0];
              |a| < |s| && s == a + [c] + s[|a| + 1..] && Split(s, c) == [a] + Split(s[|a| + 1..], c)
  {
    var i := IndexOf(s, c);
    assert s[..|s|] == s;
    if i < |s| {
      assert s == s[..i] + [c] + s[i + 1..];
    }
  }

  /** A split into exactly two parts. */
  lemma SplitTwo(s: string, c: char)
    requires |Split(s, c)| == 2
    ensures s == Split(s, c)[0] + [c] + Split(s, c)[1] && c !in Split(s, c)[1]
  {
    SplitUndo(s, c);
    SplitUndo(s[|Split(s, c)[0]| + 1..], c);
  }

  // ----- printing and parsing cursors ------------------------------------------------------

  predicate IsLowerHex(c: char) { IsDigit(c) || 'a' <= c <= 'f' }

  predicate ValidIdentity(s: string) {
    |s| == 64 && forall i :: 0 <= i < |s| ==> IsLowerHex(s[i])
  }

  function PrintCursor(c: Cursor): string {
    c.identity + [':'] + (Print(c.revision) + [':'] + Print(c.offset))
  }

  /** `parse_console_cursor`, with `usize` as wide as `u64`. */
  function ParseCursor(s: string): Option<Cursor> {
    var parts := Split(s, ':');
    if |parts| != 3 then None
    else match ParseU64(parts[1])
         case None => None
         case Some(revision) =>
           match ParseU64(parts[2])
           case None => None
           case Some(offset) =>
             if ValidIdentity(parts[0]) then Some(Cursor(parts[0], revision, offset)) else None
  }

  /** `parseConsoleCursor` of the console. */
  function ReadCursor(s: string): Option<ConsoleCursor> {
    var parts := Split(s, ':');
    if s == "" || |parts| != 3 || !ValidIdentity(parts[0]) then None
    else match Required(parts[1])
         case None => None
         case Some(revision) =>
           match Required(parts[2])
           case None => None
           case Some(offset) => Some(ConsoleCursor(s, parts[0], revision, offset))
  }

  predicate InRange(c: Cursor) {
    ValidIdentity(c.identity) && c.revision <= U64_MAX && c.offset <= U64_MAX
  }

  lemma PrintedParts(c: Cursor)
    requires ValidIdentity(c.identity)
    ensures Split(PrintCursor(c), ':') == [c.identity, Print(c.revision), Print(c.offset)]
  {
    SplitHead(c.identity, ':', Print(c.revision) + [':'] + Print(c.offset));
    SplitHead(Print(c.revision), ':', Print(c.offset));
    SplitLast(Print(c.offset), ':');
  }

  /** The server reads back every cursor it prints. */
  lemma CursorRoundTrip(c: Cursor)
    requires InRange(c)
    ensures ParseCursor(PrintCursor(c)) == Some(c)
  {
    PrintedParts(c);
    PrintValue(c.revision);
    PrintValue(c.offset);
    ParseU64Iff(Print(c.revision), c.revision);
    ParseU64Iff(Print(c.offset), c.offset);
  }

  /**
    * The console and the server accept the same cursor texts and read the same fields from
    * them; the console holds the numbers in printed form.
    */
  lemma ReadersAgree(s: string)
    ensures ReadCursor(s) == match ParseCursor(s)
                             case None => None
                             case Some(c) => Some(ConsoleCursor(s, c.identity, Print(c.revision), Print(c.offset)))
  {
    var parts := Split(s, ':');
    if |parts| == 3 {
      RequiredIsPrinted(parts[1]);
      RequiredIsPrinted(parts[2]);
    }
  }

  /** Every accepted text names numbers in range, and only its leading zeros are free. */
  lemma AcceptedCursor(s: string, c: Cursor)
    requires ParseCursor(s) == Some(c)
    ensures InRange(c) && '&' !in s && '=' !in s
    ensures var parts := Split(s, ':');
            && s == parts[0] + [':'] + (parts[1] + [':'] + parts[2])
            && PrintCursor(c) == parts[0] + [':'] + (Normalized(parts[1]) + [':'] + Normalized(parts[2]))
  {
    var parts := Split(s, ':');
    SplitUndo(s, ':');
    var rest := s[|parts[0]| + 1..];
    SplitTwo(rest, ':');
    ParseU64Iff(parts[1], c.revision);
    ParseU64Iff(parts[2], c.offset);
    NormalizedIsPrint(parts[1]);
    NormalizedIsPrint(parts[2]);
    NotIn(parts[0], parts[1], parts[2]);
  }

  lemma NotIn(a: string, b: string, c: string)
    requires ValidIdentity(a) && Digits(b) && Digits(c)
    ensures var s := a + [':'] + (b + [':'] + c); '&' !in s && '=' !in s
  {
  }

  lemma NormalizedIsPrint(s: string)
    requires s != "" && Digits(s)
    ensures Normalized(s) == Print(Value(s))
  {
    NormalizedValue(s);
    ValuePrint(Normalized(s));
  }

  // ----- the query string ------------------------------------------------------------------

  function FormatName(): string { "format" }
  function CursorName(): string { "cursor" }
  function ConsoleFormat(): string { "console-v1" }

  function FormatQuery(): string { FormatName() + ['='] + ConsoleFormat() }
  function CursorQuery(text: string): string { CursorName() + ['='] + text }

  lemma Names()
    ensures '=' !in FormatName() && '=' !in CursorName() && '&' !in FormatQuery() && '&' !in CursorName()
    ensures FormatName() != CursorName()
  {
    assert FormatName()[0] != CursorName()[0];
  }

  /** `stateUrl`: the query the console sends. */
  function StateQuery(cursor: Option<string>): string {
    match cursor
    case None => FormatQuery()
    case Some(text) => FormatQuery() + ['&'] + CursorQuery(text)
  }

  /** A query that carries cursor text `v`, in either order of its two parameters. */
  predicate Carries(query: string, v: string) {
    || query == StateQuery(Some(v))
    || query == CursorQuery(v) + ['&'] + FormatQuery()
  }

  /** What one parameter of the query is, `None` when it is refused. */
  datatype Parameter = Format(name: string) | At(cursor: Cursor)

  /** `split_once('=')` and the dispatch on the name. */
  function ParameterOf(p: string): Option<Parameter> {
    var i := IndexOf(p, '=');
    if i == |p| then None
    else if p[..i] == FormatName() then Some(Format(p[i + 1..]))
    else if p[..i] == CursorName() then
      match ParseCursor(p[i + 1..])
      case None => None
      case Some(c) => Some(At(c))
    else None
  }

  lemma ParameterIff(p: string, name: string, value: string)
    requires '=' !in name
    ensures IndexOf(p, '=') == |name| < |p| && p[..|name|] == name && p[|name| + 1..] == value
       <==> p == name + ['='] + value
  {
    hide IndexOf;
    var whole := name + ['='] + value;
    IndexOfFirst(name, '=', value);
    assert whole[..|name|] == name && whole[|name| + 1..] == value;
    if |name| < |p| && p[|name|] == '=' {
      assert p == p[..|name|] + ['='] + p[|name| + 1..];
    }
  }

  /** What the loop has gathered from the first parameters. */
  function Gather(parts: seq<string>): Option<(Option<string>, Option<Cursor>)> {
    if parts == [] then Some((None, None))
    else match Gather(parts[..|parts| - 1])
         case None => None
         case Some(found) =>
           match ParameterOf(parts[|parts| - 1])
           case None => None
           case Some(Format(f)) => if found.0.None? then Some((Some(f), found.1)) else None
           case Some(At(c)) => if found.1.None? then Some((found.0, Some(c))) else None
  }

  lemma {:induction false} GatherFails(parts: seq<string>, n: nat)
    requires n <= |parts| && Gather(parts[..n]).None?
    ensures Gather(parts).None?
  {
    if n < |parts| {
      assert parts[..|parts| - 1][..n] == parts[..n];
      GatherFails(parts[..|parts| - 1], n);
    } else {
      assert parts[..n] == parts;
    }
  }

  lemma EmptyRoute()
    ensures RouteOf("").None?
  {
    SplitLast("", '&');
    GatherOne("");
  }

  /** `parse_console_state_route`. */
  method ParseStateRoute(query: string) returns (r: Option<Option<Cursor>>)
    ensures r == RouteOf(query)
  {
    hide ParameterOf, Split, FormatName, ConsoleFormat;
    if query == "" {
      EmptyRoute();
      return None;
    }
    var parts := Split(query, '&');
    var format, cursor := None, None;
    for n := 0 to |parts|
      invariant Gather(parts[..n]) == Some((format, cursor))
    {
      assert parts[..n + 1][..n] == parts[..n];
      var p := ParameterOf(parts[n]);
      if p.None? || (p.value.Format? && format.Some?) || (p.value.At? && cursor.Some?) {
        GatherFails(parts, n + 1);
        return None;
      }
      match p.value {
        case Format(f) => format := Some(f);
        case At(c) => cursor := Some(c);
      }
    }
    assert parts[..|parts|] == parts;
    r := if format == Some(ConsoleFormat()) then Some(cursor) else None;
  }

  function RouteOf(query: string): Option<Option<Cursor>> {
    match Gather(Split(query, '&'))
    case None => None
    case Some(found) => if found.0 == Some(ConsoleFormat()) then Some(found.1) else None
  }

  /** Each parameter is gathered at most once, so at most two fit. */
  lemma {:induction false} GatherSize(parts: seq<string>)
    requires Gather(parts).Some?
    ensures var found := Gather(parts).value;
            |parts| == (if found.0.Some? then 1 else 0) + if found.1.Some? then 1 else 0
  {
    if parts != [] {
      GatherSize(parts[..|parts| - 1]);
    }
  }

  lemma FormatParameter(p: string)
    ensures ParameterOf(p) == Some(Format(ConsoleFormat())) <==> p == FormatQuery()
  {
    hide FormatName, CursorName, ConsoleFormat, ParseCursor;
    Names();
    ParameterIff(p, FormatName(), ConsoleFormat());
  }

  lemma CursorParameter(p: string, c: Cursor)
    ensures ParameterOf(p) == Some(At(c))
       <==> var k := |CursorName()| + 1;
            |p| >= k && p == CursorQuery(p[k..]) && ParseCursor(p[k..]) == Some(c)
  {
    hide FormatName, CursorName, ParseCursor;
    Names();
    if |p| > |CursorName()| {
      ParameterIff(p, CursorName(), p[|CursorName()| + 1..]);
    }
  }

  lemma GatherOne(p: string)
    ensures Gather([p]) == match ParameterOf(p)
                           case None => None
                           case Some(Format(f)) => Some((Some(f), None))
                           case Some(At(c)) => Some((None, Some(c)))
  {
    assert [p][..0] == [];
  }

  lemma GatherTwo(p: string, q: string, c: Cursor)
    ensures Gather([p, q]) == Some((Some(ConsoleFormat()), Some(c)))
       <==> || (ParameterOf(p) == Some(Format(ConsoleFormat())) && ParameterOf(q) == Some(At(c)))
            || (ParameterOf(p) == Some(At(c)) && ParameterOf(q) == Some(Format(ConsoleFormat())))
  {
    hide ParameterOf, FormatName, CursorName, ConsoleFormat;
    assert [p, q][..1] == [p];
    GatherOne(p);
  }

  lemma PlainRoute(query: string)
    ensures RouteOf(query) == Some(None) <==> query == FormatQuery()
  {
    hide ParameterOf, FormatName, CursorName, ConsoleFormat;
    var parts := Split(query, '&');
    if RouteOf(query) == Some(None) {
      GatherSize(parts);
      SplitUndo(query, '&');
      assert parts == [query];
    }
    if query == FormatQuery() {
      Names();
      SplitLast(FormatQuery(), '&');
    }
    GatherOne(query);
    FormatParameter(query);
  }

  lemma CursorRouteIsCarried(query: string, c: Cursor) returns (v: string)
    requires RouteOf(query) == Some(Some(c))
    ensures Carries(query, v) && ParseCursor(v) == Some(c)
  {
    hide ParameterOf, ParseCursor, FormatName, CursorName, ConsoleFormat;
    var parts := Split(query, '&');
    GatherSize(parts);
    SplitTwo(query, '&');
    var p, q := parts[0], parts[1];
    assert parts == [p, q];
    GatherTwo(p, q, c);
    FormatParameter(p);
    FormatParameter(q);
    CursorParameter(p, c);
    CursorParameter(q, c);
    var k := |CursorName()| + 1;
    v := if ParameterOf(p) == Some(At(c)) then p[k..] else q[k..];
  }

  lemma CarriedParts(query: string, v: string)
    requires Carries(query, v) && '&' !in v
    ensures Split(query, '&') == [FormatQuery(), CursorQuery(v)] || Split(query, '&') == [CursorQuery(v), FormatQuery()]
  {
    hide FormatName, CursorName, ConsoleFormat, FormatQuery, Split;
    Names();
    var f, p := FormatQuery(), CursorQuery(v);
    SplitHead(f, '&', p);
    SplitLast(p, '&');
    SplitHead(p, '&', f);
    SplitLast(f, '&');
  }

  lemma CarriedIsCursorRoute(query: string, v: string, c: Cursor)
    requires Carries(query, v) && ParseCursor(v) == Some(c)
    ensures RouteOf(query) == Some(Some(c))
  {
    hide ParameterOf, ParseCursor, Gather, Carries, Split, FormatName, CursorName, ConsoleFormat, FormatQuery;
    AcceptedCursor(v, c);
    CarriedParts(query, v);
    var p := CursorQuery(v);
    assert p[|CursorName()| + 1..] == v;
    CursorParameter(p, c);
    FormatParameter(FormatQuery());
    GatherTwo(FormatQuery(), p, c);
    GatherTwo(p, FormatQuery(), c);
  }

  /**
    * The route is accepted exactly for the bare format query and for the two orders of a format
    * and a cursor parameter; in particular for every query the console builds.
    */
  lemma RouteIff(query: string, c: Cursor)
    ensures RouteOf(query) == Some(None) <==> query == StateQuery(None)
    ensures RouteOf(query) == Some(Some(c)) <==> exists v :: Carries(query, v) && ParseCursor(v) == Some(c)
  {
    hide ParseCursor, RouteOf, Carries;
    PlainRoute(query);
    if RouteOf(query) == Some(Some(c)) {
      var v := CursorRouteIsCarried(query, c);
    }
    forall v | Carries(query, v) && ParseCursor(v) == Some(c)
      ensures RouteOf(query) == Some(Some(c))
    {
      CarriedIsCursorRoute(query, v, c);
    }
  }
}

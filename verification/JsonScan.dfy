/**
  * The console's scanner that lifts one unsigned integer out of a JSON text without turning it
  * into a floating-point number. Positions count characters; `None` is the rejected snapshot.
  */
module JsonScan {
  import opened Bytes
  import opened Json
  import Decimal

  // ----- the scanner, as functions of the position -----------------------------------------

  function SkipSpace(text: string, pos: nat): (end: nat)
    ensures pos <= end && (pos <= |text| ==> end <= |text|)
    decreases |text| - pos
  {
    if pos < |text| && IsSpace(text[pos]) then SkipSpace(text, pos + 1) else pos
  }

  /** Inside a string literal: to just behind its closing quote. */
  function StringRest(text: string, pos: nat): (end: Option<nat>)
    ensures end.Some? ==> pos < end.value <= |text|
    decreases |text| - pos
  {
    if pos >= |text| then None
    else if text[pos] == '\\' then StringRest(text, pos + 2)
    else if text[pos] == '"' then Some(pos + 1)
    else StringRest(text, pos + 1)
  }

  function StringEnd(text: string, pos: nat): (end: Option<nat>)
    ensures end.Some? ==> pos + 1 < end.value <= |text|
  {
    if pos < |text| && text[pos] == '"' then StringRest(text, pos + 1) else None
  }

  /** Inside brackets, with the closing characters still owed, innermost last. */
  function BracketEnd(text: string, pos: nat, owed: string): (end: Option<nat>)
    requires owed != ""
    ensures end.Some? ==> pos < end.value <= |text|
    decreases |text| - pos
  {
    if pos >= |text| then None
    else
      var c := text[pos];
      if c == '"' then
        match StringEnd(text, pos)
        case None => None
        case Some(next) => BracketEnd(text, next, owed)
      else if c == '{' then BracketEnd(text, pos + 1, owed + ['}'])
      else if c == '[' then BracketEnd(text, pos + 1, owed + [']'])
      else if c == '}' || c == ']' then
        if c != owed[|owed| - 1] then None
        else if |owed| == 1 then Some(pos + 1)
        else BracketEnd(text, pos + 1, owed[..|owed| - 1])
      else BracketEnd(text, pos + 1, owed)
  }

  predicate EndsLiteral(c: char) { IsSpace(c) || c == ',' || c == ']' || c == '}' }

  function LiteralEnd(text: string, pos: nat): (end: nat)
    ensures pos <= end && (pos <= |text| ==> end <= |text|)
    decreases |text| - pos
  {
    if pos < |text| && !EndsLiteral(text[pos]) then LiteralEnd(text, pos + 1) else pos
  }

  function ValueEnd(text: string, pos: nat): (end: Option<nat>)
    ensures end.Some? ==> pos <= end.value && (pos <= |text| ==> end.value <= |text|)
  {
    if pos < |text| && text[pos] == '"' then StringEnd(text, pos)
    else if pos < |text| && text[pos] == '{' then BracketEnd(text, pos + 1, ['}'])
    else if pos < |text| && text[pos] == '[' then BracketEnd(text, pos + 1, [']'])
    else Some(LiteralEnd(text, pos))
  }

  predicate Has(text: string, pos: nat, c: char) { pos < |text| && text[pos] == c }

  /** The loop over the top-level members. */
  function ScanMembers(text: string, pos: nat, name: seq<nat>, found: Option<string>): Option<string>
    requires pos <= |text|
    decreases |text| - pos
  {
    var start := SkipSpace(text, pos);
    if Has(text, start, '}') then found
    else match StringEnd(text, start)
         case None => None
         case Some(keyEnd) =>
           var colon := SkipSpace(text, keyEnd);
           if !Has(text, colon, ':') then None
           else
             var valueStart := SkipSpace(text, colon + 1);
             match ValueEnd(text, valueStart)
             case None => None
             case Some(valueEnd) =>
               match Noted(text, start, keyEnd, valueStart, valueEnd, name, found)
               case None => None
               case Some(noted) =>
                 var next := SkipSpace(text, valueEnd);
                 if Has(text, next, ',') then ScanMembers(text, next + 1, name, noted)
                 else if Has(text, next, '}') then noted
                 else None
  }

  /** What is known after one member: a second match or a malformed number is an error. */
  function Noted(text: string, start: nat, keyEnd: nat, valueStart: nat, valueEnd: nat, name: seq<nat>,
                 found: Option<string>): Option<Option<string>>
    requires start + 1 < keyEnd <= |text| && valueStart <= valueEnd <= |text|
  {
    match Decoded(text[start + 1..keyEnd - 1])
    case None => None
    case Some(key) =>
      if key != name then Some(found)
      else if found.Some? then None
      else match Decimal.Required(text[valueStart..valueEnd])
           case None => None
           case Some(number) => Some(Some(number))
  }

  /** `extractTopLevelDecimalU64Property`. */
  function Extract(text: string, name: seq<nat>): Option<string> {
    var open := SkipSpace(text, 0);
    if Has(text, open, '{') then ScanMembers(text, open + 1, name, None) else None
  }

  // ----- where a piece of text stands ------------------------------------------------------

  predicate At(text: string, pos: nat, s: string) {
    pos + |s| <= |text| && text[pos..pos + |s|] == s
  }

  lemma AtConcat(text: string, pos: nat, a: string, b: string)
    ensures At(text, pos, a + b) <==> At(text, pos, a) && At(text, pos + |a|, b)
  {
    var n := pos + |a|;
    if At(text, pos, a + b) {
      assert text[pos..n] == text[pos..pos + |a + b|][..|a|] == a;
      assert text[n..n + |b|] == text[pos..pos + |a + b|][|a|..] == b;
    }
    if At(text, pos, a) && At(text, n, b) {
      assert text[pos..n + |b|] == text[pos..n] + text[n..n + |b|];
    }
  }

  lemma AtChar(text: string, pos: nat, s: string, i: nat)
    requires At(text, pos, s) && i < |s|
    ensures text[pos + i] == s[i]
  {
    assert text[pos..pos + |s|][i] == s[i];
  }

  lemma AtFits(text: string, pos: nat, s: string)
    requires At(text, pos, s)
    ensures pos + |s| <= |text|
  {
  }

  lemma AtTail(text: string, pos: nat, s: string)
    requires At(text, pos, s) && s != ""
    ensures text[pos] == s[0] && At(text, pos + 1, s[1..])
  {
    assert s == [s[0]] + s[1..];
    AtConcat(text, pos, [s[0]], s[1..]);
    AtChar(text, pos, s, 0);
  }

  // ----- whitespace, strings and literals --------------------------------------------------

  lemma {:induction false} SpaceSkipped(text: string, pos: nat, s: string)
    requires At(text, pos, s) && Space(s) && (pos + |s| == |text| || !IsSpace(text[pos + |s|]))
    ensures SkipSpace(text, pos) == pos + |s|
    decreases |s|
  {
    if s != "" {
      AtTail(text, pos, s);
      SpaceSkipped(text, pos + 1, s[1..]);
    }
  }

  lemma UnitCrossed(text: string, pos: nat, u: Unit)
    requires WellFormedUnit(u) && At(text, pos, UnitText(u))
    ensures StringRest(text, pos) == StringRest(text, pos + |UnitText(u)|)
  {
    var s := UnitText(u);
    AtChar(text, pos, s, 0);
    if u.Hex? {
      AtChar(text, pos, s, 2);
      AtChar(text, pos, s, 3);
      AtChar(text, pos, s, 4);
      AtChar(text, pos, s, 5);
      assert StringRest(text, pos + 2) == StringRest(text, pos + 3) == StringRest(text, pos + 4);
      assert StringRest(text, pos + 4) == StringRest(text, pos + 5) == StringRest(text, pos + 6);
    }
  }

  lemma {:induction false} StringScanned(text: string, pos: nat, units: seq<Unit>)
    requires WellFormedName(units) && At(text, pos, UnitsText(units) + ['"'])
    ensures StringRest(text, pos) == Some(pos + |UnitsText(units)| + 1)
    decreases |units|
  {
    if units == [] {
      AtChar(text, pos, UnitsText(units) + ['"'], 0);
    } else {
      var first, rest := UnitText(units[0]), UnitsText(units[1..]) + ['"'];
      assert UnitsText(units) + ['"'] == first + rest;
      AtConcat(text, pos, first, rest);
      UnitCrossed(text, pos, units[0]);
      StringScanned(text, pos + |first|, units[1..]);
    }
  }

  /** The string scanner stops exactly behind the closing quote. */
  lemma StringEndExact(text: string, pos: nat, units: seq<Unit>)
    requires WellFormedName(units) && At(text, pos, Quoted(units))
    ensures StringEnd(text, pos) == Some(pos + |Quoted(units)|)
    ensures text[pos] == '"' && text[pos + 1..pos + |Quoted(units)| - 1] == UnitsText(units)
  {
    AtConcat(text, pos, ['"'], UnitsText(units) + ['"']);
    AtChar(text, pos, ['"'], 0);
    StringScanned(text, pos + 1, units);
    AtConcat(text, pos + 1, UnitsText(units), ['"']);
  }

  lemma {:induction false} LiteralScanned(text: string, pos: nat, s: string)
    requires At(text, pos, s) && (s == "" || WellFormedLiteral(s))
             && (pos + |s| == |text| || EndsLiteral(text[pos + |s|]))
    ensures LiteralEnd(text, pos) == pos + |s|
    decreases |s|
  {
    if s != "" {
      AtTail(text, pos, s);
      LiteralScanned(text, pos + 1, s[1..]);
    }
  }

  // ----- crossing a value inside brackets --------------------------------------------------

  predicate Unstructured(s: string) { forall i :: 0 <= i < |s| ==> !IsStructural(s[i]) }

  lemma {:induction false} PlainCrossed(text: string, pos: nat, s: string, owed: string)
    requires owed != "" && At(text, pos, s) && Unstructured(s)
    ensures BracketEnd(text, pos, owed) == BracketEnd(text, pos + |s|, owed)
    decreases |s|
  {
    if s != "" {
      AtTail(text, pos, s);
      PlainCrossed(text, pos + 1, s[1..], owed);
    }
  }

  lemma QuotedCrossed(text: string, pos: nat, units: seq<Unit>, owed: string)
    requires owed != "" && WellFormedName(units) && At(text, pos, Quoted(units))
    ensures BracketEnd(text, pos, owed) == BracketEnd(text, pos + |Quoted(units)|, owed)
  {
    StringEndExact(text, pos, units);
  }

  lemma PushPop(owed: string, c: char)
    ensures (owed + [c])[..|owed + [c]| - 1] == owed
  {
  }

  /** An opening bracket, content that the scanner crosses, and the closing bracket. */
  lemma BracketsCrossed(text: string, pos: nat, open: char, inner: string, close: char, owed: string)
    requires owed != "" && At(text, pos, [open] + (inner + [close]))
    requires (open == '{' && close == '}') || (open == '[' && close == ']')
    requires At(text, pos + 1, inner) ==>
               BracketEnd(text, pos + 1, owed + [close]) == BracketEnd(text, pos + 1 + |inner|, owed + [close])
    ensures BracketEnd(text, pos, owed) == BracketEnd(text, pos + |inner| + 2, owed)
  {
    AtConcat(text, pos, [open], inner + [close]);
    AtConcat(text, pos + 1, inner, [close]);
    AtChar(text, pos, [open], 0);
    AtChar(text, pos + 1 + |inner|, [close], 0);
    PushPop(owed, close);
  }

  /** Whatever is owed, the scanner crosses a well-formed value and owes the same behind it. */
  lemma {:induction false} ValueCrossed(text: string, pos: nat, v: Value, owed: string)
    requires owed != "" && WellFormed(v) && At(text, pos, Render(v))
    ensures BracketEnd(text, pos, owed) == BracketEnd(text, pos + |Render(v)|, owed)
    decreases v
  {
    hide BracketEnd, At, Quoted;
    match v {
      case Literal(s) => PlainCrossed(text, pos, s, owed);
      case Text(units) => QuotedCrossed(text, pos, units, owed);
      case EmptyArray(space) =>
        if At(text, pos + 1, space) { PlainCrossed(text, pos + 1, space, owed + [']']); }
        BracketsCrossed(text, pos, '[', space, ']', owed);
      case Array(elements) =>
        if At(text, pos + 1, RenderElements(elements)) { ElementsCrossed(text, pos + 1, elements, owed + [']']); }
        BracketsCrossed(text, pos, '[', RenderElements(elements), ']', owed);
      case EmptyObject(space) =>
        if At(text, pos + 1, space) { PlainCrossed(text, pos + 1, space, owed + ['}']); }
        BracketsCrossed(text, pos, '{', space, '}', owed);
      case Object(members) =>
        if At(text, pos + 1, RenderMembers(members)) { MembersCrossed(text, pos + 1, members, owed + ['}']); }
        BracketsCrossed(text, pos, '{', RenderMembers(members), '}', owed);
    }
  }

  lemma {:induction false} ElementsCrossed(text: string, pos: nat, e: Elements, owed: string)
    requires owed != "" && WellFormedElements(e) && At(text, pos, RenderElements(e))
    ensures BracketEnd(text, pos, owed) == BracketEnd(text, pos + |RenderElements(e)|, owed)
    decreases e
  {
    hide BracketEnd, At, Render, WellFormed;
    var one := e.before + (Render(e.value) + e.after);
    if e.MoreElements? {
      AtConcat(text, pos, one, [','] + RenderElements(e.rest));
      AtConcat(text, pos + |one|, [','], RenderElements(e.rest));
    }
    AtConcat(text, pos, e.before, Render(e.value) + e.after);
    var at := pos + |e.before|;
    AtConcat(text, at, Render(e.value), e.after);
    PlainCrossed(text, pos, e.before, owed);
    ValueCrossed(text, at, e.value, owed);
    PlainCrossed(text, at + |Render(e.value)|, e.after, owed);
    if e.MoreElements? {
      PlainCrossed(text, pos + |one|, [','], owed);
      ElementsCrossed(text, pos + |one| + 1, e.rest, owed);
    }
  }

  /** The places of a member's parts. */
  datatype Places = Places(key: nat, colonSpace: nat, colon: nat, valueSpace: nat, value: nat, after: nat, end: nat)

  function PlacesOf(m: Member, pos: nat): Places {
    var key := pos + |m.before|;
    var colonSpace := key + |Quoted(m.name)|;
    var colon := colonSpace + |m.left|;
    var value := colon + 1 + |m.right|;
    var after := value + |Render(m.value)|;
    Places(key, colonSpace, colon, colon + 1, value, after, after + |m.after|)
  }

  predicate Placed(text: string, m: Member, pos: nat) {
    var p := PlacesOf(m, pos);
    && At(text, pos, m.before) && At(text, p.key, Quoted(m.name)) && At(text, p.colonSpace, m.left)
    && At(text, p.colon, [':']) && At(text, p.valueSpace, m.right) && At(text, p.value, Render(m.value))
    && At(text, p.after, m.after)
  }

  lemma MemberPlaced(text: string, m: Member, pos: nat)
    requires At(text, pos, RenderMember(m))
    ensures Placed(text, m, pos) && PlacesOf(m, pos).end == pos + |RenderMember(m)|
  {
    hide At, Quoted, Render;
    var p := PlacesOf(m, pos);
    var r6 := Render(m.value) + m.after;
    var r5 := m.right + r6;
    var r4 := [':'] + r5;
    var r3 := m.left + r4;
    var r2 := Quoted(m.name) + r3;
    AtConcat(text, pos, m.before, r2);
    AtConcat(text, p.key, Quoted(m.name), r3);
    AtConcat(text, p.colonSpace, m.left, r4);
    AtConcat(text, p.colon, [':'], r5);
    AtConcat(text, p.valueSpace, m.right, r6);
    AtConcat(text, p.value, Render(m.value), m.after);
  }

  lemma {:induction false} MemberCrossed(text: string, pos: nat, m: Member, owed: string)
    requires owed != "" && WellFormedMember(m) && At(text, pos, RenderMember(m))
    ensures BracketEnd(text, pos, owed) == BracketEnd(text, pos + |RenderMember(m)|, owed)
    decreases m
  {
    hide BracketEnd, At, Render, Quoted, WellFormed, RenderMember;
    MemberPlaced(text, m, pos);
    var p := PlacesOf(m, pos);
    PlainCrossed(text, pos, m.before, owed);
    QuotedCrossed(text, p.key, m.name, owed);
    PlainCrossed(text, p.colonSpace, m.left, owed);
    PlainCrossed(text, p.colon, [':'], owed);
    PlainCrossed(text, p.valueSpace, m.right, owed);
    ValueCrossed(text, p.value, m.value, owed);
    PlainCrossed(text, p.after, m.after, owed);
  }

  lemma {:induction false} MembersCrossed(text: string, pos: nat, ms: Members, owed: string)
    requires owed != "" && WellFormedMembers(ms) && At(text, pos, RenderMembers(ms))
    ensures BracketEnd(text, pos, owed) == BracketEnd(text, pos + |RenderMembers(ms)|, owed)
    decreases ms
  {
    hide BracketEnd, At, RenderMember, WellFormedMember;
    var one := RenderMember(ms.member);
    if ms.MoreMembers? {
      AtConcat(text, pos, one, [','] + RenderMembers(ms.rest));
      AtConcat(text, pos + |one|, [','], RenderMembers(ms.rest));
    }
    MemberCrossed(text, pos, ms.member, owed);
    if ms.MoreMembers? {
      PlainCrossed(text, pos + |one|, [','], owed);
      MembersCrossed(text, pos + |one| + 1, ms.rest, owed);
    }
  }

  // ----- the end of a value ----------------------------------------------------------------

  lemma CloseEnds(text: string, pos: nat, close: char)
    requires Has(text, pos, close) && (close == '}' || close == ']')
    ensures BracketEnd(text, pos, [close]) == Some(pos + 1)
  {
  }

  /** A bracketed value: the scan that owes only its closing character ends behind it. */
  lemma BracketsEnd(text: string, pos: nat, open: char, inner: string, close: char)
    requires At(text, pos, [open] + (inner + [close]))
    requires (open == '{' && close == '}') || (open == '[' && close == ']')
    requires At(text, pos + 1, inner) ==>
               BracketEnd(text, pos + 1, [close]) == BracketEnd(text, pos + 1 + |inner|, [close])
    ensures ValueEnd(text, pos) == Some(pos + |inner| + 2)
  {
    hide BracketEnd, At;
    AtConcat(text, pos, [open], inner + [close]);
    AtConcat(text, pos + 1, inner, [close]);
    AtFits(text, pos, [open]);
    AtChar(text, pos, [open], 0);
    AtFits(text, pos + 1 + |inner|, [close]);
    AtChar(text, pos + 1 + |inner|, [close], 0);
    CloseEnds(text, pos + 1 + |inner|, close);
  }

  /** The value scanner stops exactly at the end of every well-formed value. */
  lemma ValueEndExact(text: string, pos: nat, v: Value)
    requires WellFormed(v) && At(text, pos, Render(v))
    requires var end := pos + |Render(v)|; end == |text| || EndsLiteral(text[end])
    ensures ValueEnd(text, pos) == Some(pos + |Render(v)|)
  {
    hide BracketEnd, At, Quoted, StringEnd, RenderElements, RenderMembers, LiteralEnd, WellFormedElements,
      WellFormedMembers;
    match v {
      case Literal(s) =>
        LiteralScanned(text, pos, s);
        AtTail(text, pos, s);
      case Text(units) => StringEndExact(text, pos, units);
      case EmptyArray(space) =>
        if At(text, pos + 1, space) { PlainCrossed(text, pos + 1, space, [']']); }
        BracketsEnd(text, pos, '[', space, ']');
      case Array(elements) =>
        if At(text, pos + 1, RenderElements(elements)) { ElementsCrossed(text, pos + 1, elements, [']']); }
        BracketsEnd(text, pos, '[', RenderElements(elements), ']');
      case EmptyObject(space) =>
        if At(text, pos + 1, space) { PlainCrossed(text, pos + 1, space, ['}']); }
        BracketsEnd(text, pos, '{', space, '}');
      case Object(members) =>
        if At(text, pos + 1, RenderMembers(members)) { MembersCrossed(text, pos + 1, members, ['}']); }
        BracketsEnd(text, pos, '{', RenderMembers(members), '}');
    }
  }

  lemma RenderStarts(v: Value)
    requires WellFormed(v)
    ensures Render(v) != "" && !IsSpace(Render(v)[0])
  {
  }

  // ----- the top-level members -------------------------------------------------------------

  /** The values of the top-level members with a given name, in order. */
  function Matching(ms: Members, name: seq<nat>): seq<Value>
    requires WellFormedMembers(ms)
  {
    assert WellFormedMember(ms.member);
    (if Codes(ms.member.name) == name then [ms.member.value] else [])
    + if ms.MoreMembers? then Matching(ms.rest, name) else []
  }

  /** What the scanner notes about one member. */
  function NoteMember(m: Member, name: seq<nat>, found: Option<string>): Option<Option<string>>
    requires WellFormedMember(m)
  {
    if Codes(m.name) != name then Some(found)
    else if found.Some? then None
    else match Decimal.Required(Render(m.value))
         case None => None
         case Some(number) => Some(Some(number))
  }

  function Lookup(ms: Members, name: seq<nat>, found: Option<string>): Option<string>
    requires WellFormedMembers(ms)
  {
    match NoteMember(ms.member, name, found)
    case None => None
    case Some(noted) => if ms.LastMember? then noted else Lookup(ms.rest, name, noted)
  }

  /** The number of the only match, if there is exactly one. */
  function Unique(values: seq<Value>): Option<string> {
    if |values| == 1 then Decimal.Required(Render(values[0])) else None
  }

  lemma {:induction false} LookupIs(ms: Members, name: seq<nat>, found: Option<string>)
    requires WellFormedMembers(ms)
    ensures Lookup(ms, name, found) == if found.None? then Unique(Matching(ms, name))
                                       else if Matching(ms, name) == [] then found else None
    decreases ms
  {
    hide Decimal.Required, Codes, WellFormedMember;
    if ms.MoreMembers? {
      LookupIs(ms.rest, name, found);
      var noted := NoteMember(ms.member, name, found);
      if noted.Some? && noted.value.Some? {
        LookupIs(ms.rest, name, noted.value);
      }
    }
  }

  /** What is noted about a placed member depends only on its name and value. */
  lemma MemberNoted(text: string, pos: nat, m: Member, name: seq<nat>, found: Option<string>)
    requires WellFormedMember(m) && Placed(text, m, pos)
    ensures var p := PlacesOf(m, pos);
            && p.key + 1 < p.colonSpace <= |text| && p.after <= |text|
            && Noted(text, p.key, p.colonSpace, p.value, p.after, name, found) == NoteMember(m, name, found)
  {
    hide WellFormed, Render, Decoded, StringEnd, Decimal.Required;
    StringEndExact(text, PlacesOf(m, pos).key, m.name);
    DecodedIsCodes(m.name);
  }

  /** The scanner finds the key and the colon of a placed member. */
  lemma KeyFound(text: string, pos: nat, m: Member)
    requires WellFormedMember(m) && Placed(text, m, pos)
    ensures var p := PlacesOf(m, pos);
            && SkipSpace(text, pos) == p.key && Has(text, p.key, '"') && StringEnd(text, p.key) == Some(p.colonSpace)
            && SkipSpace(text, p.colonSpace) == p.colon && Has(text, p.colon, ':')
  {
    hide WellFormed, Render, StringEnd, SkipSpace, At, Quoted, Space;
    var p := PlacesOf(m, pos);
    StringEndExact(text, p.key, m.name);
    AtFits(text, p.key, Quoted(m.name));
    AtFits(text, p.colon, [':']);
    AtChar(text, p.colon, [':'], 0);
    SpaceSkipped(text, pos, m.before);
    SpaceSkipped(text, p.colonSpace, m.left);
  }

  /** The scanner finds key, colon, value and end of a placed member. */
  lemma MemberFound(text: string, pos: nat, m: Member)
    requires WellFormedMember(m) && Placed(text, m, pos)
    requires Has(text, PlacesOf(m, pos).end, ',') || Has(text, PlacesOf(m, pos).end, '}')
    ensures var p := PlacesOf(m, pos);
            && SkipSpace(text, pos) == p.key && Has(text, p.key, '"') && StringEnd(text, p.key) == Some(p.colonSpace)
            && SkipSpace(text, p.colonSpace) == p.colon && Has(text, p.colon, ':')
            && SkipSpace(text, p.colon + 1) == p.value && ValueEnd(text, p.value) == Some(p.after)
            && SkipSpace(text, p.after) == p.end
  {
    hide WellFormed, Render, ValueEnd, StringEnd, SkipSpace, At, Quoted, Space, WellFormedName;
    var p := PlacesOf(m, pos);
    KeyFound(text, pos, m);
    RenderStarts(m.value);
    AtFits(text, p.value, Render(m.value));
    AtTail(text, p.value, Render(m.value));
    SpaceSkipped(text, p.valueSpace, m.right);
    SpaceSkipped(text, p.after, m.after);
    AfterEnds(text, p.after, m.after);
    ValueEndExact(text, p.value, m.value);
  }

  lemma AfterEnds(text: string, pos: nat, space: string)
    requires Space(space) && At(text, pos, space) && (Has(text, pos + |space|, ',') || Has(text, pos + |space|, '}'))
    ensures pos < |text| && EndsLiteral(text[pos])
  {
    if space != "" {
      AtTail(text, pos, space);
    }
  }

  lemma {:induction false} MembersScanned(text: string, pos: nat, ms: Members, name: seq<nat>, found: Option<string>)
    requires WellFormedMembers(ms) && At(text, pos, RenderMembers(ms) + ['}'])
    ensures ScanMembers(text, pos, name, found) == Lookup(ms, name, found)
    decreases ms
  {
    hide At, RenderMember, WellFormedMember, SkipSpace, StringEnd, ValueEnd, Noted, NoteMember, PlacesOf, Placed;
    var one := RenderMember(ms.member);
    AtConcat(text, pos, RenderMembers(ms), ['}']);
    if ms.MoreMembers? {
      var rest := RenderMembers(ms.rest);
      AtConcat(text, pos, one, [','] + rest);
      AtConcat(text, pos + |one|, [','], rest);
      AtChar(text, pos + |one|, [','], 0);
      AtConcat(text, pos + |one| + 1, rest, ['}']);
      AtFits(text, pos + |one|, [',']);
      MemberPlaced(text, ms.member, pos);
      MemberFound(text, pos, ms.member);
      MemberNoted(text, pos, ms.member, name, found);
      var noted := NoteMember(ms.member, name, found);
      if noted.Some? {
        MembersScanned(text, pos + |one| + 1, ms.rest, name, noted.value);
      }
    } else {
      AtChar(text, pos + |one|, ['}'], 0);
      AtFits(text, pos + |one|, ['}']);
      MemberPlaced(text, ms.member, pos);
      MemberFound(text, pos, ms.member);
      MemberNoted(text, pos, ms.member, name, found);
    }
  }

  /**
    * On every well-formed object text, whatever its whitespace, nesting and escapes and whatever
    * follows it, the scanner returns the normalised number of the one top-level member whose
    * decoded name is the wanted one; with none, several, or no 64-bit number there, it rejects.
    */
  lemma ExtractIsTopLevel(text: string, space: string, v: Value, name: seq<nat>)
    requires Space(space) && WellFormed(v) && (v.Object? || v.EmptyObject?)
    requires At(text, 0, space + Render(v))
    ensures Extract(text, name) == if v.EmptyObject? then None else Unique(Matching(v.members, name))
  {
    hide At, Matching, ScanMembers, SkipSpace;
    AtConcat(text, 0, space, Render(v));
    var pos := |space|;
    RenderStarts(v);
    var inner := if v.Object? then RenderMembers(v.members) else v.space;
    assert Render(v) == ['{'] + (inner + ['}']);
    AtConcat(text, pos, ['{'], inner + ['}']);
    AtChar(text, pos, ['{'], 0);
    AtFits(text, pos, ['{']);
    SpaceSkipped(text, 0, space);
    if v.Object? {
      MembersScanned(text, pos + 1, v.members, name, None);
      LookupIs(v.members, name, None);
    } else {
      NothingScanned(text, pos + 1, inner, name);
    }
  }

  lemma NothingScanned(text: string, pos: nat, space: string, name: seq<nat>)
    requires Space(space) && At(text, pos, space + ['}'])
    ensures ScanMembers(text, pos, name, None) == None
  {
    AtConcat(text, pos, space, ['}']);
    AtChar(text, pos + |space|, ['}'], 0);
    SpaceSkipped(text, pos, space);
  }
}

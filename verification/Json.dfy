/** JSON texts (sections 2 to 7 of RFC 8259) as syntax trees that keep their whitespace. */
module Json {
  import opened Bytes

  /** One character of a string literal: unescaped, a two-character escape, or `\uXXXX`. */
  datatype Unit = Plain(c: char) | Short(c: char) | Hex(a: char, b: char, c: char, d: char)

  /** A value; `space` is the whitespace between empty brackets. */
  datatype Value =
    | Literal(text: string)
    | Text(units: seq<Unit>)
    | EmptyArray(space: string)
    | Array(elements: Elements)
    | EmptyObject(space: string)
    | Object(members: Members)

  datatype Elements =
    | LastElement(before: string, value: Value, after: string)
    | MoreElements(before: string, value: Value, after: string, rest: Elements)

  /** A member with the whitespace before its name, around its colon and after its value. */
  datatype Member = Member(before: string, name: seq<Unit>, left: string, right: string, value: Value, after: string)

  datatype Members = LastMember(member: Member) | MoreMembers(member: Member, rest: Members)

  // ----- the grammar -----------------------------------------------------------------------

  predicate IsSpace(c: char) { c == ' ' || c == '\t' || c == '\r' || c == '\n' }

  predicate Space(s: string) { forall i :: 0 <= i < |s| ==> IsSpace(s[i]) }

  function HexDigit(c: char): Option<nat> {
    if '0' <= c <= '9' then Some(c as nat - '0' as nat)
    else if 'a' <= c <= 'f' then Some(c as nat - 'a' as nat + 10)
    else if 'A' <= c <= 'F' then Some(c as nat - 'A' as nat + 10)
    else None
  }

  /** The character a two-character escape stands for. */
  function Unescaped(c: char): Option<nat> {
    if c == '"' || c == '\\' || c == '/' then Some(c as nat)
    else if c == 'b' then Some(8)
    else if c == 'f' then Some(12)
    else if c == 'n' then Some(10)
    else if c == 'r' then Some(13)
    else if c == 't' then Some(9)
    else None
  }

  predicate WellFormedUnit(u: Unit) {
    match u
    case Plain(c) => c != '"' && c != '\\' && c as nat >= 0x20
    case Short(c) => Unescaped(c).Some?
    case Hex(a, b, c, d) => HexDigit(a).Some? && HexDigit(b).Some? && HexDigit(c).Some? && HexDigit(d).Some?
  }

  predicate WellFormedName(units: seq<Unit>) { forall i :: 0 <= i < |units| ==> WellFormedUnit(units[i]) }

  predicate IsStructural(c: char) {
    c == '{' || c == '}' || c == '[' || c == ']' || c == '"'
  }

  /**
    * Numbers and the three literal names, or any other nonempty text free of whitespace, commas,
    * brackets and quotes: more texts than the grammar allows, so that nothing depends on which.
    */
  predicate WellFormedLiteral(s: string) {
    s != "" && forall i :: 0 <= i < |s| ==> !IsSpace(s[i]) && s[i] != ',' && !IsStructural(s[i])
  }

  predicate WellFormed(v: Value) {
    match v
    case Literal(s) => WellFormedLiteral(s)
    case Text(units) => WellFormedName(units)
    case EmptyArray(space) => Space(space)
    case Array(elements) => WellFormedElements(elements)
    case EmptyObject(space) => Space(space)
    case Object(members) => WellFormedMembers(members)
  }

  predicate WellFormedElements(e: Elements) {
    && Space(e.before) && WellFormed(e.value) && Space(e.after)
    && (e.MoreElements? ==> WellFormedElements(e.rest))
  }

  predicate WellFormedMember(m: Member) {
    && Space(m.before) && WellFormedName(m.name) && Space(m.left) && Space(m.right) && WellFormed(m.value)
    && Space(m.after)
  }

  predicate WellFormedMembers(ms: Members) {
    WellFormedMember(ms.member) && (ms.MoreMembers? ==> WellFormedMembers(ms.rest))
  }

  // ----- the text of a tree ----------------------------------------------------------------

  function UnitText(u: Unit): string {
    match u
    case Plain(c) => [c]
    case Short(c) => ['\\', c]
    case Hex(a, b, c, d) => ['\\', 'u', a, b, c, d]
  }

  function UnitsText(units: seq<Unit>): string {
    if units == [] then "" else UnitText(units[0]) + UnitsText(units[1..])
  }

  function Quoted(units: seq<Unit>): string {
    ['"'] + (UnitsText(units) + ['"'])
  }

  function Render(v: Value): string {
    match v
    case Literal(s) => s
    case Text(units) => Quoted(units)
    case EmptyArray(space) => ['['] + (space + [']'])
    case Array(elements) => ['['] + (RenderElements(elements) + [']'])
    case EmptyObject(space) => ['{'] + (space + ['}'])
    case Object(members) => ['{'] + (RenderMembers(members) + ['}'])
  }

  function RenderElements(e: Elements): string {
    var one := e.before + (Render(e.value) + e.after);
    if e.LastElement? then one else one + ([','] + RenderElements(e.rest))
  }

  function RenderMember(m: Member): string {
    m.before + (Quoted(m.name) + (m.left + ([':'] + (m.right + (Render(m.value) + m.after)))))
  }

  function RenderMembers(ms: Members): string {
    var one := RenderMember(ms.member);
    if ms.LastMember? then one else one + ([','] + RenderMembers(ms.rest))
  }

  // ----- what a name decodes to ------------------------------------------------------------

  function HexValue(a: char, b: char, c: char, d: char): Option<nat> {
    if HexDigit(a).Some? && HexDigit(b).Some? && HexDigit(c).Some? && HexDigit(d).Some? then
      Some(HexDigit(a).value * 4096 + HexDigit(b).value * 256 + HexDigit(c).value * 16 + HexDigit(d).value)
    else None
  }

  /** The code units of a character in UTF-16 (section 2.1 of RFC 2781). */
  function Utf16(c: char): seq<nat> {
    var n := c as nat;
    if n < 0x1_0000 then [n] else [0xD800 + (n - 0x1_0000) / 0x400, 0xDC00 + (n - 0x1_0000) % 0x400]
  }

  function UnitCodes(u: Unit): seq<nat>
    requires WellFormedUnit(u)
  {
    match u
    case Plain(c) => Utf16(c)
    case Short(c) => [Unescaped(c).value]
    case Hex(a, b, c, d) => [HexValue(a, b, c, d).value]
  }

  /** The code units a string literal stands for, surrogate pairs written either way. */
  function Codes(units: seq<Unit>): seq<nat>
    requires WellFormedName(units)
  {
    if units == [] then [] else UnitCodes(units[0]) + Codes(units[1..])
  }

  /** The same, read from the text: what `JSON.parse` does on a string literal without its quotes. */
  function Decoded(s: string): Option<seq<nat>> {
    if s == "" then Some([])
    else if s[0] as nat < 0x20 then None
    else if s[0] != '\\' then Joined(Some(Utf16(s[0])), Decoded(s[1..]))
    else if |s| >= 6 && s[1] == 'u' then Joined(One(HexValue(s[2], s[3], s[4], s[5])), Decoded(s[6..]))
    else if |s| >= 2 then Joined(One(Unescaped(s[1])), Decoded(s[2..]))
    else None
  }

  function One(code: Option<nat>): Option<seq<nat>> {
    if code.Some? then Some([code.value]) else None
  }

  function Joined(codes: Option<seq<nat>>, rest: Option<seq<nat>>): Option<seq<nat>> {
    if codes.Some? && rest.Some? then Some(codes.value + rest.value) else None
  }

  /** One unit at the front of a literal decodes to its codes. */
  lemma DecodedUnit(u: Unit, rest: string)
    requires WellFormedUnit(u)
    ensures Decoded(UnitText(u) + rest) == Joined(Some(UnitCodes(u)), Decoded(rest))
  {
    hide Utf16;
    var t := UnitText(u);
    var s := t + rest;
    assert s[|t|..] == rest;
    match u {
      case Plain(c) => assert s[0] == c;
      case Short(c) => assert s[0] == t[0] && s[1] == t[1];
      case Hex(a, b, c, d) =>
        assert s[0] == t[0] && s[1] == t[1] && s[2] == t[2] && s[3] == t[3] && s[4] == t[4] && s[5] == t[5];
    }
  }

  lemma {:induction false} DecodedIsCodes(units: seq<Unit>)
    requires WellFormedName(units)
    ensures Decoded(UnitsText(units)) == Some(Codes(units))
  {
    if units != [] {
      DecodedIsCodes(units[1..]);
      DecodedUnit(units[0], UnitsText(units[1..]));
    }
  }
}

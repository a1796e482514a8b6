/** The scanner as the console runs it: loops that advance a position and a bracket stack. */
module JsonScanner {
  import opened Bytes
  import opened Json
  import opened JsonScan
  import Decimal

  method SkipJsonWhitespace(text: string, start: nat) returns (position: nat)
    ensures position == SkipSpace(text, start)
  {
    position := start;
    while position < |text| && IsSpace(text[position])
      invariant SkipSpace(text, position) == SkipSpace(text, start)
    {
      position := position + 1;
    }
  }

  method JsonStringEnd(text: string, start: nat) returns (end: Option<nat>)
    ensures end == StringEnd(text, start)
  {
    if start >= |text| || text[start] != '"' {
      return None;
    }
    var position := start + 1;
    while position < |text|
      invariant StringRest(text, position) == StringEnd(text, start)
      decreases |text| - position
    {
      if text[position] == '\\' {
        position := position + 2;
      } else if text[position] == '"' {
        return Some(position + 1);
      } else {
        position := position + 1;
      }
    }
    return None;
  }

  method JsonValueEnd(text: string, start: nat) returns (end: Option<nat>)
    ensures end == ValueEnd(text, start)
  {
    var position := start;
    if position < |text| && text[position] == '"' {
      end := JsonStringEnd(text, position);
      return;
    }
    if position < |text| && (text[position] == '{' || text[position] == '[') {
      var closing := [if text[position] == '{' then '}' else ']'];
      position := position + 1;
      while position < |text|
        invariant closing != "" && BracketEnd(text, position, closing) == ValueEnd(text, start)
        decreases |text| - position
      {
        var character := text[position];
        if character == '"' {
          var next := JsonStringEnd(text, position);
          if next.None? {
            return None;
          }
          position := next.value;
        } else {
          if character == '{' {
            closing := closing + ['}'];
          } else if character == '[' {
            closing := closing + [']'];
          } else if character == '}' || character == ']' {
            if character != closing[|closing| - 1] {
              return None;
            }
            if |closing| == 1 {
              return Some(position + 1);
            }
            closing := closing[..|closing| - 1];
          }
          position := position + 1;
        }
      }
      return None;
    }
    while position < |text| && !EndsLiteral(text[position])
      invariant LiteralEnd(text, position) == LiteralEnd(text, start)
    {
      position := position + 1;
    }
    end := Some(position);
  }

  /** The body of the loop once a member's bounds are known. */
  method NoteProperty(text: string, keyStart: nat, keyEnd: nat, valueStart: nat, valueEnd: nat, name: seq<nat>,
                      found: Option<string>)
    returns (r: Option<Option<string>>)
    requires keyStart + 1 < keyEnd <= |text| && valueStart <= valueEnd <= |text|
    ensures r == Noted(text, keyStart, keyEnd, valueStart, valueEnd, name, found)
  {
    var key := Decoded(text[keyStart + 1..keyEnd - 1]);
    if key.None? {
      return None;
    }
    r := Some(found);
    if key.value == name {
      if found.Some? {
        return None;
      }
      var number := Decimal.Required(text[valueStart..valueEnd]);
      r := if number.None? then None else Some(number);
    }
  }

  method ExtractTopLevelDecimalU64Property(text: string, name: seq<nat>) returns (r: Option<string>)
    ensures r == Extract(text, name)
  {
    hide StringEnd, ValueEnd, Noted, SkipSpace;
    var position := SkipJsonWhitespace(text, 0);
    if !Has(text, position, '{') {
      return None;
    }
    position := position + 1;
    var found: Option<string> := None;
    while true
      invariant position <= |text|
      invariant ScanMembers(text, position, name, found) == Extract(text, name)
      decreases |text| - position
    {
      var keyStart := SkipJsonWhitespace(text, position);
      if Has(text, keyStart, '}') {
        return found;
      }
      var keyEnd := JsonStringEnd(text, keyStart);
      if keyEnd.None? {
        return None;
      }
      var colon := SkipJsonWhitespace(text, keyEnd.value);
      if !Has(text, colon, ':') {
        return None;
      }
      var valueStart := SkipJsonWhitespace(text, colon + 1);
      var valueEnd := JsonValueEnd(text, valueStart);
      if valueEnd.None? {
        return None;
      }
      var noted := NoteProperty(text, keyStart, keyEnd.value, valueStart, valueEnd.value, name, found);
      if noted.None? {
        return None;
      }
      found := noted.value;
      var next := SkipJsonWhitespace(text, valueEnd.value);
      if Has(text, next, ',') {
        position := next + 1;
      } else if Has(text, next, '}') {
        return found;
      } else {
        return None;
      }
    }
  }
}

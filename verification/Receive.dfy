/** The fixed receive buffer of a PDC connection and command extraction from a byte stream. */
module Receive {
  import opened Bytes
  import opened Frames

  /** A whole frame that parsed: either a supported command or a rejected one with its IDCODE. */
  datatype ReceivedCommand = Accepted(request: CommandRequest) | Rejected(idcode: nat)

  datatype Extraction =
    | NeedMore
    | Malformed(idcode: Option<nat>)
    | Received(command: ReceivedCommand, size: nat)

  function Classify(v: WireVersion, f: Frame): ReceivedCommand {
    match ParseCommand(v, f)
    case Ok(request) => Accepted(request)
    case Err(_) => Rejected(IdCode(f))
  }

  /** The IDCODE reported for a malformed prefix, once enough bytes have arrived to hold one. */
  function PrefixIdCode(buffer: seq<byte>): Option<nat> {
    if |buffer| >= 6 then Some(U16(buffer[4], buffer[5])) else None
  }

  /**
    * `ReceiveBuffer::next_command` on the buffered bytes. An extraction removes a whole envelope,
    * so at least sixteen bytes, and never reads past the buffer or the limit.
    */
  function NextCommand(v: WireVersion, limit: nat, buffer: seq<byte>): (r: Extraction)
    ensures r.Received? ==> MIN_FRAME_BYTES <= r.size <= |buffer| && r.size <= limit
  {
    if |buffer| < 4 then NeedMore
    else
      var size := DeclaredSize(buffer);
      if size > limit then Malformed(PrefixIdCode(buffer))
      else if |buffer| < size then NeedMore
      else match Parse(v, buffer[..size])
           case Err(_) => Malformed(PrefixIdCode(buffer))
           case Ok(f) => Received(Classify(v, f), size)
  }

  /** The bytes that stay buffered after an extraction. */
  function Remaining(v: WireVersion, limit: nat, buffer: seq<byte>): seq<byte> {
    match NextCommand(v, limit, buffer)
    case Received(_, size) => buffer[size..]
    case _ => buffer
  }

  /** A buffer filled to its limit never waits for more bytes. */
  lemma FullBufferProgress(v: WireVersion, limit: nat, buffer: seq<byte>)
    requires 4 <= limit == |buffer|
    ensures !NextCommand(v, limit, buffer).NeedMore?
  {
  }

  /** `ReadResult` without the bytes, which the buffer holds. */
  datatype ReadResult = Open | Closed | ClosedWithBufferedData | Failed

  /** What one `read` call on the socket can report. */
  datatype ReadOutcome = Data(bytes: seq<byte>) | WouldBlock | EndOfStream | ReadError

  /** `ReceiveBuffer::read_from`: reads until the limit, a would-block, the end or an error. */
  function Reads(buffer: seq<byte>, limit: nat, outcomes: seq<ReadOutcome>): (ReadResult, seq<byte>)
    decreases |outcomes|
  {
    if outcomes == [] || |buffer| >= limit then (Open, buffer)
    else match outcomes[0]
         case WouldBlock => (Open, buffer)
         case EndOfStream => (if buffer == [] then Closed else ClosedWithBufferedData, buffer)
         case ReadError => (Failed, buffer)
         case Data(chunk) => Reads(buffer + Fitting(buffer, limit, chunk), limit, outcomes[1..])
  }

  /** A read never returns more than the free space, so a longer chunk is cut there. */
  function Fitting(buffer: seq<byte>, limit: nat, chunk: seq<byte>): (taken: seq<byte>)
    ensures taken <= chunk
    ensures |buffer| <= limit ==> |buffer + taken| <= limit
  {
    var space := if |buffer| <= limit then limit - |buffer| else 0;
    if |chunk| <= space then chunk else chunk[..space]
  }

  lemma {:induction false} ReadsBounded(buffer: seq<byte>, limit: nat, outcomes: seq<ReadOutcome>)
    requires |buffer| <= limit
    ensures buffer <= Reads(buffer, limit, outcomes).1 && |Reads(buffer, limit, outcomes).1| <= limit
    decreases |outcomes|
  {
    if outcomes != [] && |buffer| < limit && outcomes[0].Data? {
      ReadsBounded(buffer + Fitting(buffer, limit, outcomes[0].bytes), limit, outcomes[1..]);
    }
  }

  class ReceiveBuffer {
    const bytes: array<byte>
    const limit: nat
    var length: nat

    ghost predicate Valid()
      reads this
    {
      bytes.Length == MAX_COMMAND_FRAME_BYTES && limit <= bytes.Length && length <= limit
    }

    ghost function Contents(): seq<byte>
      reads this, bytes
      requires Valid()
    {
      bytes[..length]
    }

    constructor (limit: nat)
      requires limit <= MAX_COMMAND_FRAME_BYTES
      ensures Valid() && fresh(bytes) && this.limit == limit && Contents() == []
    {
      bytes := new byte[MAX_COMMAND_FRAME_BYTES](_ => 0);
      this.limit := limit;
      length := 0;
    }

    /** One `read` into the free part of the buffer. */
    method Fill(chunk: seq<byte>)
      requires Valid()
      modifies this, bytes
      ensures Valid()
      ensures Contents() == old(Contents()) + Fitting(old(Contents()), limit, chunk)
    {
      var taken := if |chunk| <= limit - length then |chunk| else limit - length;
      var start := length;
      for i := 0 to taken
        invariant Valid() && length == start && bytes[..start] == old(bytes[..start])
        invariant forall k :: 0 <= k < i ==> bytes[start + k] == chunk[k]
      {
        bytes[start + i] := chunk[i];
      }
      length := start + taken;
      assert bytes[..length] == bytes[..start] + chunk[..taken];
    }

    method ReadFrom(outcomes: seq<ReadOutcome>) returns (result: ReadResult)
      requires Valid()
      modifies this, bytes
      ensures Valid() && (result, Contents()) == Reads(old(Contents()), limit, outcomes)
    {
      var i := 0;
      while i < |outcomes|
        invariant Valid() && i <= |outcomes|
        invariant Reads(Contents(), limit, outcomes[i..]) == Reads(old(Contents()), limit, outcomes)
      {
        if length == limit {
          return Open;
        }
        match outcomes[i] {
          case WouldBlock => return Open;
          case EndOfStream => return if length == 0 then Closed else ClosedWithBufferedData;
          case ReadError => return Failed;
          case Data(chunk) => Fill(chunk);
        }
        i := i + 1;
      }
      result := Open;
    }

    /** `copy_within(size..length, 0)`: the unread bytes move to the front. */
    method DropFront(size: nat)
      requires Valid() && size <= length
      modifies this, bytes
      ensures Valid() && Contents() == old(Contents())[size..]
    {
      var n := length - size;
      for i := 0 to n
        invariant Valid() && length == old(length)
        invariant forall k :: 0 <= k < i ==> bytes[k] == old(bytes[size + k])
        invariant forall k :: i <= k < length ==> bytes[k] == old(bytes[k])
      {
        bytes[i] := bytes[size + i];
      }
      length := n;
    }

    method TakeCommand(v: WireVersion) returns (r: Extraction)
      requires Valid()
      modifies this, bytes
      ensures Valid()
      ensures r == NextCommand(v, limit, old(Contents()))
      ensures Contents() == Remaining(v, limit, old(Contents()))
    {
      ghost var before := Contents();
      if length < 4 {
        return NeedMore;
      }
      var malformed := if length >= 6 then Malformed(Some(U16(bytes[4], bytes[5]))) else Malformed(None);
      var size := U16(bytes[2], bytes[3]);
      if size > limit {
        return malformed;
      }
      if length < size {
        return NeedMore;
      }
      assert bytes[..size] == before[..size];
      match Parse(v, bytes[..size]) {
        case Err(_) => return malformed;
        case Ok(f) =>
          r := Received(Classify(v, f), size);
          DropFront(size);
      }
    }
  }

  // ----- streams ---------------------------------------------------------------------------

  /** What one-shot parsing of a whole stream yields; a broken prefix ends it. */
  datatype Outcome = Command(command: ReceivedCommand) | Broken

  function Outcomes(v: WireVersion, limit: nat, stream: seq<byte>): seq<Outcome>
    decreases |stream|
  {
    match NextCommand(v, limit, stream)
    case NeedMore => []
    case Malformed(_) => [Broken]
    case Received(c, size) => [Command(c)] + Outcomes(v, limit, stream[size..])
  }

  /** Bytes arriving later change neither an extracted command nor a broken prefix. */
  lemma ExtractionStable(v: WireVersion, limit: nat, buffer: seq<byte>, more: seq<byte>)
    ensures NextCommand(v, limit, buffer).Received? ==>
              && NextCommand(v, limit, buffer + more) == NextCommand(v, limit, buffer)
              && Remaining(v, limit, buffer + more) == Remaining(v, limit, buffer) + more
    ensures NextCommand(v, limit, buffer).Malformed? ==> NextCommand(v, limit, buffer + more).Malformed?
  {
    hide Parse, Classify;
    if |buffer| >= 4 && DeclaredSize(buffer) <= |buffer| {
      assert (buffer + more)[..DeclaredSize(buffer)] == buffer[..DeclaredSize(buffer)];
    }
  }

  /** The events of one connection's receive side, in any order. */
  datatype Event = Arrive(bytes: seq<byte>) | Extract

  datatype Stream = Stream(fed: seq<byte>, buffer: seq<byte>, extracted: seq<Outcome>, stopped: bool)

  const EMPTY := Stream([], [], [], false)

  /** A fill takes what fits below the limit; extraction stops for good at a broken prefix. */
  function Step(v: WireVersion, limit: nat, s: Stream, e: Event): Stream {
    match e
    case Arrive(bytes) =>
      var taken := Fitting(s.buffer, limit, bytes);
      s.(fed := s.fed + taken, buffer := s.buffer + taken)
    case Extract =>
      if s.stopped then s
      else match NextCommand(v, limit, s.buffer)
           case NeedMore => s
           case Malformed(_) => s.(extracted := s.extracted + [Broken], stopped := true)
           case Received(c, size) => s.(extracted := s.extracted + [Command(c)], buffer := s.buffer[size..])
  }

  function Run(v: WireVersion, limit: nat, events: seq<Event>): Stream
    decreases |events|
  {
    if events == [] then EMPTY
    else Step(v, limit, Run(v, limit, events[..|events| - 1]), events[|events| - 1])
  }

  /** What is still to come from a stream state if `more` arrived next. */
  function Ahead(v: WireVersion, limit: nat, s: Stream, more: seq<byte>): seq<Outcome> {
    if s.stopped then [] else Outcomes(v, limit, s.buffer + more)
  }

  ghost predicate Faithful(v: WireVersion, limit: nat, s: Stream) {
    && |s.buffer| <= limit
    && forall more: seq<byte> :: Outcomes(v, limit, s.fed + more) == s.extracted + Ahead(v, limit, s, more)
  }

  lemma ArriveFaithful(v: WireVersion, limit: nat, s: Stream, bytes: seq<byte>, more: seq<byte>)
    requires Faithful(v, limit, s)
    ensures var t := Step(v, limit, s, Arrive(bytes));
            Outcomes(v, limit, t.fed + more) == t.extracted + Ahead(v, limit, t, more)
  {
    hide Outcomes;
    var t := Step(v, limit, s, Arrive(bytes));
    var taken := t.fed[|s.fed|..];
    assert t.fed + more == s.fed + (taken + more);
    assert t.buffer + more == s.buffer + (taken + more);
  }

  lemma ExtractFaithful(v: WireVersion, limit: nat, s: Stream, more: seq<byte>)
    requires Faithful(v, limit, s)
    ensures var t := Step(v, limit, s, Extract);
            Outcomes(v, limit, t.fed + more) == t.extracted + Ahead(v, limit, t, more)
  {
    hide NextCommand;
    var t := Step(v, limit, s, Extract);
    assert Outcomes(v, limit, s.fed + more) == s.extracted + Ahead(v, limit, s, more);
    if !s.stopped {
      ExtractionStable(v, limit, s.buffer, more);
      var next := NextCommand(v, limit, s.buffer);
      if next.Received? {
        assert (s.buffer + more)[next.size..] == t.buffer + more;
        assert s.extracted + ([Command(next.command)] + Outcomes(v, limit, t.buffer + more))
            == (s.extracted + [Command(next.command)]) + Outcomes(v, limit, t.buffer + more);
      }
    }
  }

  lemma StepFaithful(v: WireVersion, limit: nat, s: Stream, e: Event)
    requires Faithful(v, limit, s)
    ensures Faithful(v, limit, Step(v, limit, s, e))
  {
    hide NextCommand, Outcomes;
    forall more: seq<byte>
      ensures Outcomes(v, limit, Step(v, limit, s, e).fed + more)
           == Step(v, limit, s, e).extracted + Ahead(v, limit, Step(v, limit, s, e), more)
    {
      if e.Arrive? {
        ArriveFaithful(v, limit, s, e.bytes, more);
      } else {
        ExtractFaithful(v, limit, s, more);
      }
    }
  }

  lemma EmptyFaithful(v: WireVersion, limit: nat)
    ensures Faithful(v, limit, EMPTY)
  {
    hide Outcomes;
    forall more: seq<byte>
      ensures Outcomes(v, limit, EMPTY.fed + more) == EMPTY.extracted + Ahead(v, limit, EMPTY, more)
    {
      assert EMPTY.fed + more == more && EMPTY.buffer + more == more;
      assert [] + Outcomes(v, limit, more) == Outcomes(v, limit, more);
    }
  }

  lemma {:induction false} RunFaithful(v: WireVersion, limit: nat, events: seq<Event>)
    ensures Faithful(v, limit, Run(v, limit, events))
    decreases |events|
  {
    hide Faithful, Step;
    if events == [] {
      EmptyFaithful(v, limit);
    } else {
      RunFaithful(v, limit, events[..|events| - 1]);
      StepFaithful(v, limit, Run(v, limit, events[..|events| - 1]), events[|events| - 1]);
    }
  }

  /**
    * Fragmentation independence: however the bytes were cut and whenever commands were taken,
    * the extracted commands are a prefix of a one-shot parse of everything that arrived, and
    * all of it once no further extraction is possible.
    */
  lemma FragmentationIndependence(v: WireVersion, limit: nat, events: seq<Event>)
    ensures var s := Run(v, limit, events);
            && s.extracted <= Outcomes(v, limit, s.fed)
            && (s.stopped || NextCommand(v, limit, s.buffer).NeedMore? ==> s.extracted == Outcomes(v, limit, s.fed))
  {
    var s := Run(v, limit, events);
    RunFaithful(v, limit, events);
    assert s.fed + [] == s.fed && s.buffer + [] == s.buffer;
    assert Outcomes(v, limit, s.fed + []) == s.extracted + Ahead(v, limit, s, []);
  }

  /** Every command in a stream costs at least an envelope, so the commands are bounded by the bytes. */
  lemma {:induction false} OutcomesBounded(v: WireVersion, limit: nat, stream: seq<byte>)
    ensures MIN_FRAME_BYTES * (|Outcomes(v, limit, stream)| - 1) <= |stream|
    decreases |stream|
  {
    if NextCommand(v, limit, stream).Received? {
      OutcomesBounded(v, limit, stream[NextCommand(v, limit, stream).size..]);
    }
  }
}

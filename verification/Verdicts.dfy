/**
  * What the probes accept, told by byte offsets: exactly which frames, configurations and data pass
  * their decoders, and how the input of a connection is judged.
  */
module Verdicts {
  import opened Bytes
  import opened Frames
  import opened Decoders
  import opened Probe
  import opened Layout
  import Commands
  import Configuration
  import Connections
  import Crc

  // ----- frames ----------------------------------------------------------------------------

  /** A whole frame of the probe's version; its fields are those at the offsets of the envelope. */
  lemma FrameAcceptedExactly(v: WireVersion, bytes: seq<byte>)
    ensures DecodeFrame(v, bytes).Some?
       <==> Commands.WholeFrame(v, bytes) && bytes[1] % 16 == (if v.V2? then 2 else 3)
    ensures DecodeFrame(v, bytes).Some? ==>
              var f := DecodeFrame(v, bytes).value;
              && f.frameType == bytes[1] / 16 && Says(bytes, 4, 2, f.id)
              && Says(bytes, 6, 4, f.time.soc) && f.quality == bytes[10] && Says(bytes, 11, 3, f.time.fracsec)
              && f.body == bytes[14..|bytes| - 2]
  {
    hide Crc.ChecksumMatches, Number, U16, U24, U32;
    if |bytes| >= 16 {
      NumberOfTwo(bytes[4..6]);
      NumberOfFour(bytes[6..10]);
      NumberOfThree(bytes[11..14]);
    }
  }

  // ----- taking numbers --------------------------------------------------------------------

  function NumberAt(body: seq<byte>, at: nat, n: nat): nat
    requires at + n <= |body|
  {
    Number(body[at..at + n])
  }

  lemma TookU16(body: seq<byte>, at: nat)
    ensures TakeU16(body, at)
         == if at + 2 <= |body| then Some((NumberAt(body, at, 2), at + 2)) else None
  {
    hide Number, U16;
    if at + 2 <= |body| {
      NumberOfTwo(body[at..at + 2]);
    }
  }

  lemma TookU32(body: seq<byte>, at: nat)
    ensures TakeU32(body, at)
         == if at + 4 <= |body| then Some((NumberAt(body, at, 4), at + 4)) else None
  {
    hide Number, U32;
    if at + 4 <= |body| {
      NumberOfFour(body[at..at + 4]);
    }
  }

  lemma SmallNumbers(s: seq<byte>)
    ensures |s| == 2 ==> Number(s) <= U16_MAX
    ensures |s| == 4 ==> Number(s) <= U32_MAX
  {
    hide Number;
    if |s| == 2 {
      NumberOfTwo(s);
    } else if |s| == 4 {
      NumberOfFour(s);
    }
  }

  // ----- version 2 configuration -----------------------------------------------------------

  predicate GoodTimeBase(timeBase: nat, rate: nat)
    requires rate > 0
  {
    0 < timeBase < 0x100_0000 && timeBase % rate == 0
  }

  predicate LeadingOkV2(body: seq<byte>, rate: nat)
    requires rate > 0
  {
    && |body| >= 32 && GoodTimeBase(NumberAt(body, 0, 4), rate) && NumberAt(body, 4, 2) == 1
    && Configuration.Printable(body[6..22]) && 1 <= NumberAt(body, 22, 2) <= 65534
    && NumberAt(body, 24, 2) == 1 && NumberAt(body, 26, 2) == 6 && NumberAt(body, 28, 2) == 0
    && NumberAt(body, 30, 2) == 0
  }

  lemma LeadingJudgedV2(body: seq<byte>, rate: nat)
    requires rate > 0
    ensures Decoders.LeadingV2(body, rate)
         == if LeadingOkV2(body, rate) then Some((NumberAt(body, 0, 4), NumberAt(body, 22, 2), 32)) else None
  {
    hide Configuration.Printable, Number, TakeU16, TakeU32;
    TookU32(body, 0);
    TookU16(body, 4);
    TookU16(body, 22);
    TookU16(body, 24);
    TookU16(body, 26);
    TookU16(body, 28);
    TookU16(body, 30);
    if |body| >= 32 {
      SmallNumbers(body[0..4]);
      SmallNumbers(body[22..24]);
    }
  }

  /** `count` printable names of sixteen bytes from `at` on. */
  predicate PrintableNames(body: seq<byte>, at: nat, count: nat) {
    && at + 16 * count <= |body|
    && forall k :: 0 <= k < count ==> PrintableName(body, at + 16 * k)
  }

  predicate PrintableName(body: seq<byte>, at: nat) {
    at + 16 <= |body| && Configuration.Printable(body[at..at + 16])
  }

  lemma {:induction false} NamesJudgedV2(body: seq<byte>, at: nat, count: nat)
    requires at <= |body|
    ensures TakeFixedNames(body, at, count)
         == if PrintableNames(body, at, count) then Some(at + 16 * count) else None
    decreases count
  {
    hide Configuration.Printable;
    if count > 0 {
      if at + 16 <= |body| {
        NamesJudgedV2(body, at + 16, count - 1);
      }
      FirstName(body, at, count);
    }
  }

  lemma FirstName(body: seq<byte>, at: nat, count: nat)
    requires count > 0
    ensures PrintableNames(body, at, count)
       <==> PrintableName(body, at) && PrintableNames(body, at + 16, count - 1)
  {
    hide PrintableName;
    assert at + 16 * 0 == at;
    if PrintableNames(body, at, count) {
      assert PrintableName(body, at + 16 * 0);
      forall k | 0 <= k < count - 1
        ensures PrintableName(body, at + 16 + 16 * k)
      {
        assert PrintableName(body, at + 16 * (k + 1));
      }
    }
    if PrintableName(body, at) && PrintableNames(body, at + 16, count - 1) {
      forall k | 0 <= k < count
        ensures PrintableName(body, at + 16 * k)
      {
        if k > 0 {
          assert PrintableName(body, at + 16 + 16 * (k - 1));
        }
      }
    }
  }

  /** `count` units of four bytes from `at` on, each a voltage or current factor other than zero. */
  predicate UnitsFrom(body: seq<byte>, at: nat, count: nat) {
    && at + 4 * count <= |body|
    && forall k :: 0 <= k < count ==> UnitAt(body, at + 4 * k)
  }

  predicate UnitAt(body: seq<byte>, at: nat) {
    at + 4 <= |body| && NumberAt(body, at, 4) < 0x200_0000 && NumberAt(body, at, 4) % 0x100_0000 != 0
  }

  lemma {:induction false} UnitsJudged(body: seq<byte>, at: nat, count: nat)
    requires at <= |body|
    ensures TakePhunits(body, at, count) == if UnitsFrom(body, at, count) then Some(at + 4 * count) else None
    decreases count
  {
    hide TakeU32, NumberAt;
    if count > 0 {
      TookU32(body, at);
      if at + 4 <= |body| {
        UnitsJudged(body, at + 4, count - 1);
      }
      FirstUnit(body, at, count);
    }
  }

  lemma FirstUnit(body: seq<byte>, at: nat, count: nat)
    requires count > 0
    ensures UnitsFrom(body, at, count) <==> UnitAt(body, at) && UnitsFrom(body, at + 4, count - 1)
  {
    hide UnitAt;
    assert at + 4 * 0 == at;
    if UnitsFrom(body, at, count) {
      assert UnitAt(body, at + 4 * 0);
      forall k | 0 <= k < count - 1
        ensures UnitAt(body, at + 4 + 4 * k)
      {
        assert UnitAt(body, at + 4 * (k + 1));
      }
    }
    if UnitAt(body, at) && UnitsFrom(body, at + 4, count - 1) {
      forall k | 0 <= k < count
        ensures UnitAt(body, at + 4 * k)
      {
        if k > 0 {
          assert UnitAt(body, at + 4 + 4 * (k - 1));
        }
      }
    }
  }

  /** Two bytes compared as signed numbers are compared as they are. */
  lemma SignedInjective(a: nat, b: nat)
    requires a <= U16_MAX && b <= U16_MAX
    ensures Signed(a) == Signed(b) <==> a == b
  {
  }

  lemma TrailingJudgedV2(body: seq<byte>, rate: nat)
    requires |body| >= 152 && rate <= U16_MAX
    ensures Decoders.TrailingV2(body, 152, rate)
       <==> |body| == 158 && NumberAt(body, 152, 2) <= 1 && NumberAt(body, 156, 2) == rate
  {
    hide Number, TakeU16, Signed;
    TookU16(body, 152);
    TookU16(body, 154);
    TookU16(body, 156);
    if |body| >= 158 {
      SmallNumbers(body[156..158]);
      SignedInjective(NumberAt(body, 156, 2), rate);
    }
  }

  /** A CFG-1 or CFG-2 body of 158 bytes with every field in its place. */
  predicate ConfigurationOkV2(body: seq<byte>, rate: nat)
    requires rate > 0
  {
    && |body| == 158 && LeadingOkV2(body, rate)
    && PrintableNames(body, 32, 6) && UnitsFrom(body, 128, 6)
    && NumberAt(body, 152, 2) <= 1 && NumberAt(body, 156, 2) == rate
  }

  /** The version 2 probe accepts exactly the bodies laid out so, and reads the summary off them. */
  lemma ConfigurationJudgedV2(body: seq<byte>, rate: nat)
    requires 0 < rate <= U16_MAX
    ensures DecodeConfigurationV2(body, rate)
         == if ConfigurationOkV2(body, rate) then Some(Summary(NumberAt(body, 0, 4), NumberAt(body, 22, 2), rate))
            else None
  {
    hide Decoders.LeadingV2, Decoders.TrailingV2, TakeFixedNames, TakePhunits, LeadingOkV2, NumberAt, PrintableName,
      UnitAt;
    LeadingJudgedV2(body, rate);
    LeadingNeeds(body, rate);
    if |body| >= 32 {
      NamesJudgedV2(body, 32, 6);
    }
    if |body| >= 128 {
      UnitsJudged(body, 128, 6);
    }
    if |body| >= 152 {
      TrailingJudgedV2(body, rate);
    }
  }

  lemma LeadingNeeds(body: seq<byte>, rate: nat)
    requires rate > 0
    ensures LeadingOkV2(body, rate) ==> |body| >= 32
  {
  }

  // ----- version 3 configuration -----------------------------------------------------------

  /** A length byte and that much UTF-8 text stand at `at`. */
  predicate NameAt(body: seq<byte>, at: nat) {
    && at < |body| && at + 1 + body[at] <= |body|
    && Configuration.Utf8(body[at + 1..at + 1 + body[at]])
  }

  function NameEnd(body: seq<byte>, at: nat): nat
    requires at < |body|
  {
    at + 1 + body[at]
  }

  /** The offset behind `count` names, if they are all there. */
  function NamesEnd(body: seq<byte>, at: nat, count: nat): Option<nat>
    decreases count
  {
    if count == 0 then Some(at) else if NameAt(body, at) then NamesEnd(body, NameEnd(body, at), count - 1) else None
  }

  lemma TookName(body: seq<byte>, at: nat)
    ensures TakeName(body, at).Some? <==> NameAt(body, at)
    ensures TakeName(body, at).Some? ==> TakeName(body, at).value.1 == NameEnd(body, at)
  {
    hide Configuration.Utf8;
    assert at < |body| ==> body[at..at + 1][0] == body[at];
  }

  lemma {:induction false} NamesJudgedV3(body: seq<byte>, at: nat, count: nat)
    ensures TakeNames(body, at, count) == NamesEnd(body, at, count)
    decreases count
  {
    hide TakeName, NameAt;
    if count > 0 {
      TookName(body, at);
      if NameAt(body, at) {
        NameInside(body, at);
        NamesJudgedV3(body, NameEnd(body, at), count - 1);
      }
    }
  }

  lemma NameInside(body: seq<byte>, at: nat)
    requires NameAt(body, at)
    ensures at < |body| && NameEnd(body, at) <= |body|
  {
  }

  /** Where the PMU id stands, behind the two names. */
  function IdAt(body: seq<byte>): nat
    requires NameAt(body, 6) && NameAt(body, NameEnd(body, 6) + 2)
  {
    NameEnd(body, NameEnd(body, 6) + 2)
  }

  predicate NamedOkV3(body: seq<byte>, rate: nat)
    requires rate > 0
  {
    && |body| >= 6 && NumberAt(body, 0, 2) == 0 && GoodTimeBase(NumberAt(body, 2, 4), rate)
    && NameAt(body, 6) && NameEnd(body, 6) + 2 <= |body| && NumberAt(body, NameEnd(body, 6), 2) == 1
    && NameAt(body, NameEnd(body, 6) + 2)
  }

  predicate LeadingOkV3(body: seq<byte>, rate: nat)
    requires rate > 0
  {
    && NamedOkV3(body, rate)
    && var o := IdAt(body);
    && o + 32 <= |body| && 1 <= NumberAt(body, o, 2) <= 65534 && CountsOk(body, o + 2)
  }

  /** Format one, six phasors, one frequency, one ROCOF, behind the PMU version and the global id. */
  predicate CountsOk(body: seq<byte>, at: nat) {
    && at + 30 <= |body| && NumberAt(body, at, 2) == 3 && NumberAt(body, at + 18, 2) == 1
    && NumberAt(body, at + 20, 2) == 6 && NumberAt(body, at + 22, 2) == 0 && NumberAt(body, at + 24, 2) == 1
    && NumberAt(body, at + 26, 2) == 1 && NumberAt(body, at + 28, 2) == 0
  }

  lemma CountsJudged(body: seq<byte>, at: nat)
    ensures CountsV3(body, at) == if CountsOk(body, at) then Some(at + 30) else None
  {
    hide NumberAt, TakeU16;
    TookU16(body, at);
    TookU16(body, at + 18);
    TookU16(body, at + 20);
    TookU16(body, at + 22);
    TookU16(body, at + 24);
    TookU16(body, at + 26);
    TookU16(body, at + 28);
  }

  lemma LeadingJudgedV3(body: seq<byte>, rate: nat)
    requires rate > 0
    ensures Decoders.LeadingV3(body, rate)
         == if LeadingOkV3(body, rate) then
              Some((NumberAt(body, 2, 4), NumberAt(body, IdAt(body), 2), IdAt(body) + 32))
            else None
  {
    hide Number, TakeU16, TakeU32, TakeName, NameAt, CountsV3, CountsOk;
    TookU16(body, 0);
    TookU32(body, 2);
    TookName(body, 6);
    if |body| >= 6 {
      SmallNumbers(body[2..6]);
    }
    if NameAt(body, 6) {
      NameInside(body, 6);
      var a := NameEnd(body, 6);
      TookU16(body, a);
      TookName(body, a + 2);
      if NameAt(body, a + 2) {
        NameInside(body, a + 2);
        var o := NameEnd(body, a + 2);
        TookU16(body, o);
        if o + 2 <= |body| {
          SmallNumbers(body[o..o + 2]);
        }
        CountsJudged(body, o + 2);
        CountsNeed(body, o + 2);
      }
    }
  }

  lemma CountsNeed(body: seq<byte>, at: nat)
    ensures CountsOk(body, at) ==> at + 30 <= |body|
  {
  }

  lemma TrailingJudgedV3(body: seq<byte>, at: nat, rate: nat)
    requires at <= |body| && rate <= U16_MAX
    ensures Decoders.TrailingV3(body, at, rate)
       <==> && |body| == at + 142 && NumberAt(body, at + 124, 2) / 0x1000 % 2 == 0
            && NumberAt(body, at + 134, 2) == rate && NumberAt(body, at + 138, 2) == rate
  {
    hide Number, TakeU16, Signed;
    TookU16(body, at + 124);
    TookU16(body, at + 134);
    TookU16(body, at + 136);
    TookU16(body, at + 138);
    TookU16(body, at + 140);
    if |body| >= at + 142 {
      SmallNumbers(body[at + 134..at + 136]);
      SmallNumbers(body[at + 138..at + 140]);
      SignedInjective(NumberAt(body, at + 134, 2), rate);
      SignedInjective(NumberAt(body, at + 138, 2), rate);
    }
  }

  /** A capability or stream configuration body with every field in its place behind the names. */
  predicate ConfigurationOkV3(body: seq<byte>, rate: nat)
    requires rate > 0
  {
    && LeadingOkV3(body, rate)
    && var end := NamesEnd(body, IdAt(body) + 32, 8);
    && end.Some? && |body| == end.value + 142 && NumberAt(body, end.value + 124, 2) / 0x1000 % 2 == 0
    && NumberAt(body, end.value + 134, 2) == rate && NumberAt(body, end.value + 138, 2) == rate
  }

  /** The version 3 probe accepts exactly the bodies laid out so, and reads the summary off them. */
  lemma ConfigurationJudgedV3(body: seq<byte>, rate: nat)
    requires 0 < rate <= U16_MAX
    ensures DecodeConfigurationV3(body, rate)
         == if ConfigurationOkV3(body, rate) then
              Some(Summary(NumberAt(body, 2, 4), NumberAt(body, IdAt(body), 2), rate))
            else None
  {
    hide Decoders.LeadingV3, Decoders.TrailingV3, TakeNames, NamesEnd, Number, NameAt, CountsOk;
    LeadingJudgedV3(body, rate);
    if LeadingOkV3(body, rate) {
      var at := IdAt(body) + 32;
      NamesJudgedV3(body, at, 8);
      var end := NamesEnd(body, at, 8);
      if end.Some? {
        NamesEndInside(body, at, 8);
        TrailingJudgedV3(body, end.value, rate);
      }
    }
  }

  lemma {:induction false} NamesEndInside(body: seq<byte>, at: nat, count: nat)
    requires at <= |body|
    ensures NamesEnd(body, at, count).Some? ==> NamesEnd(body, at, count).value <= |body|
    decreases count
  {
    hide NameAt;
    if count > 0 && NameAt(body, at) {
      NameInside(body, at);
      NamesEndInside(body, NameEnd(body, at), count - 1);
    }
  }

  // ----- data ------------------------------------------------------------------------------

  /**
    * A data frame passes exactly if it has its version's size, quality and STAT, lies on the
    * reporting grid, and comes one step after the one before, no sooner and no later.
    */
  lemma DataJudged(v: WireVersion, f: DecodedFrame, c: Summary, previous: Option<Timestamp>)
    requires 0 < c.rate <= c.timeBase
    ensures DataAccepted(v, f, c, previous)
       <==> && (v.V3? ==> |f.body| == 32)
            && (v.V2? ==> |f.body| == 30 && f.quality == 0x0F && NumberAt(f.body, 0, 2) in {0, 0x21C0})
            && f.time.fracsec < c.timeBase && f.time.fracsec % (c.timeBase / c.rate) == 0
            && (previous.Some? ==>
                  f.time.soc * c.timeBase + f.time.fracsec
                  == previous.value.soc * c.timeBase + previous.value.fracsec + c.timeBase / c.rate)
  {
    hide Number;
    if |f.body| >= 2 {
      NumberOfTwo(f.body[0..2]);
    }
    assert c.timeBase / c.rate > 0 by {
      StepPositive(c.timeBase, c.rate);
    }
  }

  lemma StepPositive(n: nat, d: nat)
    requires 0 < d <= n
    ensures n / d > 0
  {
  }

  // ----- the input of a connection ---------------------------------------------------------

  /**
    * How the probe judges what it has read: a declared size out of bounds, a frame that is not whole
    * or not of its version, and a foreign id are errors; part of a frame waits; any other frame goes
    * to the handshake, and what is behind it is judged in turn.
    */
  lemma InputJudged(c: Client)
    requires Sane(c)
    ensures var n := |c.input|;
            if n < 4 then ProcessInput(c) == Ok(c)
            else
              var size := NumberAt(c.input, 2, 2);
              if size > 4096 || (c.version.V2? && size < 16) then ProcessInput(c) == Err(BadSize)
              else if n < size then ProcessInput(c) == Ok(c)
              else
                var f := DecodeFrame(c.version, c.input[..size]);
                if f.None? then ProcessInput(c) == Err(BadFrame)
                else if f.value.id != c.id then ProcessInput(c) == Err(WrongIdentity)
                else
                  var d := HandleFrame(c.(input := c.input[size..]), f.value);
                  ProcessInput(c) == if d.Ok? then ProcessInput(d.value) else Err(d.error)
  {
    hide DecodeFrame, HandleFrame, Number;
    if |c.input| >= 4 {
      NumberOfTwo(c.input[2..4]);
      SmallFrameRefused(c.version, c.input);
    }
  }

  /** A declared size below an envelope never decodes, so every frame that does takes bytes away. */
  lemma SmallFrameRefused(v: WireVersion, input: seq<byte>)
    requires |input| >= 4
    ensures var size := DeclaredSize(input);
            size <= |input| && DecodeFrame(v, input[..size]).Some? ==> size >= 16
  {
    hide Crc.ChecksumMatches;
  }

  /** A read that would fill the buffer of 4096 bytes is an error; otherwise the bytes join the input. */
  lemma ReadJudged(c: Client, arrived: seq<byte>)
    requires Sane(c)
    ensures ReadReady(c, arrived)
         == if |c.input| + |arrived| >= 4096 then Err(BufferFull)
            else ProcessInput(c.(input := c.input + arrived))
  {
    hide ProcessInput;
  }

  /**
    * One write of a queued command sends its next bytes. Its last byte moves the client to waiting
    * for the reply, or to streaming behind a start; a failed or empty write is an error.
    */
  lemma WriteJudged(c: Client, outcome: Connections.WriteOutcome)
    requires c.state.Sending? && c.offset < |c.output|
    requires outcome.Wrote? ==> c.offset + outcome.count <= |c.output|
    ensures var r := WriteReady(c, outcome);
            match outcome
            case WriteBlocked => r == Ok(Written(c, []))
            case WriteFailed => r.Err?
            case Wrote(n) =>
              var sent := c.output[c.offset..c.offset + n];
              && (n == 0 ==> r.Err?)
              && (0 < n && c.offset + n < |c.output| ==> r == Ok(Written(c.(offset := c.offset + n), sent)))
              && (0 < n && c.offset + n == |c.output| && !c.state.command.Stop? ==>
                    var state := if c.state.command.Start? then Streaming else Awaiting(c.state.command);
                    r == Ok(Written(c.(offset := |c.output|, state := state), sent)))
  {
    if outcome.Wrote? {
      assert c.output[c.offset..][..outcome.count] == c.output[c.offset..c.offset + outcome.count];
    }
  }
}

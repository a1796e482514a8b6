/**
  * Where everything stands on the wire: the byte offsets of the envelope, the periodic data and
  * the configuration frames, with every number read most significant byte first.
  */
module Layout {
  import opened Bytes
  import opened Frames
  import opened Configuration
  import Crc

  /** A byte string read as a number, most significant byte first. */
  function Number(s: seq<byte>): nat {
    if s == [] then 0 else 256 * Number(s[..|s| - 1]) + s[|s| - 1]
  }

  lemma NumberOfTwo(s: seq<byte>)
    requires |s| == 2
    ensures Number(s) == U16(s[0], s[1])
  {
    assert s[..1][..0] == [] && s[..1][0] == s[0];
    assert Number(s[..1]) == s[0];
  }

  lemma NumberOfThree(s: seq<byte>)
    requires |s| == 3
    ensures Number(s) == U24(s[0], s[1], s[2])
  {
    NumberOfTwo(s[..2]);
  }

  lemma NumberOfFour(s: seq<byte>)
    requires |s| == 4
    ensures Number(s) == U32(s[0], s[1], s[2], s[3])
  {
    NumberOfThree(s[..3]);
  }

  /** The fourteen header bytes, the body and the two checksum bytes of every encoded frame. */
  lemma FrameLayout(v: WireVersion, frameType: nat, id: nat, ts: Timestamp, body: seq<byte>)
    requires frameType < 16 && (v.V2? ==> frameType < 8)
    requires id <= U16_MAX && ValidTime(ts) && MIN_FRAME_BYTES + |body| <= U16_MAX
    ensures var f := EncodeFrame(v, frameType, id, ts, body);
            && |f| == 16 + |body| && f[0] == 0xAA && f[1] == 16 * frameType + (if v.V2? then 2 else 3)
            && Number(f[2..4]) == |f| && Number(f[4..6]) == id && Number(f[6..10]) == ts.soc
            && f[10] == (if v.V2? then 0x0F else 0) && Number(f[11..14]) == ts.fracsec
            && f[14..|f| - 2] == body && Crc.ChecksumMatches(f)
  {
    hide Crc.ChecksumMatches, Crc.Seal, Header, EncodeFrame, Number, U16, U24, U32;
    EncodedFrameParses(v, frameType, id, ts, body);
    var f := EncodeFrame(v, frameType, id, ts, body);
    NumberOfTwo(f[2..4]);
    NumberOfTwo(f[4..6]);
    NumberOfFour(f[6..10]);
    NumberOfThree(f[11..14]);
  }

  // ----- fields of a body ------------------------------------------------------------------

  /** The bytes `field` stand at offset `at`. */
  predicate Holds(body: seq<byte>, at: nat, field: seq<byte>) {
    at + |field| <= |body| && body[at..at + |field|] == field
  }

  /** The `n` bytes at offset `at` read as `value`. */
  predicate Says(body: seq<byte>, at: nat, n: nat, value: nat) {
    at + n <= |body| && Number(body[at..at + n]) == value
  }

  lemma SaysU16(body: seq<byte>, at: nat, value: nat)
    requires Holds(body, at, PutU16(value)) && value <= U16_MAX
    ensures Says(body, at, 2, value)
  {
    hide Number, U16, PutU16;
    NumberOfTwo(body[at..at + 2]);
    U16RoundTrip(value);
  }

  lemma SaysU32(body: seq<byte>, at: nat, value: nat)
    requires Holds(body, at, PutU32(value)) && value <= U32_MAX
    ensures Says(body, at, 4, value)
  {
    hide Number, U32, PutU32;
    NumberOfFour(body[at..at + 4]);
    U32RoundTrip(value);
  }

  lemma HoldsLeft(x: seq<byte>, y: seq<byte>, at: nat, field: seq<byte>)
    requires Holds(x, at, field)
    ensures Holds(x + y, at, field)
  {
    assert (x + y)[at..at + |field|] == x[at..at + |field|];
  }

  lemma HoldsRight(x: seq<byte>, y: seq<byte>, at: nat, field: seq<byte>)
    requires Holds(y, at, field)
    ensures Holds(x + y, |x| + at, field)
  {
    assert (x + y)[|x| + at..|x| + at + |field|] == y[at..at + |field|];
  }

  /** Part of a field stands where the field does, shifted. */
  lemma HoldsPart(body: seq<byte>, at: nat, field: seq<byte>, from: nat, part: seq<byte>)
    requires Holds(body, at, field) && Holds(field, from, part)
    ensures Holds(body, at + from, part)
  {
    var slice := body[at + from..at + from + |part|];
    forall k | 0 <= k < |part|
      ensures slice[k] == part[k]
    {
      assert part[k] == field[from..from + |part|][k];
      assert field[from + k] == body[at..at + |field|][from + k];
    }
  }

  lemma FieldHolds(fields: seq<seq<byte>>, i: nat, at: nat)
    requires i < |fields| && at == Offset(fields, i)
    ensures Holds(Concat(fields), at, fields[i])
  {
    FieldAt(fields, i);
  }

  lemma {:induction false} EvenOffset(fields: seq<seq<byte>>, n: nat, size: nat)
    requires n <= |fields| && forall i :: 0 <= i < |fields| ==> |fields[i]| == size
    ensures Offset(fields, n) == n * size
  {
    if n > 0 {
      EvenOffset(fields, n - 1, size);
      assert n * size == (n - 1) * size + size;
    }
  }

  // ----- version 2 configuration -----------------------------------------------------------

  /** CFG-1 and CFG-2 up to the channel names. */
  ghost predicate LeadsV2(d: Descriptor, body: seq<byte>)
    requires d.metadata.MetadataV2?
  {
    && Says(body, 0, 4, d.timeBase) && Says(body, 4, 2, 1) && Holds(body, 6, d.metadata.station)
    && Says(body, 22, 2, d.pmuId) && Says(body, 24, 2, 1)
    && Says(body, 26, 2, 6) && Says(body, 28, 2, 0) && Says(body, 30, 2, 0)
  }

  /** Six names of sixteen bytes, six units of four, nominal frequency, change count and rate. */
  ghost predicate FollowsV2(d: Descriptor, body: seq<byte>)
    requires d.metadata.MetadataV2?
  {
    && |body| == 158
    && |d.metadata.channels| == 6 && (forall k :: 0 <= k < 6 ==> Holds(body, 32 + 16 * k, d.metadata.channels[k]))
    && |d.metadata.phunits| == 6 && (forall k :: 0 <= k < 6 ==> Says(body, 128 + 4 * k, 4, d.metadata.phunits[k]))
    && Says(body, 152, 2, if d.nominalFrequency == 50 then 1 else 0)
    && Says(body, 154, 2, 0) && Says(body, 156, 2, d.rate)
  }

  lemma LeadingV2(d: Descriptor)
    requires ValidDescriptor(d) && d.metadata.MetadataV2?
    ensures |Concat(LeadingFieldsV2(d))| == 32 && LeadsV2(d, Concat(LeadingFieldsV2(d)))
  {
    hide Printable, IsPhunit, PutU16, PutU32, Holds, Says, Number, Concat;
    var fields := LeadingFieldsV2(d);
    ConcatLength(fields);
    assert Offset(fields, 1) == 4 && Offset(fields, 2) == 6;
    assert Offset(fields, 3) == 22 && Offset(fields, 4) == 24;
    assert Offset(fields, 5) == 26 && Offset(fields, 6) == 28;
    assert Offset(fields, 7) == 30 && Offset(fields, 8) == 32;
    FieldHolds(fields, 0, 0);
    FieldHolds(fields, 1, 4);
    FieldHolds(fields, 2, 6);
    FieldHolds(fields, 3, 22);
    FieldHolds(fields, 4, 24);
    FieldHolds(fields, 5, 26);
    FieldHolds(fields, 6, 28);
    FieldHolds(fields, 7, 30);
    hide Offset;
    var body := Concat(fields);
    SaysU32(body, 0, d.timeBase);
    SaysU16(body, 4, 1);
    SaysU16(body, 22, d.pmuId);
    SaysU16(body, 24, 1);
    SaysU16(body, 26, 6);
    SaysU16(body, 28, 0);
    SaysU16(body, 30, 0);
  }

  lemma TrailingV2(d: Descriptor)
    requires ValidDescriptor(d)
    ensures var body := Concat(TrailingFieldsV2(d));
            && |body| == 6 && Holds(body, 0, PutU16(if d.nominalFrequency == 50 then 1 else 0))
            && Holds(body, 2, PutU16(0)) && Holds(body, 4, PutU16(d.rate))
  {
    hide ValidDescriptor, PutU16, Holds, Concat;
    var fields := TrailingFieldsV2(d);
    ConcatLength(fields);
    EvenOffset(fields, 1, 2);
    EvenOffset(fields, 2, 2);
    EvenOffset(fields, 3, 2);
    FieldHolds(fields, 0, 0);
    FieldHolds(fields, 1, 2);
    FieldHolds(fields, 2, 4);
  }

  lemma ChannelsV2(d: Descriptor, k: nat)
    requires ValidDescriptor(d) && d.metadata.MetadataV2? && k < 6
    ensures |Concat(d.metadata.channels)| == 96 && Holds(Concat(d.metadata.channels), 16 * k, d.metadata.channels[k])
  {
    hide Printable, IsPhunit, Holds, Concat, Offset;
    ConcatLength(d.metadata.channels);
    EvenOffset(d.metadata.channels, 6, 16);
    EvenOffset(d.metadata.channels, k, 16);
    FieldHolds(d.metadata.channels, k, 16 * k);
  }

  lemma UnitsV2(d: Descriptor, k: nat)
    requires ValidDescriptor(d) && d.metadata.MetadataV2? && k < 6
    ensures var fields := PhunitFields(d.metadata.phunits);
            |Concat(fields)| == 24 && Holds(Concat(fields), 4 * k, PutU32(d.metadata.phunits[k]))
            && d.metadata.phunits[k] <= U32_MAX
  {
    hide Printable, Holds, Concat, Offset, PutU32;
    var fields := PhunitFields(d.metadata.phunits);
    ConcatLength(fields);
    EvenOffset(fields, 6, 4);
    EvenOffset(fields, k, 4);
    FieldHolds(fields, k, 4 * k);
    assert IsPhunit(d.metadata.phunits[k]);
  }

  lemma SaysLeft(x: seq<byte>, y: seq<byte>, at: nat, n: nat, value: nat)
    requires Says(x, at, n, value)
    ensures Says(x + y, at, n, value)
  {
    assert (x + y)[at..at + n] == x[at..at + n];
  }

  /** The whole body of CFG-1 and CFG-2, byte by byte: 158 bytes. */
  lemma ConfigurationLayoutV2(d: Descriptor)
    requires ValidDescriptor(d) && d.metadata.MetadataV2?
    ensures LeadsV2(d, BodyV2(d)) && FollowsV2(d, BodyV2(d))
  {
    hide ValidDescriptor, Holds, Says, Concat, Offset, PutU16, PutU32, LeadingFieldsV2, TrailingFieldsV2, PhunitFields;
    LeadingV2(d);
    var head, names := Concat(LeadingFieldsV2(d)), Concat(d.metadata.channels);
    var units, tail := Concat(PhunitFields(d.metadata.phunits)), Concat(TrailingFieldsV2(d));
    HasSix(d);
    ChannelsV2(d, 0);
    UnitsV2(d, 0);
    TrailingV2(d);
    var body := BodyV2(d);
    assert body == head + (names + units + tail);
    assert body == (head + names) + (units + tail);
    assert body == (head + names + units) + tail;
    LeadsFurther(d, head, names + units + tail);
    forall k | 0 <= k < 6
      ensures Holds(body, 32 + 16 * k, d.metadata.channels[k])
      ensures Says(body, 128 + 4 * k, 4, d.metadata.phunits[k])
    {
      ChannelsV2(d, k);
      HoldsRight(head, names, 16 * k, d.metadata.channels[k]);
      HoldsLeft(head + names, units + tail, 32 + 16 * k, d.metadata.channels[k]);
      UnitsV2(d, k);
      HoldsRight(head + names, units, 4 * k, PutU32(d.metadata.phunits[k]));
      HoldsLeft(head + names + units, tail, 128 + 4 * k, PutU32(d.metadata.phunits[k]));
      SaysU32(body, 128 + 4 * k, d.metadata.phunits[k]);
    }
    TailV2(d, head + names + units, tail);
  }

  lemma HasSix(d: Descriptor)
    requires ValidDescriptor(d) && d.metadata.MetadataV2?
    ensures |d.metadata.channels| == 6 && |d.metadata.phunits| == 6 && d.rate <= U16_MAX
  {
  }

  lemma LeadsFurther(d: Descriptor, head: seq<byte>, rest: seq<byte>)
    requires d.metadata.MetadataV2? && LeadsV2(d, head)
    ensures LeadsV2(d, head + rest)
  {
    hide Holds, Says;
    SaysLeft(head, rest, 0, 4, d.timeBase);
    SaysLeft(head, rest, 4, 2, 1);
    HoldsLeft(head, rest, 6, d.metadata.station);
    SaysLeft(head, rest, 22, 2, d.pmuId);
    SaysLeft(head, rest, 24, 2, 1);
    SaysLeft(head, rest, 26, 2, 6);
    SaysLeft(head, rest, 28, 2, 0);
    SaysLeft(head, rest, 30, 2, 0);
  }

  lemma TailV2(d: Descriptor, front: seq<byte>, tail: seq<byte>)
    requires |front| == 152 && d.rate <= U16_MAX && |tail| == 6
    requires Holds(tail, 0, PutU16(if d.nominalFrequency == 50 then 1 else 0))
    requires Holds(tail, 2, PutU16(0)) && Holds(tail, 4, PutU16(d.rate))
    ensures var body := front + tail;
            && Says(body, 152, 2, if d.nominalFrequency == 50 then 1 else 0)
            && Says(body, 154, 2, 0) && Says(body, 156, 2, d.rate)
  {
    hide Holds, Says, PutU16;
    var code := if d.nominalFrequency == 50 then 1 else 0;
    HoldsRight(front, tail, 0, PutU16(code));
    HoldsRight(front, tail, 2, PutU16(0));
    HoldsRight(front, tail, 4, PutU16(d.rate));
    SaysU16(front + tail, 152, code);
    SaysU16(front + tail, 154, 0);
    SaysU16(front + tail, 156, d.rate);
  }

  // ----- version 3 configuration -----------------------------------------------------------

  /** Where the PMU id stands behind the two names of variable length. */
  function BehindNames(d: Descriptor): nat
    requires d.metadata.MetadataV3?
  {
    8 + |d.metadata.pdc| + |d.metadata.pmu|
  }

  /** Capability and stream configuration up to the channel names. */
  ghost predicate LeadsV3(d: Descriptor, body: seq<byte>)
    requires d.metadata.MetadataV3?
  {
    var o := BehindNames(d);
    && Says(body, 0, 2, 0) && Says(body, 2, 4, d.timeBase) && Holds(body, 6, d.metadata.pdc)
    && Says(body, 6 + |d.metadata.pdc|, 2, 1) && Holds(body, 8 + |d.metadata.pdc|, d.metadata.pmu)
    && Says(body, o, 2, d.pmuId) && Says(body, o + 2, 2, 3) && Holds(body, o + 4, d.metadata.globalId)
    && Says(body, o + 20, 2, 1) && Says(body, o + 22, 2, 6) && Says(body, o + 24, 2, 0)
    && Says(body, o + 26, 2, 1) && Says(body, o + 28, 2, 1) && Says(body, o + 30, 2, 0)
  }

  /** The scaling of one phasor: its phase and whether it is a current, its factor, and the class. */
  ghost predicate Scaled(m: Metadata, body: seq<byte>, at: nat, k: nat)
    requires m.MetadataV3? && k < 6
  {
    && Holds(body, at, [0, 0, [4, 5, 6, 12, 13, 14][k], 0])
    && Holds(body, at + 4, if k < 3 then m.voltageScale else m.currentScale)
    && Holds(body, at + 8, [0, 0, 0, 0]) && Holds(body, at + 12, m.voltageClass)
  }

  /** The last 142 bytes: phasor scaling, frequency and ROCOF scaling, limits, flags, position and rates. */
  ghost predicate EndsV3(d: Descriptor, tail: seq<byte>)
    requires d.metadata.MetadataV3?
  {
    && |tail| == 142
    && (forall k :: 0 <= k < 6 ==> Scaled(d.metadata, tail, 16 * k, k))
    && Holds(tail, 96, [0x3A, 0x83, 0x12, 0x6F, 0, 0, 0, 0, 0x3C, 0x23, 0xD7, 0x0A, 0, 0, 0, 0])
    && Holds(tail, 112, [0x7F, 0x80, 0, 0, 0x7F, 0x80, 0, 0, 0x7F, 0x80, 0, 0])
    && Says(tail, 124, 2, if d.nominalFrequency == 50 then 0xA000 else 0x8000)
    && Holds(tail, 126, [0xFF, 0xFF, 0xFF, 0xFF, 0xFF, 0xFF, 0xFF, 0xFF])
    && Says(tail, 134, 2, d.rate) && Says(tail, 136, 2, 0) && Says(tail, 138, 2, d.rate) && Says(tail, 140, 2, 0)
  }

  lemma LeadingOffsetsV3(d: Descriptor)
    requires d.metadata.MetadataV3? && |d.metadata.globalId| == 16
    ensures var o := BehindNames(d);
            var fields := LeadingFieldsV3(d);
            && |fields| == 14
            && Offset(fields, 0) == 0 && Offset(fields, 1) == 2 && Offset(fields, 2) == 6
            && Offset(fields, 3) == 6 + |d.metadata.pdc| && Offset(fields, 4) == 8 + |d.metadata.pdc|
            && Offset(fields, 5) == o && Offset(fields, 6) == o + 2 && Offset(fields, 7) == o + 4
            && Offset(fields, 8) == o + 20 && Offset(fields, 9) == o + 22 && Offset(fields, 10) == o + 24
            && Offset(fields, 11) == o + 26 && Offset(fields, 12) == o + 28 && Offset(fields, 13) == o + 30
            && Offset(fields, 14) == o + 32
  {
    hide PutU16, PutU32;
    var fields := LeadingFieldsV3(d);
    assert Offset(fields, 2) == 6;
    assert Offset(fields, 5) == BehindNames(d);
    assert Offset(fields, 8) == BehindNames(d) + 20;
    assert Offset(fields, 11) == BehindNames(d) + 26;
  }

  lemma LeadingV3(d: Descriptor)
    requires ValidDescriptor(d) && d.metadata.MetadataV3?
    ensures var head := Concat(LeadingFieldsV3(d)); |head| == BehindNames(d) + 32 && LeadsV3(d, head)
  {
    hide Utf8, PutU16, PutU32, Holds, Says, Number, Concat, Offset;
    var fields, o := LeadingFieldsV3(d), BehindNames(d);
    var p := |d.metadata.pdc|;
    LeadingOffsetsV3(d);
    ConcatLength(fields);
    FieldHolds(fields, 0, 0);
    FieldHolds(fields, 1, 2);
    FieldHolds(fields, 2, 6);
    FieldHolds(fields, 3, 6 + p);
    FieldHolds(fields, 4, 8 + p);
    FieldHolds(fields, 5, o);
    FieldHolds(fields, 6, o + 2);
    FieldHolds(fields, 7, o + 4);
    FieldHolds(fields, 8, o + 20);
    FieldHolds(fields, 9, o + 22);
    FieldHolds(fields, 10, o + 24);
    FieldHolds(fields, 11, o + 26);
    FieldHolds(fields, 12, o + 28);
    FieldHolds(fields, 13, o + 30);
    var body := Concat(fields);
    SaysU16(body, 0, 0);
    SaysU32(body, 2, d.timeBase);
    SaysU16(body, 6 + p, 1);
    SaysU16(body, o, d.pmuId);
    SaysU16(body, o + 2, 3);
    SaysU16(body, o + 20, 1);
    SaysU16(body, o + 22, 6);
    SaysU16(body, o + 24, 0);
    SaysU16(body, o + 26, 1);
    SaysU16(body, o + 28, 1);
    SaysU16(body, o + 30, 0);
  }

  lemma LeadsFurtherV3(d: Descriptor, head: seq<byte>, rest: seq<byte>)
    requires d.metadata.MetadataV3? && LeadsV3(d, head)
    ensures LeadsV3(d, head + rest)
  {
    hide Holds, Says;
    var p, o := |d.metadata.pdc|, BehindNames(d);
    SaysLeft(head, rest, 0, 2, 0);
    SaysLeft(head, rest, 2, 4, d.timeBase);
    HoldsLeft(head, rest, 6, d.metadata.pdc);
    SaysLeft(head, rest, 6 + p, 2, 1);
    HoldsLeft(head, rest, 8 + p, d.metadata.pmu);
    SaysLeft(head, rest, o, 2, d.pmuId);
    SaysLeft(head, rest, o + 2, 2, 3);
    HoldsLeft(head, rest, o + 4, d.metadata.globalId);
    SaysLeft(head, rest, o + 20, 2, 1);
    SaysLeft(head, rest, o + 22, 2, 6);
    SaysLeft(head, rest, o + 24, 2, 0);
    SaysLeft(head, rest, o + 26, 2, 1);
    SaysLeft(head, rest, o + 28, 2, 1);
    SaysLeft(head, rest, o + 30, 2, 0);
  }

  lemma ScaleHolds(m: Metadata, k: nat)
    requires m.MetadataV3? && k < 6
    ensures |ChannelScale(m, k)| == 16 && Scaled(m, ChannelScale(m, k), 0, k)
  {
    var s := ChannelScale(m, k);
    assert s[..4] == [0, 0, PhaseType(k), 0];
    assert s[4..8] == if k < 3 then m.voltageScale else m.currentScale;
    assert s[8..12] == ZERO && s[12..16] == m.voltageClass;
  }

  lemma ScaledPart(m: Metadata, body: seq<byte>, at: nat, k: nat, field: seq<byte>)
    requires m.MetadataV3? && k < 6 && Holds(body, at, field) && Scaled(m, field, 0, k)
    ensures Scaled(m, body, at, k)
  {
    hide Holds;
    HoldsPart(body, at, field, 0, [0, 0, [4, 5, 6, 12, 13, 14][k], 0]);
    HoldsPart(body, at, field, 4, if k < 3 then m.voltageScale else m.currentScale);
    HoldsPart(body, at, field, 8, [0, 0, 0, 0]);
    HoldsPart(body, at, field, 12, m.voltageClass);
  }

  lemma {:induction false} ScalesHold(m: Metadata, n: nat, k: nat)
    requires m.MetadataV3? && k < n <= 6
    ensures Scaled(m, ChannelScales(m, n), 16 * k, k)
  {
    hide Scaled, ChannelScale, Holds;
    ScaleHolds(m, k);
    if k < n - 1 {
      ScalesHold(m, n - 1, k);
      ScaledLeft(m, ChannelScales(m, n - 1), ChannelScale(m, n - 1), 16 * k, k);
    } else {
      assert Holds(ChannelScale(m, k), 0, ChannelScale(m, k)) by {
        HoldsItself(ChannelScale(m, k));
      }
      HoldsRight(ChannelScales(m, k), ChannelScale(m, k), 0, ChannelScale(m, k));
      ScaledPart(m, ChannelScales(m, n), 16 * k, k, ChannelScale(m, k));
    }
  }

  lemma HoldsItself(s: seq<byte>)
    ensures Holds(s, 0, s)
  {
  }

  lemma ScaledLeft(m: Metadata, x: seq<byte>, y: seq<byte>, at: nat, k: nat)
    requires m.MetadataV3? && k < 6 && Scaled(m, x, at, k)
    ensures Scaled(m, x + y, at, k)
  {
    hide Holds;
    HoldsLeft(x, y, at, [0, 0, [4, 5, 6, 12, 13, 14][k], 0]);
    HoldsLeft(x, y, at + 4, if k < 3 then m.voltageScale else m.currentScale);
    HoldsLeft(x, y, at + 8, [0, 0, 0, 0]);
    HoldsLeft(x, y, at + 12, m.voltageClass);
  }

  lemma TrailingOffsetsV3(d: Descriptor)
    requires d.metadata.MetadataV3?
    ensures var fields := TrailingFieldsV3(d);
            && |fields| == 9 && Offset(fields, 0) == 0 && Offset(fields, 1) == 96 && Offset(fields, 2) == 112
            && Offset(fields, 3) == 124 && Offset(fields, 4) == 126 && Offset(fields, 5) == 134
            && Offset(fields, 6) == 136 && Offset(fields, 7) == 138 && Offset(fields, 8) == 140
            && Offset(fields, 9) == 142
  {
    hide PutU16, PutU32, ChannelScales;
    var fields := TrailingFieldsV3(d);
    assert Offset(fields, 2) == 112;
    assert Offset(fields, 5) == 134;
    assert Offset(fields, 7) == 138;
  }

  lemma AllOnesWord()
    ensures PutU32(U32_MAX) + PutU32(U32_MAX) == [0xFF, 0xFF, 0xFF, 0xFF, 0xFF, 0xFF, 0xFF, 0xFF]
  {
    assert PutU16(0xFFFF) == [0xFF, 0xFF] && PutU24(0xFF_FFFF) == [0xFF, 0xFF, 0xFF];
  }

  lemma TrailingV3(d: Descriptor)
    requires ValidDescriptor(d) && d.metadata.MetadataV3?
    ensures EndsV3(d, Concat(TrailingFieldsV3(d)))
  {
    hide ValidDescriptor, PutU16, PutU32, Holds, Says, Number, Concat, Offset, ChannelScales, Scaled;
    var fields := TrailingFieldsV3(d);
    RateFits(d);
    TrailingOffsetsV3(d);
    ConcatLength(fields);
    FieldHolds(fields, 0, 0);
    FieldHolds(fields, 1, 96);
    FieldHolds(fields, 2, 112);
    FieldHolds(fields, 3, 124);
    FieldHolds(fields, 4, 126);
    FieldHolds(fields, 5, 134);
    FieldHolds(fields, 6, 136);
    FieldHolds(fields, 7, 138);
    FieldHolds(fields, 8, 140);
    AllOnesWord();
    assert fields[1] == [0x3A, 0x83, 0x12, 0x6F, 0, 0, 0, 0, 0x3C, 0x23, 0xD7, 0x0A, 0, 0, 0, 0];
    assert fields[2] == [0x7F, 0x80, 0, 0, 0x7F, 0x80, 0, 0, 0x7F, 0x80, 0, 0];
    var body := Concat(fields);
    SaysU16(body, 124, PmuFlag(d.nominalFrequency));
    SaysU16(body, 134, d.rate);
    SaysU16(body, 136, 0);
    SaysU16(body, 138, d.rate);
    SaysU16(body, 140, 0);
    forall k | 0 <= k < 6
      ensures Scaled(d.metadata, body, 16 * k, k)
    {
      ScalesHold(d.metadata, 6, k);
      ScaledWithin(d.metadata, body, ChannelScales(d.metadata, 6), 16 * k, k);
    }
  }

  lemma ScaledWithin(m: Metadata, body: seq<byte>, field: seq<byte>, at: nat, k: nat)
    requires m.MetadataV3? && k < 6 && Holds(body, 0, field) && Scaled(m, field, at, k)
    ensures Scaled(m, body, at, k)
  {
    hide Holds;
    HoldsPart(body, 0, field, at, [0, 0, [4, 5, 6, 12, 13, 14][k], 0]);
    HoldsPart(body, 0, field, at + 4, if k < 3 then m.voltageScale else m.currentScale);
    HoldsPart(body, 0, field, at + 8, [0, 0, 0, 0]);
    HoldsPart(body, 0, field, at + 12, m.voltageClass);
  }

  lemma RateFits(d: Descriptor)
    requires ValidDescriptor(d)
    ensures d.rate <= U16_MAX
  {
  }

  /**
    * The whole body of a capability or stream configuration: the leading fields, the channel names
    * one behind the other, and the last 142 bytes.
    */
  lemma ConfigurationLayoutV3(d: Descriptor)
    requires ValidDescriptor(d) && d.metadata.MetadataV3?
    ensures var body, names := BodyV3(d), d.metadata.channels;
            var end := BehindNames(d) + 32 + Offset(names, |names|);
            && LeadsV3(d, body) && |body| == end + 142 && EndsV3(d, body[end..])
            && forall k :: 0 <= k < |names| ==> Holds(body, BehindNames(d) + 32 + Offset(names, k), names[k])
  {
    hide ValidDescriptor, Holds, Says, Concat, Offset, LeadingFieldsV3, TrailingFieldsV3, LeadsV3, EndsV3;
    LeadingV3(d);
    TrailingV3(d);
    var names := d.metadata.channels;
    ConcatLength(names);
    var head, middle, tail := Concat(LeadingFieldsV3(d)), Concat(names), Concat(TrailingFieldsV3(d));
    var body := BodyV3(d);
    assert body == head + (middle + tail);
    LeadsFurtherV3(d, head, middle + tail);
    assert body == (head + middle) + tail;
    TailOf(head + middle, tail);
    assert |tail| == 142 by {
      EndsLength(d, tail);
    }
    forall k | 0 <= k < |names|
      ensures Holds(body, BehindNames(d) + 32 + Offset(names, k), names[k])
    {
      FieldHolds(names, k, Offset(names, k));
      HoldsRight(head, middle, Offset(names, k), names[k]);
      HoldsLeft(head + middle, tail, BehindNames(d) + 32 + Offset(names, k), names[k]);
    }
  }

  lemma TailOf(x: seq<byte>, y: seq<byte>)
    ensures (x + y)[|x|..] == y
  {
  }

  lemma EndsLength(d: Descriptor, tail: seq<byte>)
    requires d.metadata.MetadataV3? && EndsV3(d, tail)
    ensures |tail| == 142
  {
  }

  // ----- periodic data ---------------------------------------------------------------------

  lemma {:induction false} WordAt(s: seq<nat>, k: nat)
    requires k < |s|
    ensures Holds(Words(s), 2 * k, PutU16(s[k]))
  {
    hide PutU16;
    var n := |s| - 1;
    if k < n {
      WordAt(s[..n], k);
      HoldsLeft(Words(s[..n]), PutU16(s[n]), 2 * k, PutU16(s[k]));
    } else {
      assert Words(s) == Words(s[..n]) + PutU16(s[n]);
    }
  }

  /**
    * The periodic data frame byte by byte. STAT comes first and, in version 3, a time quality word
    * that says unknown; then the fourteen signal words in their order, magnitude and angle of each
    * phasor before frequency and rate of change.
    */
  lemma DataLayout(d: Descriptor, degraded: bool, signals: Signals, ts: Timestamp)
    requires d.streamId <= U16_MAX && ValidTime(ts)
    ensures var f := DataFrame(d, degraded, signals, ts);
            match d.metadata
            case MetadataV2(_, _, _, good) =>
              && |f| == 46 && f[1] == 0x02 && Says(f, 14, 2, if good && !degraded then 0 else 0x21C0)
              && SignalsFrom(f, 16, signals)
            case MetadataV3(_, _, _, _, _, _, _) =>
              && |f| == 48 && f[1] == 0x83 && Says(f, 14, 2, 0x2000) && Says(f, 16, 2, 0x7FFF)
              && SignalsFrom(f, 18, signals)
    ensures var f := DataFrame(d, degraded, signals, ts);
            Says(f, 4, 2, d.streamId) && Says(f, 6, 4, ts.soc) && Says(f, 11, 3, ts.fracsec)
  {
    hide DataFrame, Says, WordsFrom, SignalsFrom;
    DataEnvelope(d, degraded, signals, ts);
    var words := DataWords(d.metadata, degraded, signals);
    var f := DataFrame(d, degraded, signals, ts);
    if d.metadata.MetadataV2? {
      FirstWords(f, words, [Stat(d.metadata, degraded)], signals);
      LeadingWords(f, [Stat(d.metadata, degraded)]);
    } else {
      FirstWords(f, words, [Stat(d.metadata, degraded), TIME_QUALITY_UNKNOWN], signals);
      LeadingWords(f, [Stat(d.metadata, degraded), TIME_QUALITY_UNKNOWN]);
    }
  }

  lemma DataEnvelope(d: Descriptor, degraded: bool, signals: Signals, ts: Timestamp)
    requires d.streamId <= U16_MAX && ValidTime(ts)
    ensures var f := DataFrame(d, degraded, signals, ts);
            && f[1] == (if d.metadata.MetadataV2? then 0x02 else 0x83)
            && Says(f, 4, 2, d.streamId) && Says(f, 6, 4, ts.soc) && Says(f, 11, 3, ts.fracsec)
            && WordsFrom(f, DataWords(d.metadata, degraded, signals))
  {
    hide Words, Number, EncodeFrame, WordsFrom, DataWords;
    var words := DataWords(d.metadata, degraded, signals);
    var f := DataFrame(d, degraded, signals, ts);
    WordsAreSmall(d.metadata, degraded, signals);
    FrameLayout(VersionOf(d), DataType(VersionOf(d)), d.streamId, ts, Words(words));
    AllWords(f, Words(words), words);
  }

  lemma WordsAreSmall(m: Metadata, degraded: bool, signals: Signals)
    ensures var words := DataWords(m, degraded, signals);
            |words| <= 16 && forall k :: 0 <= k < |words| ==> words[k] <= U16_MAX
  {
  }

  lemma LeadingWords(f: seq<byte>, lead: seq<nat>)
    requires forall k :: 0 <= k < |lead| ==> Says(f, 14 + 2 * k, 2, lead[k])
    ensures |lead| > 0 ==> Says(f, 14, 2, lead[0])
    ensures |lead| > 1 ==> Says(f, 16, 2, lead[1])
  {
    hide Says;
    assert |lead| > 0 ==> Says(f, 14 + 2 * 0, 2, lead[0]);
    assert |lead| > 1 ==> Says(f, 14 + 2 * 1, 2, lead[1]);
  }

  ghost predicate SignalsFrom(f: seq<byte>, at: nat, signals: Signals) {
    forall k :: 0 <= k < 14 ==> Says(f, at + 2 * k, 2, signals[k])
  }

  ghost predicate WordsFrom(f: seq<byte>, words: seq<nat>) {
    forall k :: 0 <= k < |words| ==> Says(f, 14 + 2 * k, 2, words[k])
  }

  lemma AllWords(f: seq<byte>, body: seq<byte>, words: seq<nat>)
    requires |f| >= 16 && f[14..|f| - 2] == body && Words(words) == body
    requires forall k :: 0 <= k < |words| ==> words[k] <= U16_MAX
    ensures WordsFrom(f, words)
  {
    hide Words, Says;
    forall k | 0 <= k < |words|
      ensures Says(f, 14 + 2 * k, 2, words[k])
    {
      WordInFrame(f, body, words, k, 2 * k);
    }
  }

  lemma FirstWords(f: seq<byte>, words: seq<nat>, lead: seq<nat>, signals: Signals)
    requires WordsFrom(f, words) && words == lead + signals
    ensures SignalsFrom(f, 14 + 2 * |lead|, signals)
    ensures forall k :: 0 <= k < |lead| ==> Says(f, 14 + 2 * k, 2, lead[k])
  {
    hide Says;
    forall k | 0 <= k < 14
      ensures Says(f, 14 + 2 * |lead| + 2 * k, 2, signals[k])
    {
      assert words[|lead| + k] == signals[k];
      assert Says(f, 14 + 2 * (|lead| + k), 2, words[|lead| + k]);
    }
    forall k | 0 <= k < |lead|
      ensures Says(f, 14 + 2 * k, 2, lead[k])
    {
      assert words[k] == lead[k];
    }
  }

  lemma WordInFrame(f: seq<byte>, body: seq<byte>, words: seq<nat>, k: nat, at: nat)
    requires |f| >= 16 && f[14..|f| - 2] == body && Words(words) == body
    requires k < |words| && words[k] <= U16_MAX && at == 2 * k
    ensures Says(f, 14 + at, 2, words[k])
  {
    hide Words, Says, Holds, PutU16;
    WordAt(words, k);
    InFrame(f, body, at, words[k]);
  }

  lemma InFrame(f: seq<byte>, body: seq<byte>, at: nat, value: nat)
    requires |f| >= 16 && f[14..|f| - 2] == body && Holds(body, at, PutU16(value)) && value <= U16_MAX
    ensures Says(f, 14 + at, 2, value)
  {
    hide Says, Holds, PutU16;
    BodyStands(f, body);
    HoldsPart(f, 14, body, at, PutU16(value));
    SaysU16(f, 14 + at, value);
  }

  lemma BodyStands(f: seq<byte>, body: seq<byte>)
    requires |f| >= 16 && f[14..|f| - 2] == body
    ensures Holds(f, 14, body)
  {
  }
}

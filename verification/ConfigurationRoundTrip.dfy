/** The probes' decoders accept every configuration the encoders build, to the last byte. */
module ConfigurationRoundTrip {
  import opened Bytes
  import opened Frames
  import opened Configuration
  import opened Decoders

  // ----- fields in place -------------------------------------------------------------------

  predicate At(body: seq<byte>, at: nat, s: seq<byte>) {
    at + |s| <= |body| && body[at..at + |s|] == s
  }

  /** The fields stand one behind the other from offset `at`. */
  predicate Placed(body: seq<byte>, at: nat, fields: seq<seq<byte>>) {
    forall i :: 0 <= i < |fields| ==> At(body, at + Offset(fields, i), fields[i])
  }

  lemma ConcatPlaced(before: seq<byte>, fields: seq<seq<byte>>, after: seq<byte>)
    ensures Placed(before + Concat(fields) + after, |before|, fields)
    ensures |Concat(fields)| == Offset(fields, |fields|)
  {
    hide Concat, Offset;
    ConcatLength(fields);
    forall i | 0 <= i < |fields|
      ensures At(before + Concat(fields) + after, |before| + Offset(fields, i), fields[i])
    {
      FieldAt(fields, i);
      InnerAt(before, Concat(fields), after, Offset(fields, i), fields[i]);
    }
  }

  lemma InnerAt(before: seq<byte>, middle: seq<byte>, after: seq<byte>, at: nat, s: seq<byte>)
    requires At(middle, at, s)
    ensures At(before + middle + after, |before| + at, s)
  {
  }

  /** What stands at field `i`. */
  lemma FieldPlaced(body: seq<byte>, at: nat, fields: seq<seq<byte>>, i: nat)
    requires Placed(body, at, fields) && i < |fields|
    ensures At(body, at + Offset(fields, i), fields[i]) && Offset(fields, i + 1) == Offset(fields, i) + |fields[i]|
  {
  }

  lemma U16At(body: seq<byte>, at: nat, n: nat)
    requires At(body, at, PutU16(n)) && n <= U16_MAX
    ensures TakeU16(body, at) == Some((n, at + 2))
  {
    U16RoundTrip(n);
    assert body[at..at + 2] == PutU16(n);
  }

  lemma U32At(body: seq<byte>, at: nat, n: nat)
    requires At(body, at, PutU32(n)) && n <= U32_MAX
    ensures TakeU32(body, at) == Some((n, at + 4))
  {
    U32RoundTrip(n);
    assert body[at..at + 4] == PutU32(n);
  }

  lemma BytesAt(body: seq<byte>, at: nat, s: seq<byte>)
    requires At(body, at, s)
    ensures TakeBytes(body, at, |s|) == Some((s, at + |s|))
  {
  }

  lemma NameAt(body: seq<byte>, at: nat, n: seq<byte>)
    requires At(body, at, n) && IsEncodedName(n)
    ensures TakeName(body, at) == Some((n[1..], at + |n|))
  {
    hide Utf8;
    assert body[at..at + |n|][0] == n[0];
    assert body[at..at + 1] == [n[0]];
    assert body[at + 1..at + |n|] == body[at..at + |n|][1..] == n[1..];
  }

  lemma {:induction false} NamesAt(body: seq<byte>, at: nat, names: seq<seq<byte>>, i: nat)
    requires i <= |names| && Placed(body, at, names) && forall k :: 0 <= k < |names| ==> IsEncodedName(names[k])
    ensures TakeNames(body, at + Offset(names, i), |names| - i) == Some(at + Offset(names, |names|))
    decreases |names| - i
  {
    hide TakeName, IsEncodedName, Offset, Placed, At;
    if i < |names| {
      FieldPlaced(body, at, names, i);
      NameAt(body, at + Offset(names, i), names[i]);
      NamesAt(body, at, names, i + 1);
    }
  }

  lemma {:induction false} FixedNamesAt(body: seq<byte>, at: nat, names: seq<seq<byte>>, i: nat)
    requires i <= |names| && Placed(body, at, names) && forall k :: 0 <= k < |names| ==> IsFixedName(names[k])
    ensures TakeFixedNames(body, at + Offset(names, i), |names| - i) == Some(at + Offset(names, |names|))
    decreases |names| - i
  {
    hide TakeBytes, Printable, Offset, Placed, At;
    if i < |names| {
      FieldPlaced(body, at, names, i);
      BytesAt(body, at + Offset(names, i), names[i]);
      FixedNamesAt(body, at, names, i + 1);
    }
  }

  lemma {:induction false} PhunitsAt(body: seq<byte>, at: nat, units: seq<nat>, i: nat)
    requires i <= |units| && Placed(body, at, PhunitFields(units)) && forall k :: 0 <= k < |units| ==>
                                                                                    IsPhunit(units[k])
    ensures var fields := PhunitFields(units);
            TakePhunits(body, at + Offset(fields, i), |units| - i) == Some(at + Offset(fields, |units|))
    decreases |units| - i
  {
    hide TakeU32, PutU32, Offset, Placed, At;
    var fields := PhunitFields(units);
    if i < |units| {
      FieldPlaced(body, at, fields, i);
      assert fields[i] == PutU32(units[i]);
      U32At(body, at + Offset(fields, i), units[i]);
      PhunitsAt(body, at, units, i + 1);
    }
  }

  // ----- version 3 -------------------------------------------------------------------------

  lemma LeadingDecodesV3(body: seq<byte>, d: Descriptor)
    requires ValidDescriptor(d) && d.metadata.MetadataV3? && Placed(body, 0, LeadingFieldsV3(d))
    ensures LeadingV3(body, d.rate) == Some((d.timeBase, d.pmuId, Offset(LeadingFieldsV3(d), 14)))
  {
    hide TakeU16, TakeU32, TakeName, PutU16, PutU32, Placed, Offset, CountsV3, At, IsEncodedName;
    var fields := LeadingFieldsV3(d);
    OffsetZero(fields);
    FieldPlaced(body, 0, fields, 0);
    U16At(body, Offset(fields, 0), 0);
    FieldPlaced(body, 0, fields, 1);
    U32At(body, Offset(fields, 1), d.timeBase);
    FieldPlaced(body, 0, fields, 2);
    NameAt(body, Offset(fields, 2), d.metadata.pdc);
    FieldPlaced(body, 0, fields, 3);
    U16At(body, Offset(fields, 3), 1);
    FieldPlaced(body, 0, fields, 4);
    NameAt(body, Offset(fields, 4), d.metadata.pmu);
    FieldPlaced(body, 0, fields, 5);
    U16At(body, Offset(fields, 5), d.pmuId);
    CountsDecodeV3(body, d);
  }

  lemma OffsetZero(fields: seq<seq<byte>>)
    ensures Offset(fields, 0) == 0
  {
  }

  lemma CountsDecodeV3(body: seq<byte>, d: Descriptor)
    requires ValidDescriptor(d) && d.metadata.MetadataV3? && Placed(body, 0, LeadingFieldsV3(d))
    ensures CountsV3(body, Offset(LeadingFieldsV3(d), 6)) == Some(Offset(LeadingFieldsV3(d), 14))
  {
    hide TakeU16, TakeBytes, PutU16, PutU32, Placed, Offset, At;
    var fields := LeadingFieldsV3(d);
    FieldPlaced(body, 0, fields, 6);
    U16At(body, Offset(fields, 6), 3);
    FieldPlaced(body, 0, fields, 7);
    BytesAt(body, Offset(fields, 7), d.metadata.globalId);
    FieldPlaced(body, 0, fields, 8);
    U16At(body, Offset(fields, 8), 1);
    FieldPlaced(body, 0, fields, 9);
    U16At(body, Offset(fields, 9), 6);
    FieldPlaced(body, 0, fields, 10);
    U16At(body, Offset(fields, 10), 0);
    FieldPlaced(body, 0, fields, 11);
    U16At(body, Offset(fields, 11), 1);
    FieldPlaced(body, 0, fields, 12);
    U16At(body, Offset(fields, 12), 1);
    FieldPlaced(body, 0, fields, 13);
    U16At(body, Offset(fields, 13), 0);
  }

  lemma ScalesDecodeV3(body: seq<byte>, at: nat, d: Descriptor)
    requires ValidDescriptor(d) && d.metadata.MetadataV3? && Placed(body, at, TrailingFieldsV3(d))
    ensures ScalesV3(body, at) == Some(at + Offset(TrailingFieldsV3(d), 5))
  {
    hide TakeU16, TakeBytes, PutU16, PutU32, Placed, Offset, At, ChannelScales;
    var fields := TrailingFieldsV3(d);
    OffsetZero(fields);
    FieldPlaced(body, at, fields, 0);
    BytesAt(body, at + Offset(fields, 0), fields[0]);
    FieldPlaced(body, at, fields, 1);
    BytesAt(body, at + Offset(fields, 1), fields[1]);
    FieldPlaced(body, at, fields, 2);
    BytesAt(body, at + Offset(fields, 2), fields[2]);
    FieldPlaced(body, at, fields, 3);
    U16At(body, at + Offset(fields, 3), PmuFlag(d.nominalFrequency));
    FieldPlaced(body, at, fields, 4);
    BytesAt(body, at + Offset(fields, 4), fields[4]);
  }

  lemma TrailingDecodesV3(body: seq<byte>, at: nat, d: Descriptor)
    requires ValidDescriptor(d) && d.metadata.MetadataV3? && Placed(body, at, TrailingFieldsV3(d))
    ensures TrailingRates(body, at) == Some((d.rate, d.rate, at + Offset(TrailingFieldsV3(d), 9)))
  {
    hide TakeU16, PutU16, PutU32, Placed, Offset, At, ChannelScales, ScalesV3, IsEncodedName;
    var fields := TrailingFieldsV3(d);
    ScalesDecodeV3(body, at, d);
    FieldPlaced(body, at, fields, 5);
    U16At(body, at + Offset(fields, 5), d.rate);
    FieldPlaced(body, at, fields, 6);
    U16At(body, at + Offset(fields, 6), 0);
    FieldPlaced(body, at, fields, 7);
    U16At(body, at + Offset(fields, 7), d.rate);
    FieldPlaced(body, at, fields, 8);
    U16At(body, at + Offset(fields, 8), 0);
  }

  lemma BodyDecodesV3(d: Descriptor)
    requires ValidDescriptor(d) && d.metadata.MetadataV3?
    ensures DecodeConfigurationV3(BodyV3(d), d.rate) == Some(Summary(d.timeBase, d.pmuId, d.rate))
  {
    hide Concat, LeadingV3, TakeNames, TrailingRates, Placed, Offset, LeadingFieldsV3, TrailingFieldsV3, IsEncodedName;
    var head, names, tail := LeadingFieldsV3(d), d.metadata.channels, TrailingFieldsV3(d);
    var body := BodyV3(d);
    var a, b := Concat(head), Concat(names);
    ConcatPlaced([], head, b + Concat(tail));
    assert [] + a + (b + Concat(tail)) == body;
    ConcatPlaced(a, names, Concat(tail));
    ConcatPlaced(a + b, tail, []);
    assert (a + b) + Concat(tail) + [] == body;
    FieldCounts(d);
    LeadingDecodesV3(body, d);
    OffsetZero(names);
    NamesAt(body, |a|, names, 0);
    TrailingDecodesV3(body, |a + b|, d);
  }

  lemma FieldCounts(d: Descriptor)
    ensures d.metadata.MetadataV3? ==> |LeadingFieldsV3(d)| == 14 && |TrailingFieldsV3(d)| == 9
    ensures d.metadata.MetadataV2? ==> |LeadingFieldsV2(d)| == 8
    ensures |TrailingFieldsV2(d)| == 3
  {
  }

  // ----- version 2 -------------------------------------------------------------------------

  lemma LeadingDecodesV2(body: seq<byte>, d: Descriptor)
    requires ValidDescriptor(d) && d.metadata.MetadataV2? && Placed(body, 0, LeadingFieldsV2(d))
    ensures LeadingV2(body, d.rate) == Some((d.timeBase, d.pmuId, Offset(LeadingFieldsV2(d), 8)))
  {
    hide TakeU16, TakeU32, TakeBytes, PutU16, PutU32, Placed, Offset, At, Printable;
    var fields := LeadingFieldsV2(d);
    OffsetZero(fields);
    FieldPlaced(body, 0, fields, 0);
    U32At(body, Offset(fields, 0), d.timeBase);
    FieldPlaced(body, 0, fields, 1);
    U16At(body, Offset(fields, 1), 1);
    FieldPlaced(body, 0, fields, 2);
    BytesAt(body, Offset(fields, 2), d.metadata.station);
    FieldPlaced(body, 0, fields, 3);
    U16At(body, Offset(fields, 3), d.pmuId);
    FieldPlaced(body, 0, fields, 4);
    U16At(body, Offset(fields, 4), 1);
    FieldPlaced(body, 0, fields, 5);
    U16At(body, Offset(fields, 5), 6);
    FieldPlaced(body, 0, fields, 6);
    U16At(body, Offset(fields, 6), 0);
    FieldPlaced(body, 0, fields, 7);
    U16At(body, Offset(fields, 7), 0);
  }

  lemma TrailingDecodesV2(body: seq<byte>, at: nat, d: Descriptor)
    requires ValidDescriptor(d) && Placed(body, at, TrailingFieldsV2(d))
    ensures TrailingRate(body, at) == Some((d.rate, at + Offset(TrailingFieldsV2(d), 3)))
  {
    hide TakeU16, PutU16, Placed, Offset, At;
    var fields := TrailingFieldsV2(d);
    OffsetZero(fields);
    FieldPlaced(body, at, fields, 0);
    U16At(body, at + Offset(fields, 0), if d.nominalFrequency == 50 then 1 else 0);
    FieldPlaced(body, at, fields, 1);
    U16At(body, at + Offset(fields, 1), 0);
    FieldPlaced(body, at, fields, 2);
    U16At(body, at + Offset(fields, 2), d.rate);
  }

  lemma BodyDecodesV2(d: Descriptor)
    requires ValidDescriptor(d) && d.metadata.MetadataV2?
    ensures DecodeConfigurationV2(BodyV2(d), d.rate) == Some(Summary(d.timeBase, d.pmuId, d.rate))
  {
    hide Concat, LeadingV2, TakeFixedNames, TakePhunits, TrailingRate, Placed, Offset, LeadingFieldsV2,
      TrailingFieldsV2, IsFixedName, IsPhunit;
    var head, names, units, tail := LeadingFieldsV2(d), d.metadata.channels, PhunitFields(d.metadata.phunits),
                                    TrailingFieldsV2(d);
    var body := BodyV2(d);
    var a, b, c := Concat(head), Concat(names), Concat(units);
    ConcatPlaced([], head, b + c + Concat(tail));
    assert [] + a + (b + c + Concat(tail)) == body;
    ConcatPlaced(a, names, c + Concat(tail));
    assert a + b + (c + Concat(tail)) == body;
    ConcatPlaced(a + b, units, Concat(tail));
    ConcatPlaced(a + b + c, tail, []);
    assert (a + b + c) + Concat(tail) + [] == body;
    FieldCounts(d);
    LeadingDecodesV2(body, d);
    OffsetZero(names);
    FixedNamesAt(body, |a|, names, 0);
    OffsetZero(units);
    PhunitsAt(body, |a + b|, d.metadata.phunits, 0);
    TrailingDecodesV2(body, |a + b + c|, d);
  }

  // ----- whole frames ----------------------------------------------------------------------

  function SummaryOf(d: Descriptor): Summary { Summary(d.timeBase, d.pmuId, d.rate) }

  /**
    * Configuration round trip: for every valid descriptor the version's probe decodes the frame,
    * recovers time base, PMU id and rate, and consumes the body to its last byte.
    */
  lemma ConfigurationDecodes(d: Descriptor, frameType: nat, ts: Timestamp)
    requires ValidDescriptor(d) && frameType < 16 && (VersionOf(d).V2? ==> frameType < 8) && ValidTime(ts)
    ensures var f := DecodeFrame(VersionOf(d), ConfigurationFrame(d, frameType, ts));
            && f.Some? && f.value.frameType == frameType && f.value.id == d.streamId && f.value.time == ts
            && DecodeConfiguration(VersionOf(d), f.value.body, d.rate) == Some(SummaryOf(d))
  {
    hide EncodeFrame, DecodeFrame, DecodeConfigurationV2, DecodeConfigurationV3, BodyV2, BodyV3;
    EncodedFrameDecodes(VersionOf(d), frameType, d.streamId, ts, ConfigurationBody(d));
    if d.metadata.MetadataV2? {
      BodyDecodesV2(d);
    } else {
      BodyDecodesV3(d);
    }
  }

  lemma HeaderDecodes(d: Descriptor, ts: Timestamp)
    requires ValidDescriptor(d) && d.metadata.MetadataV2? && ValidTime(ts)
    ensures var f := DecodeFrame(V2, Configuration.HeaderFrame(d, ts));
            f.Some? && f.value.frameType == V2_HEADER && f.value.id == d.streamId && HeaderAccepted(f.value.body)
  {
    hide EncodeFrame, DecodeFrame;
    EncodedFrameDecodes(V2, V2_HEADER, d.streamId, ts, d.metadata.station);
  }

  /** A data frame decodes, and its shape is the one the probe of its version wants. */
  lemma DataDecodes(d: Descriptor, degraded: bool, signals: Signals, ts: Timestamp)
    requires ValidDescriptor(d) && ValidTime(ts)
    ensures var v := VersionOf(d);
            var f := DecodeFrame(v, Configuration.DataFrame(d, degraded, signals, ts));
            && f.Some? && f.value.frameType == DataType(v) && f.value.id == d.streamId && f.value.time == ts
            && DataShape(v, f.value)
  {
    hide EncodeFrame, DecodeFrame, Words;
    var words := DataWords(d.metadata, degraded, signals);
    EncodedFrameDecodes(VersionOf(d), DataType(VersionOf(d)), d.streamId, ts, Words(words));
    FirstWord(words);
  }

  lemma {:induction false} FirstWord(s: seq<nat>)
    requires s != [] && s[0] <= U16_MAX
    ensures U16(Words(s)[0], Words(s)[1]) == s[0]
  {
    if |s| == 1 {
      U16RoundTrip(s[0]);
      assert Words(s) == Words([]) + PutU16(s[0]);
    } else {
      FirstWord(s[..|s| - 1]);
    }
  }
}

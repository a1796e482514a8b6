/** The profile compiler: which profiles it accepts, and that accepted ones yield valid descriptors. */
module Profile {
  import opened Bytes
  import opened Frames
  import opened Configuration
  import Decoders
  import ConfigurationRoundTrip
  import Recipe

  type u16 = n: nat | n <= U16_MAX

  type GlobalId = s: seq<byte> | |s| == 16 witness seq(16, _ => 0)

  datatype Limits = Limits(
    maxLogicalPmus: nat, maxClientsPerEndpoint: nat, maxCommandFrameBytes: nat, receiveBufferBytes: nat,
    sendBufferBytes: nat)

  /** The signal recipe, and the words that three of its numbers are encoded as. */
  datatype Signals = Signals(recipe: Recipe.Recipe, voltageScale: Word, currentScale: Word, voltageClass: Word)

  datatype Fleet = Fleet(
    count: nat,
    firstPort: u16,
    firstStreamId: u16,
    firstPmuId: u16,
    pdcName: seq<byte>,
    pmuNamePrefix: seq<byte>,
    protocolVersion: byte,
    goodStatPmuIds: seq<u16>,
    rate: u16,
    timeBase: nat,
    nominalFrequency: u16,
    signals: Signals)

  /** Names are text, so their bytes are UTF-8. */
  predicate Typed(f: Fleet) { Utf8(f.pdcName) && Utf8(f.pmuNamePrefix) }

  datatype Endpoint = Endpoint(port: nat, descriptor: Descriptor)

  const MAX_LOGICAL_PMUS := 150

  // ----- what is accepted ------------------------------------------------------------------

  predicate LimitsOk(l: Limits) {
    && 1 <= l.maxLogicalPmus <= MAX_LOGICAL_PMUS && l.maxClientsPerEndpoint == 2
    && COMMAND_FRAME_BYTES <= l.maxCommandFrameBytes <= MAX_COMMAND_FRAME_BYTES
    && 1 <= l.receiveBufferBytes <= MAX_COMMAND_FRAME_BYTES && 1 <= l.sendBufferBytes <= MAX_COMMAND_FRAME_BYTES
  }

  /** A range of identifiers within 1 to 65534. */
  predicate RangeOk(first: nat, count: nat) { 1 <= first && first + count <= U16_MAX }

  predicate NoControls(s: seq<byte>) { forall i :: 0 <= i < |s| ==> !IsControl(s[i]) }

  predicate GoodStatOk(f: Fleet) {
    && (f.goodStatPmuIds != [] ==> f.protocolVersion == 2)
    && (forall i :: 0 <= i < |f.goodStatPmuIds| ==> f.firstPmuId <= f.goodStatPmuIds[i] < f.firstPmuId + f.count)
    && (forall i, j :: 0 <= i < j < |f.goodStatPmuIds| ==> f.goodStatPmuIds[i] != f.goodStatPmuIds[j])
  }

  /** A three-digit ordinal still fits behind the prefix. */
  predicate PrefixOk(f: Fleet) {
    if f.protocolVersion == 2 then |f.pmuNamePrefix| <= 13 && Printable(f.pmuNamePrefix)
    else |f.pmuNamePrefix| <= 252 && NoControls(f.pmuNamePrefix)
  }

  predicate UnitsOk(f: Fleet) {
    f.protocolVersion == 2 ==>
      Recipe.Units(f.signals.recipe.voltageScale).Some? && Recipe.Units(f.signals.recipe.currentScale).Some?
  }

  /** The profiles that compile. */
  predicate Accepts(l: Limits, f: Fleet) {
    && LimitsOk(l) && 1 <= f.count <= l.maxLogicalPmus
    && (f.protocolVersion == 2 || f.protocolVersion == 3)
    && f.rate == 50 && 1 <= f.timeBase < 0x100_0000 && f.timeBase % 50 == 0
    && (f.nominalFrequency == 50 || f.nominalFrequency == 60)
    && 1 <= |f.pdcName| <= 255 && NoControls(f.pdcName)
    && RangeOk(f.firstStreamId, f.count) && RangeOk(f.firstPmuId, f.count)
    && 1 <= f.firstPort && f.firstPort + f.count <= U16_MAX + 1
    && PrefixOk(f) && GoodStatOk(f) && UnitsOk(f) && Recipe.RecipeOk(f.signals.recipe)
  }

  // ----- names -----------------------------------------------------------------------------

  /** `{:03}`. */
  function Ordinal(n: nat): (s: seq<byte>)
    requires n < 1000
    ensures |s| == 3 && forall i :: 0 <= i < 3 ==> 0x30 <= s[i] <= 0x39
  {
    [0x30 + n / 100, 0x30 + n / 10 % 10, 0x30 + n % 10]
  }

  function PmuName(f: Fleet, index: nat): seq<byte>
    requires index < 999
  {
    f.pmuNamePrefix + Ordinal(index + 1)
  }

  /** VL1, VL2, VL3, IL1, IL2, IL3, and for version 3 FREQ and ROCOF. */
  function ChannelNames(count: nat): seq<seq<byte>>
    requires count <= 8
  {
    [[0x56, 0x4C, 0x31], [0x56, 0x4C, 0x32], [0x56, 0x4C, 0x33], [0x49, 0x4C, 0x31], [0x49, 0x4C, 0x32],
     [0x49, 0x4C, 0x33],
     [0x46, 0x52, 0x45, 0x51], [0x52, 0x4F, 0x43, 0x4F, 0x46]][..count]
  }

  predicate Ascii(s: seq<byte>) { forall i :: 0 <= i < |s| ==> 0x20 <= s[i] < 0x7F }

  lemma SequenceAppend(a: seq<byte>, b: seq<byte>)
    requires Utf8Sequence(a) > 0
    ensures Utf8Sequence(a + b) == Utf8Sequence(a)
  {
    var s := a + b;
    assert forall i :: 0 <= i < |a| ==> s[i] == a[i];
  }

  lemma {:induction false} AsciiIsUtf8(b: seq<byte>)
    requires Ascii(b)
    ensures Utf8(b)
  {
    if b != [] {
      AsciiIsUtf8(b[1..]);
    }
  }

  lemma {:induction false} Utf8Append(a: seq<byte>, b: seq<byte>)
    requires Utf8(a) && Ascii(b)
    ensures Utf8(a + b)
    decreases |a|
  {
    hide Utf8Sequence;
    if a == [] {
      assert a + b == b;
      AsciiIsUtf8(b);
    } else {
      var n := Utf8Sequence(a);
      SequenceAppend(a, b);
      Utf8Append(a[n..], b);
      assert (a + b)[n..] == a[n..] + b;
    }
  }

  lemma EncodedNameIff(value: seq<byte>)
    ensures EncodedName(value).Some? <==> 1 <= |value| <= 255 && NoControls(value)
    ensures EncodedName(value).Some? && Utf8(value) ==> IsEncodedName(EncodedName(value).value)
  {
    hide Utf8;
    if EncodedName(value).Some? {
      var n := EncodedName(value).value;
      assert n[1..] == value;
    }
  }

  lemma FixedAsciiIff(value: seq<byte>)
    ensures FixedAscii(value).Some? <==> 1 <= |value| <= V2_NAME_BYTES && Printable(value)
    ensures FixedAscii(value).Some? ==>
              var n := FixedAscii(value).value;
              IsFixedName(n) && value <= n && forall i :: |value| <= i < V2_NAME_BYTES ==> n[i] == 0x20
  {
  }

  lemma PmuNameProperties(f: Fleet, index: nat)
    requires Typed(f) && index < 999
    ensures Utf8(PmuName(f, index)) && |PmuName(f, index)| == |f.pmuNamePrefix| + 3
    ensures NoControls(PmuName(f, index)) <==> NoControls(f.pmuNamePrefix)
    ensures Printable(PmuName(f, index)) <==> Printable(f.pmuNamePrefix)
  {
    hide Utf8;
    var o := Ordinal(index + 1);
    Utf8Append(f.pmuNamePrefix, o);
    var n := PmuName(f, index);
    assert forall i :: 0 <= i < |f.pmuNamePrefix| ==> n[i] == f.pmuNamePrefix[i];
    assert forall i :: 0 <= i < 3 ==> n[|f.pmuNamePrefix| + i] == o[i];
  }

  // ----- the compiler ----------------------------------------------------------------------

  /** `final_identifier`: the last of a range, or an error. */
  function FinalIdentifier(first: nat, offset: nat): (r: Option<nat>)
    ensures r.Some? <==> RangeOk(first, offset + 1)
    ensures r.Some? ==> r.value == first + offset && 1 <= first && r.value < U16_MAX
  {
    if first + offset > U16_MAX then None
    else if first == 0 || first + offset == U16_MAX then None
    else Some(first + offset)
  }

  /** `validate_v2_good_stat_pmu_ids`, with its list of ids already seen. */
  method ValidateGoodStat(f: Fleet, finalPmuId: nat) returns (ok: bool)
    requires f.count >= 1 && finalPmuId == f.firstPmuId + f.count - 1
    ensures ok <==> GoodStatOk(f)
  {
    if f.goodStatPmuIds != [] && f.protocolVersion != 2 {
      return false;
    }
    var seen: seq<u16> := [];
    for n := 0 to |f.goodStatPmuIds|
      invariant seen == f.goodStatPmuIds[..n]
      invariant forall i :: 0 <= i < n ==> f.firstPmuId <= f.goodStatPmuIds[i] <= finalPmuId
      invariant forall i, j :: 0 <= i < j < n ==> f.goodStatPmuIds[i] != f.goodStatPmuIds[j]
    {
      var id := f.goodStatPmuIds[n];
      if !(f.firstPmuId <= id <= finalPmuId) {
        return false;
      }
      if id in seen {
        return false;
      }
      seen := seen + [id];
    }
    ok := true;
  }

  /** What `validate_fleet` decides beyond the limits. */
  predicate FleetOk(l: Limits, f: Fleet) {
    && 1 <= f.count <= l.maxLogicalPmus
    && (f.protocolVersion == 2 || f.protocolVersion == 3)
    && f.rate == 50 && 1 <= f.timeBase < 0x100_0000 && f.timeBase % 50 == 0
    && (f.nominalFrequency == 50 || f.nominalFrequency == 60)
    && 1 <= |f.pdcName| <= 255 && NoControls(f.pdcName)
    && |f.pmuNamePrefix| <= 252 && NoControls(f.pmuNamePrefix)
    && RangeOk(f.firstStreamId, f.count) && RangeOk(f.firstPmuId, f.count)
    && GoodStatOk(f) && Recipe.RecipeOk(f.signals.recipe)
  }

  method ValidateFleet(l: Limits, f: Fleet) returns (ok: bool)
    requires Typed(f) && l.maxLogicalPmus <= MAX_LOGICAL_PMUS
    ensures ok <==> FleetOk(l, f)
  {
    hide EncodedName, FinalIdentifier, GoodStatOk, NoControls, Recipe.RecipeOk;
    if !(1 <= f.count <= l.maxLogicalPmus) || (f.protocolVersion != 2 && f.protocolVersion != 3) || f.rate != 50 {
      return false;
    }
    if !(1 <= f.timeBase <= 0xFF_FFFF) || f.timeBase % f.rate != 0
       || (f.nominalFrequency != 50 && f.nominalFrequency != 60) {
      return false;
    }
    EncodedNameIff(f.pdcName);
    EncodedNameIff(PmuName(f, f.count - 1));
    PmuNameProperties(f, f.count - 1);
    if EncodedName(f.pdcName).None? || EncodedName(PmuName(f, f.count - 1)).None? {
      return false;
    }
    if FinalIdentifier(f.firstStreamId, f.count - 1).None? || FinalIdentifier(f.firstPmuId, f.count - 1).None? {
      return false;
    }
    var good := ValidateGoodStat(f, f.firstPmuId + f.count - 1);
    ok := good && Recipe.RecipeOk(f.signals.recipe);
  }

  /** What a compiled endpoint is: a valid descriptor with the identifiers and name of its index. */
  predicate Compiled(f: Fleet, i: nat, e: Endpoint)
    requires i < 999
  {
    var d := e.descriptor;
    && e.port == f.firstPort + i && ValidDescriptor(d)
    && d.streamId == f.firstStreamId + i && d.pmuId == f.firstPmuId + i
    && d.timeBase == f.timeBase && d.rate == f.rate && d.nominalFrequency == f.nominalFrequency
    && match d.metadata
       case MetadataV2(station, _, _, good) =>
         f.protocolVersion == 2 && PmuName(f, i) <= station && (good <==> f.firstPmuId + i in f.goodStatPmuIds)
       case MetadataV3(pdc, pmu, _, _, _, _, _) =>
         f.protocolVersion == 3 && pdc == [|f.pdcName|] + f.pdcName && pmu == [|f.pmuNamePrefix| + 3] + PmuName(f, i)
  }

  /** A name filled up with spaces, and a name behind its length. */
  function Padded(name: seq<byte>): seq<byte>
    requires |name| <= 16
  {
    name + seq(16 - |name|, _ => 0x20)
  }

  function Counted(name: seq<byte>): seq<byte>
    requires |name| <= 255
  {
    [|name|] + name
  }

  /** The standard names in their order, in the encoding of a version. */
  ghost predicate AreStandard(version: WireVersion, names: seq<seq<byte>>) {
    var plain := ChannelNames(if version.V2? then 6 else 8);
    && |names| == |plain|
    && forall i :: 0 <= i < |plain| ==>
                     |plain[i]| <= 16 && names[i] == if version.V2? then Padded(plain[i]) else Counted(plain[i])
  }

  /**
    * The metadata in full: the name of the endpoint's index, the standard channels, and three
    * voltages before three currents in the scales; the global id and the scaling words unchanged.
    */
  ghost predicate Described(f: Fleet, i: nat, m: Metadata, id: GlobalId)
    requires i < 999
  {
    var name := PmuName(f, i);
    match m
    case MetadataV2(station, channels, phunits, good) =>
      var voltage, current := Recipe.Units(f.signals.recipe.voltageScale), Recipe.Units(f.signals.recipe.currentScale);
      && f.protocolVersion == 2 && |name| <= 16 && station == Padded(name) && AreStandard(V2, channels)
      && voltage.Some? && current.Some?
      && phunits == [voltage.value, voltage.value, voltage.value, 0x100_0000 + current.value,
                     0x100_0000 + current.value, 0x100_0000 + current.value]
      && (good <==> f.firstPmuId + i in f.goodStatPmuIds)
    case MetadataV3(pdc, pmu, channels, globalId, voltageScale, currentScale, voltageClass) =>
      && f.protocolVersion == 3 && |name| <= 255 && |f.pdcName| <= 255
      && pdc == Counted(f.pdcName) && pmu == Counted(name) && AreStandard(V3, channels)
      && globalId == id && voltageScale == f.signals.voltageScale && currentScale == f.signals.currentScale
      && voltageClass == f.signals.voltageClass
  }

  method StandardNames(version: WireVersion) returns (names: seq<seq<byte>>)
    ensures AreStandard(version, names)
    ensures version.V2? ==> |names| == 6 && forall i :: 0 <= i < |names| ==> IsFixedName(names[i])
    ensures version.V3? ==> |names| == 8 && forall i :: 0 <= i < |names| ==> IsEncodedName(names[i])
  {
    hide IsEncodedName, IsFixedName, EncodedName, FixedAscii, Padded, Counted, ChannelNames, Ascii;
    var count := if version.V2? then 6 else 8;
    var plain := ChannelNames(count);
    PlainNames(count);
    names := [];
    for n := 0 to count
      invariant |names| == n
      invariant forall i :: 0 <= i < n ==> if version.V2? then IsFixedName(names[i]) else IsEncodedName(names[i])
      invariant forall i :: 0 <= i < n ==>
                              |plain[i]| <= 16
                              && names[i] == if version.V2? then Padded(plain[i]) else Counted(plain[i])
    {
      var name := plain[n];
      ShortNameOk(name);
      names := names + [if version.V2? then FixedAscii(name).value else EncodedName(name).value];
    }
  }

  lemma PlainNames(count: nat)
    requires count <= 8
    ensures var plain := ChannelNames(count);
            |plain| == count && forall i :: 0 <= i < count ==> 1 <= |plain[i]| <= 5 && Ascii(plain[i])
  {
  }

  lemma ShortNameOk(name: seq<byte>)
    requires Ascii(name) && 1 <= |name| <= 5
    ensures EncodedName(name).Some? && IsEncodedName(EncodedName(name).value)
    ensures FixedAscii(name).Some? && IsFixedName(FixedAscii(name).value)
    ensures EncodedName(name).value == Counted(name) && FixedAscii(name).value == Padded(name)
  {
    AsciiIsUtf8(name);
    EncodedNameIff(name);
    FixedAsciiIff(name);
  }

  /** The metadata of one endpoint, or an error from its name. */
  method CompileMetadata(f: Fleet, index: nat, names: seq<seq<byte>>, pdc: seq<byte>,
                         id: GlobalId) returns (m: Option<Metadata>)
    requires Typed(f) && index < MAX_LOGICAL_PMUS && UnitsOk(f) && (f.protocolVersion == 2 || f.protocolVersion == 3)
    requires |f.pmuNamePrefix| <= 252 && NoControls(f.pmuNamePrefix)
    requires AreStandard(if f.protocolVersion == 2 then V2 else V3, names)
    requires |f.pdcName| <= 255 && pdc == Counted(f.pdcName)
    ensures m.Some? <==> PrefixOk(f)
    ensures m.Some? ==> Described(f, index, m.value, id)
    ensures m.Some? && f.protocolVersion == 2 ==>
              && m.value.MetadataV2? && IsFixedName(m.value.station) && PmuName(f, index) <= m.value.station
              && m.value.channels == names
              && |m.value.phunits| == 6 && (forall i :: 0 <= i < 6 ==> IsPhunit(m.value.phunits[i]))
              && (m.value.goodStat <==> f.firstPmuId + index in f.goodStatPmuIds)
    ensures m.Some? && f.protocolVersion == 3 ==>
              && m.value.MetadataV3? && IsEncodedName(m.value.pmu)
              && m.value.pmu == [|f.pmuNamePrefix| + 3] + PmuName(f, index)
              && m.value.pdc == pdc && m.value.channels == names && |m.value.globalId| == 16
  {
    hide Utf8, Printable, NoControls, Recipe.Units, AreStandard;
    var name := PmuName(f, index);
    PmuNameProperties(f, index);
    if f.protocolVersion == 2 {
      FixedAsciiIff(name);
      var station := FixedAscii(name);
      if station.None? {
        return None;
      }
      var voltage := Recipe.Units(f.signals.recipe.voltageScale).value;
      var current := 0x100_0000 + Recipe.Units(f.signals.recipe.currentScale).value;
      var good := f.firstPmuId + index in f.goodStatPmuIds;
      m := Some(MetadataV2(station.value, names, [voltage, voltage, voltage, current, current, current], good));
    } else {
      EncodedNameIff(name);
      var encoded := EncodedName(name);
      m := Some(MetadataV3(pdc, encoded.value, names, id, f.signals.voltageScale, f.signals.currentScale,
                           f.signals.voltageClass));
    }
  }

  /**
    * `compile_profile`: it succeeds exactly on the accepted profiles, and every endpoint it then
    * pushes has a valid descriptor with exactly the described metadata.
    */
  method Compile(l: Limits, f: Fleet, globalId: nat -> GlobalId) returns (r: Option<seq<Endpoint>>)
    requires Typed(f)
    ensures r.Some? <==> Accepts(l, f)
    ensures r.Some? ==> |r.value| == f.count && f.count <= MAX_LOGICAL_PMUS
                        && forall i :: 0 <= i < f.count ==>
                                         && Compiled(f, i, r.value[i])
                                         && Described(f, i, r.value[i].descriptor.metadata, globalId(i))
  {
    hide Utf8, Printable, NoControls, GoodStatOk, IsFixedName, IsEncodedName, IsPhunit, PmuName, Recipe.RecipeOk,
      Recipe.Units, AreStandard, Described;
    if !LimitsOk(l) {
      return None;
    }
    var ok := ValidateFleet(l, f);
    AcceptsImpliesFleet(l, f);
    if !ok {
      return None;
    }
    if f.firstPort + (f.count - 1) > U16_MAX || f.firstPort == 0 {
      return None;
    }
    EncodedNameIff(f.pdcName);
    var pdc := EncodedName(f.pdcName).value;
    var names := StandardNames(if f.protocolVersion == 2 then V2 else V3);
    if !UnitsOk(f) {
      return None;
    }
    var endpoints: seq<Endpoint> := [];
    for index := 0 to f.count
      invariant |endpoints| == index && (index > 0 ==> PrefixOk(f))
      invariant forall i :: 0 <= i < index ==> Compiled(f, i, endpoints[i])
      invariant forall i :: 0 <= i < index ==> Described(f, i, endpoints[i].descriptor.metadata, globalId(i))
    {
      var metadata := CompileMetadata(f, index, names, pdc, globalId(index));
      if metadata.None? {
        return None;
      }
      var d := Descriptor(f.firstStreamId + index, f.firstPmuId + index, f.timeBase, f.rate, f.nominalFrequency,
                          metadata.value);
      endpoints := endpoints + [Endpoint(f.firstPort + index, d)];
    }
    r := Some(endpoints);
  }

  lemma AcceptsImpliesFleet(l: Limits, f: Fleet)
    ensures Accepts(l, f) ==> FleetOk(l, f)
  {
  }

  /**
    * For every accepted profile the probe decodes each endpoint's configuration frames and finds
    * the time base, the PMU id of the endpoint's index and the rate.
    */
  lemma AcceptedProfileDecodes(f: Fleet, i: nat, e: Endpoint, frameType: nat, ts: Timestamp)
    requires i < 999 && Compiled(f, i, e) && frameType < 16 && (f.protocolVersion == 2 ==> frameType < 8)
             && ValidTime(ts)
    ensures var v := VersionOf(e.descriptor);
            var frame := Decoders.DecodeFrame(v, ConfigurationFrame(e.descriptor, frameType, ts));
            && frame.Some? && frame.value.id == f.firstStreamId + i
            && Decoders.DecodeConfiguration(v, frame.value.body, f.rate)
               == Some(Decoders.Summary(f.timeBase, f.firstPmuId + i, f.rate))
  {
    hide Decoders.DecodeFrame, ConfigurationFrame, Decoders.DecodeConfiguration, ValidDescriptor, PmuName;
    ConfigurationRoundTrip.ConfigurationDecodes(e.descriptor, frameType, ts);
    RateIsPositive(e.descriptor);
  }

  lemma RateIsPositive(d: Descriptor)
    requires ValidDescriptor(d)
    ensures d.rate > 0
  {
  }
}

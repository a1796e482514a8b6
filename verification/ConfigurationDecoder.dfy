/** The probes' configuration decoders as they run: one offset that every field moves. */
module ConfigurationDecoder {
  import opened Bytes
  import opened Decoders
  import Configuration

  method ReadNames(body: seq<byte>, start: nat, count: nat) returns (r: Option<nat>)
    ensures r == TakeNames(body, start, count)
  {
    hide TakeName;
    var offset := start;
    for i := 0 to count
      invariant TakeNames(body, offset, count - i) == TakeNames(body, start, count)
    {
      var name := TakeName(body, offset);
      if name.None? {
        return None;
      }
      offset := name.value.1;
    }
    r := Some(offset);
  }

  method ReadFixedNames(body: seq<byte>, start: nat, count: nat) returns (r: Option<nat>)
    ensures r == TakeFixedNames(body, start, count)
  {
    hide TakeBytes, Configuration.Printable;
    var offset := start;
    for i := 0 to count
      invariant TakeFixedNames(body, offset, count - i) == TakeFixedNames(body, start, count)
    {
      var name := TakeBytes(body, offset, 16);
      if name.None? || !Configuration.Printable(name.value.0) {
        return None;
      }
      offset := name.value.1;
    }
    r := Some(offset);
  }

  method ReadPhunits(body: seq<byte>, start: nat, count: nat) returns (r: Option<nat>)
    ensures r == TakePhunits(body, start, count)
  {
    hide TakeU32;
    var offset := start;
    for i := 0 to count
      invariant TakePhunits(body, offset, count - i) == TakePhunits(body, start, count)
    {
      var unit := TakeU32(body, offset);
      if unit.None? || unit.value.0 / 0x100_0000 > 1 || unit.value.0 % 0x100_0000 == 0 {
        return None;
      }
      offset := unit.value.1;
    }
    r := Some(offset);
  }

  /** `decode_configuration` of the version 3 probe. */
  method ReadConfigurationV3(body: seq<byte>, rate: nat) returns (r: Option<Summary>)
    requires rate > 0
    ensures r == DecodeConfigurationV3(body, rate)
  {
    hide TakeNames, LeadingV3, TrailingV3;
    var leading := LeadingV3(body, rate);
    if leading.None? {
      return None;
    }
    var (timeBase, pmuId, offset) := leading.value;
    var names := ReadNames(body, offset, 8);
    if names.None? || !TrailingV3(body, names.value, rate) {
      return None;
    }
    r := Some(Summary(timeBase, pmuId, rate));
  }

  /** `decode_configuration` of the version 2 probe. */
  method ReadConfigurationV2(body: seq<byte>, rate: nat) returns (r: Option<Summary>)
    requires rate > 0
    ensures r == DecodeConfigurationV2(body, rate)
  {
    hide TakeFixedNames, TakePhunits, LeadingV2, TrailingV2;
    var leading := LeadingV2(body, rate);
    if leading.None? {
      return None;
    }
    var (timeBase, pmuId, offset) := leading.value;
    var names := ReadFixedNames(body, offset, 6);
    if names.None? {
      return None;
    }
    var units := ReadPhunits(body, names.value, 6);
    if units.None? || !TrailingV2(body, units.value, rate) {
      return None;
    }
    r := Some(Summary(timeBase, pmuId, rate));
  }
}

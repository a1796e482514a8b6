/** Frames written in place: the header fields, a moving offset over the words, and the checksum last. */
module FrameWriter {
  import opened Bytes
  import opened Frames
  import opened Configuration
  import Connections
  import Crc

  /** `copy_from_slice` at an offset: everything before and behind stays. */
  method Copy(output: array<byte>, at: nat, bytes: seq<byte>)
    requires at + |bytes| <= output.Length
    modifies output
    ensures output[..at + |bytes|] == old(output[..at]) + bytes
    ensures forall k :: at + |bytes| <= k < output.Length ==> output[k] == old(output[k])
  {
    for i := 0 to |bytes|
      invariant output[..at] == old(output[..at])
      invariant output[at..at + i] == bytes[..i]
      invariant forall k :: at + |bytes| <= k < output.Length ==> output[k] == old(output[k])
    {
      output[at + i] := bytes[i];
      assert output[at..at + i + 1] == output[at..at + i] + [bytes[i]];
    }
    assert output[..at + |bytes|] == output[..at] + output[at..at + |bytes|];
  }

  /** `write_common`: the fourteen header bytes; the size is that of the whole buffer. */
  method WriteCommon(output: array<byte>, kind: byte, id: nat, ts: Timestamp, quality: byte)
    requires output.Length >= MIN_FRAME_BYTES
    modifies output
    ensures output[..HEADER_BYTES] == Header(kind, output.Length, id, ts, quality)
    ensures forall k :: HEADER_BYTES <= k < output.Length ==> output[k] == old(output[k])
  {
    hide PutU16, PutU24, PutU32;
    Copy(output, 0, [SYNC_BYTE, kind]);
    assert output[..2] == [SYNC_BYTE, kind];
    Copy(output, 2, PutU16(output.Length));
    Copy(output, 4, PutU16(id));
    Copy(output, 6, PutU32(ts.soc));
    Copy(output, 10, [quality]);
    Copy(output, 11, PutU24(ts.fracsec));
  }

  /** The checksum of everything before it, in the last two bytes. */
  method WriteChecksum(output: array<byte>)
    requires output.Length >= 2
    modifies output
    ensures output[..] == Crc.Seal(old(output[..output.Length - 2]))
  {
    hide Crc.Checksum, Crc.High, Crc.LowHalf;
    var n := output.Length - 2;
    ghost var payload := output[..n];
    var checksum := Crc.Crc16Ccitt(output[..n]);
    Copy(output, n, [Crc.High(checksum), Crc.LowHalf(checksum)]);
    assert output[..] == output[..n + 2];
  }

  /** `encode_frame`: a zeroed buffer, the body, the header, the checksum. */
  method WriteFrame(v: WireVersion, frameType: nat, id: nat, ts: Timestamp,
                    body: seq<byte>) returns (frame: array<byte>)
    requires frameType < 16 && MIN_FRAME_BYTES + |body| <= U16_MAX
    ensures fresh(frame) && frame[..] == EncodeFrame(v, frameType, id, ts, body)
  {
    hide Header, Crc.Seal;
    var size := MIN_FRAME_BYTES + |body|;
    frame := new byte[size](_ => 0);
    Copy(frame, HEADER_BYTES, body);
    assert forall k :: 0 <= k < |body| ==>
                         frame[HEADER_BYTES + k] == frame[..HEADER_BYTES + |body|][HEADER_BYTES + k] == body[k];
    WriteCommon(frame, Kind(v, frameType), id, ts, MessageTimeQuality(v));
    assert frame[..size - 2] == frame[..HEADER_BYTES] + body;
    WriteChecksum(frame);
  }

  lemma WordsStep(words: seq<nat>, i: nat)
    requires i < |words|
    ensures Words(words[..i + 1]) == Words(words[..i]) + PutU16(words[i])
  {
    assert words[..i + 1][..i] == words[..i];
  }

  /** `encode_periodic_data_with_scenario_into`: rewrites the endpoint's shared buffer in place. */
  method WritePeriodicData(d: Descriptor, degraded: bool, signals: Signals, ts: Timestamp, output: array<byte>)
    requires output.Length == if d.metadata.MetadataV2? then 46 else 48
    modifies output
    ensures output[..] == DataFrame(d, degraded, signals, ts)
  {
    hide Header, Crc.Seal, Words, PutU16;
    var v := VersionOf(d);
    WriteCommon(output, Kind(v, DataType(v)), d.streamId, ts, MessageTimeQuality(v));
    var words := DataWords(d.metadata, degraded, signals);
    ghost var header := output[..HEADER_BYTES];
    var offset := HEADER_BYTES;
    NoWords();
    for i := 0 to |words|
      invariant offset == HEADER_BYTES + 2 * i && output[..offset] == header + Words(words[..i])
    {
      WordsStep(words, i);
      Copy(output, offset, PutU16(words[i]));
      offset := offset + 2;
    }
    assert words[..|words|] == words;
    WriteChecksum(output);
  }

  lemma NoWords()
    ensures Words([]) == []
  {
  }

  /** `encode_error_response_into` of version 3. */
  method WriteErrorResponse(id: nat, code: nat, ts: Timestamp, output: array<byte>)
    requires output.Length == ERROR_RESPONSE_FRAME_BYTES
    modifies output
    ensures output[..] == Connections.ErrorResponse(id, code, ts)
  {
    hide Header, Crc.Seal, PutU16;
    WriteCommon(output, Kind(V3, V3_ERROR_RESPONSE), id, ts, MessageTimeQuality(V3));
    ghost var header := output[..HEADER_BYTES];
    Copy(output, 14, PutU16(code));
    Copy(output, 16, PutU16(0));
    assert output[..18] == header + (PutU16(code) + PutU16(0));
    WriteChecksum(output);
  }

  /** Appending fields one after the other. */
  method AppendAll(start: seq<byte>, fields: seq<seq<byte>>) returns (body: seq<byte>)
    ensures body == start + Concat(fields)
  {
    body := start;
    for i := 0 to |fields|
      invariant body == start + Concat(fields[..i])
    {
      assert fields[..i + 1][..i] == fields[..i];
      body := body + fields[i];
    }
    assert fields[..|fields|] == fields;
  }

  /** `encode_configuration` of either version, built by appending to the body. */
  method WriteConfiguration(d: Descriptor, frameType: nat, ts: Timestamp) returns (frame: array<byte>)
    requires ValidDescriptor(d) && frameType < 16
    ensures fresh(frame) && frame[..] == ConfigurationFrame(d, frameType, ts)
  {
    hide Concat, EncodeFrame, LeadingFieldsV2, LeadingFieldsV3, TrailingFieldsV2, TrailingFieldsV3;
    var body := [];
    if d.metadata.MetadataV2? {
      body := AppendAll(body, LeadingFieldsV2(d));
      body := AppendAll(body, d.metadata.channels);
      body := AppendAll(body, PhunitFields(d.metadata.phunits));
      body := AppendAll(body, TrailingFieldsV2(d));
    } else {
      body := AppendAll(body, LeadingFieldsV3(d));
      body := AppendAll(body, d.metadata.channels);
      body := AppendAll(body, TrailingFieldsV3(d));
    }
    assert body == ConfigurationBody(d);
    frame := WriteFrame(VersionOf(d), frameType, d.streamId, ts, body);
  }
}

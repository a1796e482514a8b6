/** The probe's client: one connection that performs the handshake and then checks every data frame. */
module Probe {
  import opened Bytes
  import opened Frames
  import opened Decoders
  import Connections

  datatype ClientState = Connecting | Sending(command: Command) | Awaiting(command: Command) | Streaming

  datatype Client = Client(
    version: WireVersion,
    id: nat,
    rate: nat,
    input: seq<byte>,
    output: seq<byte>,
    offset: nat,
    state: ClientState,
    configuration: Option<Summary>,
    last: Option<Timestamp>,
    dataFrames: nat)

  /** The rejecting branches. */
  datatype ProbeError =
    | PeerClosed | WriteError | BufferFull | BadSize | BadFrame | WrongIdentity | BadHeader | BadConfiguration
    | ConfigurationsDisagree | NoConfiguration | BadData | ErrorResponse | UnexpectedFrame | SentStop

  const MAX_FRAME_BYTES := 4096

  function NewClient(v: WireVersion, id: nat, rate: nat): Client {
    Client(v, id, rate, [], [], 0, Connecting, None, None, 0)
  }

  /** A held configuration has a positive rate that is at most its time base, so no division fails. */
  predicate Sane(c: Client) {
    c.rate > 0 && (c.configuration.Some? ==> 0 < c.configuration.value.rate <= c.configuration.value.timeBase)
  }

  // ----- writing ---------------------------------------------------------------------------

  function FirstCommand(v: WireVersion): Command { if v.V2? then Header2 else Capability }

  /** Commands carry the time zero. */
  function CommandBytes(v: WireVersion, id: nat, command: Command): seq<byte>
    requires CommandWord(v, command).Some?
  {
    EncodeCommand(v, id, command, Timestamp(0, 0))
  }

  function QueueCommand(c: Client, command: Command): Client
    requires CommandWord(c.version, command).Some?
  {
    c.(output := CommandBytes(c.version, c.id, command), offset := 0, state := Sending(command))
  }

  /** The client once its connection is established: the first command is queued. */
  function Connected(c: Client): Client {
    if c.state.Connecting? then QueueCommand(c, FirstCommand(c.version)) else c
  }

  /** The bytes offered to the socket. */
  function Outgoing(c: Client): seq<byte> {
    if c.state.Sending? && c.offset <= |c.output| then c.output[c.offset..] else []
  }

  datatype Written = Written(client: Client, bytes: seq<byte>)

  /** `write_ready` with the outcome of its single `write`. */
  function WriteReady(c: Client, outcome: Connections.WriteOutcome): Result<Written, ProbeError>
    requires outcome.Wrote? ==> outcome.count <= |Outgoing(Connected(c))|
  {
    var d := Connected(c);
    if !d.state.Sending? then Ok(Written(d, []))
    else match outcome
         case WriteBlocked => Ok(Written(d, []))
         case WriteFailed => Err(WriteError)
         case Wrote(count) =>
           if count == 0 then Err(PeerClosed)
           else
             var bytes := Outgoing(d)[..count];
             var e := d.(offset := d.offset + count);
             if e.offset < |e.output| then Ok(Written(e, bytes))
             else match d.state.command
                  case Stop => Err(SentStop)
                  case Start => Ok(Written(e.(state := Streaming), bytes))
                  case command => Ok(Written(e.(state := Awaiting(command)), bytes))
  }

  // ----- reading ---------------------------------------------------------------------------

  /** The decoded configuration is kept, and the next command queued. */
  function TakeFirstConfiguration(c: Client, f: DecodedFrame, next: Command): (r: Result<Client, ProbeError>)
    requires Sane(c) && CommandWord(c.version, next).Some?
    ensures r.Ok? ==> r.value.input == c.input && Sane(r.value) && r.value.version == c.version
  {
    match DecodeConfiguration(c.version, f.body, c.rate)
    case None => Err(BadConfiguration)
    case Some(s) => SummaryFits(c.version, f.body, c.rate); Ok(QueueCommand(c.(configuration := Some(s)), next))
  }

  function CheckSecondConfiguration(c: Client, f: DecodedFrame): (r: Result<Client, ProbeError>)
    requires Sane(c)
    ensures r.Ok? ==> r.value.input == c.input && Sane(r.value) && r.value.version == c.version
  {
    match DecodeConfiguration(c.version, f.body, c.rate)
    case None => Err(BadConfiguration)
    case Some(s) => if c.configuration != Some(s) then Err(ConfigurationsDisagree) else Ok(QueueCommand(c, Start))
  }

  lemma MultipleIsLarger(n: nat, d: nat)
    requires d > 0 && n > 0 && n % d == 0
    ensures d <= n
  {
  }

  lemma SummaryFits(v: WireVersion, body: seq<byte>, rate: nat)
    requires rate > 0 && DecodeConfiguration(v, body, rate).Some?
    ensures var s := DecodeConfiguration(v, body, rate).value; 0 < s.rate <= s.timeBase
  {
    hide TakeNames, TakeFixedNames, TakePhunits, TrailingV2, TrailingV3, CountsV3, TakeU16, TakeU32, TakeName,
      TakeBytes;
    var s := DecodeConfiguration(v, body, rate).value;
    assert TimeBaseFits(s.timeBase, rate);
    MultipleIsLarger(s.timeBase, rate);
  }

  /** `handle_frame`: only the frame the state waits for is accepted. */
  function HandleFrame(c: Client, f: DecodedFrame): (r: Result<Client, ProbeError>)
    requires Sane(c)
    ensures r.Ok? ==> r.value.input == c.input && Sane(r.value)
  {
    if c.state == Streaming && f.frameType == DataType(c.version) then
      if c.configuration.None? then Err(NoConfiguration)
      else if !DataAccepted(c.version, f, c.configuration.value, c.last) then Err(BadData)
      else Ok(c.(last := Some(f.time), dataFrames := c.dataFrames + 1))
    else if c.version.V2? then
      if c.state == Awaiting(Header2) && f.frameType == V2_HEADER then
        if HeaderAccepted(f.body) then Ok(QueueCommand(c, Configuration1)) else Err(BadHeader)
      else if c.state == Awaiting(Configuration1) && f.frameType == V2_CONFIGURATION_1 then
        TakeFirstConfiguration(c, f, Configuration2)
      else if c.state == Awaiting(Configuration2) && f.frameType == V2_CONFIGURATION_2 then
        CheckSecondConfiguration(c, f)
      else Err(UnexpectedFrame)
    else if c.state == Awaiting(Capability) && f.frameType == V3_CAPABILITY then
      TakeFirstConfiguration(c, f, StreamConfiguration)
    else if c.state == Awaiting(StreamConfiguration) && f.frameType == V3_STREAM_CONFIGURATION then
      CheckSecondConfiguration(c, f)
    else if f.frameType == V3_ERROR_RESPONSE then Err(ErrorResponse)
    else Err(UnexpectedFrame)
  }

  /** The one frame type that a state accepts. */
  function AwaitedType(v: WireVersion, state: ClientState): Option<nat> {
    match state
    case Streaming => Some(DataType(v))
    case Awaiting(Header2) => if v.V2? then Some(V2_HEADER) else None
    case Awaiting(Configuration1) => if v.V2? then Some(V2_CONFIGURATION_1) else None
    case Awaiting(Configuration2) => if v.V2? then Some(V2_CONFIGURATION_2) else None
    case Awaiting(Capability) => if v.V3? then Some(V3_CAPABILITY) else None
    case Awaiting(StreamConfiguration) => if v.V3? then Some(V3_STREAM_CONFIGURATION) else None
    case _ => None
  }

  /** What a frame of the awaited type must carry. */
  predicate ContentAccepted(c: Client, f: DecodedFrame)
    requires Sane(c)
  {
    var decoded := DecodeConfiguration(c.version, f.body, c.rate);
    match c.state
    case Streaming => c.configuration.Some? && DataAccepted(c.version, f, c.configuration.value, c.last)
    case Awaiting(Header2) => HeaderAccepted(f.body)
    case Awaiting(Configuration2) => decoded.Some? && c.configuration == decoded
    case Awaiting(StreamConfiguration) => decoded.Some? && c.configuration == decoded
    case _ => decoded.Some?
  }

  /** The command that follows each accepted reply. */
  function FollowingCommand(state: ClientState): Option<Command> {
    match state
    case Awaiting(Header2) => Some(Configuration1)
    case Awaiting(Configuration1) => Some(Configuration2)
    case Awaiting(Configuration2) => Some(Start)
    case Awaiting(Capability) => Some(StreamConfiguration)
    case Awaiting(StreamConfiguration) => Some(Start)
    case _ => None
  }

  /** The first configuration is kept; everything else leaves what is known alone. */
  function KnownConfiguration(c: Client, f: DecodedFrame): Option<Summary>
    requires Sane(c)
  {
    if c.state == Awaiting(Configuration1) || c.state == Awaiting(Capability)
    then DecodeConfiguration(c.version, f.body, c.rate) else c.configuration
  }

  /**
    * A frame is accepted exactly if its type is the one the state waits for and its content
    * passes. A data frame is counted and its time kept; a reply has the next command of the
    * handshake queued from its first byte, and the first configuration stored.
    */
  lemma AcceptedIff(c: Client, f: DecodedFrame)
    requires Sane(c)
    ensures HandleFrame(c, f).Ok? <==> AwaitedType(c.version, c.state) == Some(f.frameType) && ContentAccepted(c, f)
    ensures HandleFrame(c, f).Ok? ==>
              var d := HandleFrame(c, f).value;
              if c.state.Streaming? then d == c.(last := Some(f.time), dataFrames := c.dataFrames + 1)
              else
                var next := FollowingCommand(c.state);
                && next.Some? && CommandWord(c.version, next.value).Some?
                && d == QueueCommand(c.(configuration := KnownConfiguration(c, f)), next.value)
  {
    hide DecodeConfiguration, DataAccepted, HeaderAccepted, CommandBytes;
  }

  /** The declared sizes that the receive loop refuses. */
  predicate SizeRefused(v: WireVersion, size: nat) {
    size > MAX_FRAME_BYTES || (v.V2? && size < MIN_FRAME_BYTES)
  }

  /** The frame loop of `read_ready`, over what has been read. */
  function ProcessInput(c: Client): Result<Client, ProbeError>
    requires Sane(c)
    decreases |c.input|
  {
    if |c.input| < 4 then Ok(c)
    else
      var size := DeclaredSize(c.input);
      if SizeRefused(c.version, size) then Err(BadSize)
      else if |c.input| < size then Ok(c)
      else match DecodeFrame(c.version, c.input[..size])
           case None => Err(BadFrame)
           case Some(f) =>
             if f.id != c.id then Err(WrongIdentity)
             else match HandleFrame(c.(input := c.input[size..]), f)
                  case Err(e) => Err(e)
                  case Ok(d) => ProcessInput(d)
  }

  /** `read_ready` with everything that has arrived; a full buffer is an error even without more bytes. */
  function ReadReady(c: Client, arrived: seq<byte>): Result<Client, ProbeError>
    requires Sane(c)
  {
    if |c.input| + |arrived| >= MAX_FRAME_BYTES then Err(BufferFull)
    else ProcessInput(c.(input := c.input + arrived))
  }
}

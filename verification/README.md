# A verified model of the C37.118 simulator

This project models five connected parts of the simulator and proves what holds of every input, every run or every reachable state.

- **Wire codecs** (`Bytes`, `Crc`, `Polynomial`, `Frames`, `FrameWriter`, `Configuration`, `Layout`, `Recipe`, `Profile`): the version 2 and version 3 envelopes, CRC-CCITT, command, configuration and data frames, and the profile compiler that supplies their preconditions.
- **The endpoint machine** (`Receive`, `Connections`, `Commands`, `Endpoints`, `Admission`, `EndpointMachine`, `SlotTick`, `Tokens`, `Server`, `ServerHistory`, `Unasked`, `Management`): two PDC slots per endpoint, one periodic-data buffer that all subscribers share and every tick rewrites, partial writes, pipelined commands, slow-client eviction and the event loop around them.
- **The scenario controller** (`Catalog`, `Scenario`, `ScenarioRuns`, `Preparations`, `ScenarioController`, `ScenarioEffects`, `ControlledServer`): prepare, confirm, cancel and clear with expiring one-shot tokens, boundaries, effect windows, and what the windows do on the wire in runs of controller and server together.
- **The paged console read** (`Decimal`, `Cursor`, `Json`, `JsonScan`, `JsonScanner`, `Paging`, `Console`, `ConsoleRuns`, `ConsoleText`): the server's pages under a cursor, the console's collector, and the text formats between them.
- **Timing and the probes** (`Timing`, `Decoders`, `ConfigurationDecoder`, `ConfigurationRoundTrip`, `Probe`, `Verdicts`, `ProbeClient`, `Streams`, `Handshake`, `Composition`, `Progress`, `ServedProbe`, `Deployment`): the scheduler and wall clock, the independent probes, and probe and server running against each other over byte channels.

Each stateful part exists twice: as functions on values, over which runs and invariants are stated, and as classes or methods with loops that update fields, arrays or local variables as the source does and are proved to compute those functions. Where the two wire versions differ only in constants or single branches, one definition takes the version as a parameter.

Inputs from outside are parameters: `write` may accept any number of bytes, block or fail; `read` may deliver any chunk, block, end or fail; clocks, process identities, globally unique ids and the fixed-point signal words are given. Floating-point fields are opaque words of two or four bytes on the wire, and exact reals where profiles are checked. Counters are unbounded naturals except where the source checks, saturates or truncates, which is written out.

Some facts that the code has and a reader may not expect:

- The run loop's timeout is rounded down while the due test is exact, so the loop wakes when a sample is due except at one instant for rates that do not divide a second. `Timing.WakesExactlyWhenDue` gives the exact condition and `Timing.SixtyHertzWakesEarly` an instance. It is a fact about the scheduler alone: profiles admit only fifty samples a second (src/config.rs:357), for which `Timing.WholeRateWakesExactly` applies.
- `take_due` uses saturating subtraction, so sample 0 can be taken before `started`; once the index saturates at the largest 64-bit value, the same sample is emitted again and again (`Timing.SaturatedSchedulerRepeats`). Conservation is stated below saturation.
- The IDCODE reported for a malformed prefix depends on how many bytes have arrived (`Receive.PrefixIdCode`); `Receive.FragmentationIndependence` is about the extracted commands, not about that field.
- The parser of command frames ignores the message time quality byte, so an accepted command is the encoding of its request only up to that byte (`Frames.AcceptedCommandIsEncoding`).
- The profile's range checks and the catalogue's checks on excursions do not look at each other, and version 2 encodes magnitudes with the scale that PHUNIT can represent, not with the configured one that the range check uses. So an accepted profile can saturate its words in two ways: by a scale that rounds down, in version 2 (`Recipe.SmallScaleSaturates`), and by a signal excursion, in either version (`Recipe.ExcursionSaturates`). `Recipe.NeverSaturatesExactly` is the exact condition, checkable when profile and catalogue are loaded; without an excursion and at the configured scale it always holds (`Recipe.MagnitudeFits`, `Recipe.RecipeFits`). The condition ranges over every waveform value between -1 and 1; the sampled sine need not come up to the ends, so for one particular fleet it is sufficient.
- The console's scanner stops at the brace that closes the top-level object and does not look at what follows.

## Model

| member | source | states |
|---|---|---|
| `Crc.Crc16Ccitt` | src/wire_v3.rs:334-347 | the two nested loops compute the checksum function, whose meaning is `Polynomial.MatchesIffDivisible` |
| `Polynomial.MatchesIffDivisible` | src/wire_v3.rs:325-347 | a frame matches if and only if its bits, the first sixteen inverted, are divisible over GF(2) by x^16 + x^12 + x^5 + 1, with divisibility defined by a carry-less product and not by the register |
| `Polynomial.CheckValue` | src/wire_v3.rs:514-516 | the checksum of "123456789" is 0x29B1 |
| `Crc.SealMatches` | src/wire_v3.rs:325-332 | a two-byte trailer matches if and only if it is the checksum of the payload, so exactly one trailer is accepted |
| `Crc.MatchesIffZero` | src/wire_v2.rs:334-356 | a frame matches if and only if feeding all of it, trailer included, leaves the register at zero |
| `Crc.BurstDetected` | src/wire_v3.rs:325-347 | for frames of any length, any nonempty change confined to sixteen consecutive bits breaks the checksum |
| `Frames.EncodedFrameParses` | src/wire_v3.rs:402-426 | every encoded frame of either version parses, and every header field and the body come back |
| `Frames.ParsedFrameIsEnvelope` | src/wire_v3.rs:109-133 | conversely an accepted byte string is the envelope of its own fields: nothing else is accepted |
| `Frames.BurstRejected` | src/wire_v2.rs:103-127 | an accepted frame altered within a window of sixteen bits is rejected, wherever the window lies, under any size limit |
| `Frames.CommandRoundTrip` | src/wire_v3.rs:163-199 | encoding and parsing any command of either version gives back the stream id and the command, in eighteen bytes |
| `Frames.AcceptedCommandIsEncoding` | src/wire_v2.rs:161-199 | an accepted command frame is the encoding of the request it yields, up to the ignored quality byte |
| `Layout.FrameLayout` | src/wire_v3.rs:402-426 | sync, type, size, id, time, quality, body and checksum of every encoded frame stand at fixed byte offsets, most significant byte first |
| `Layout.DataLayout` | src/wire_v2.rs:240-332 | the periodic data frame byte by byte: STAT, in version 3 an unknown time quality, then the fourteen signal words in their order |
| `Layout.ConfigurationLayoutV2` | src/wire_v2.rs:358-393 | every field of CFG-1 and CFG-2 at its offset in 158 bytes, nominal frequency, change count and rate last |
| `Layout.ConfigurationLayoutV3` | src/wire_v3.rs:349-400 | every field of a version 3 configuration at its offset for all name lengths: leading fields, names one behind the other, and 142 bytes of scaling, flags and rates |
| `FrameWriter.WriteCommon` | src/wire_v3.rs:414-426 | the header is written in place and every byte behind it is kept |
| `FrameWriter.WriteFrame` | src/wire_v2.rs:395-405 | buffer, header and checksum steps together give the encoded frame |
| `FrameWriter.WritePeriodicData` | src/wire_v2.rs:240-332 | rewriting the shared buffer in place with a moving offset leaves exactly the data frame of the sample, with the STAT choice |
| `FrameWriter.WriteErrorResponse` | src/wire_v3.rs:312-323 | the twenty bytes are the encoded error response |
| `FrameWriter.WriteConfiguration` | src/wire_v3.rs:349-400 | building the body by appending gives the configuration frame of the descriptor |
| `Profile.Compile` | src/config.rs:206-313 | compilation succeeds exactly on the profiles described by a caller-checkable predicate, and every endpoint pushed has a valid descriptor with consecutive port, stream id and PMU id, the name of its index, the standard channels in order, three voltage before three current units, and the given global id and scales |
| `Profile.ValidateFleet` | src/config.rs:350-459 | the staged checks decide exactly the conjunction of ranges, names, identifiers and the signal recipe |
| `Profile.ValidateGoodStat` | src/config.rs:461-487 | the seen-list loop accepts exactly the duplicate-free lists inside the PMU range, and only version 2 |
| `Profile.FinalIdentifier` | src/config.rs:489-499 | a range is accepted exactly if all of it lies in 1 to 65534, and the result is its last identifier |
| `Profile.EncodedNameIff` | src/config.rs:540-555 | a name is encoded exactly if it has 1 to 255 bytes and no control character, and the result carries its length |
| `Profile.FixedAsciiIff` | src/config.rs:575-587 | a fixed name exists exactly for 1 to 16 printable bytes and is then the name padded with spaces to sixteen |
| `Recipe.MagnitudeFits` | src/config.rs:526-538 | without an excursion, no sample of a recipe that passes the magnitude check saturates its word at the configured scale, as version 3 encodes it |
| `Recipe.MagnitudeFitsV2` | src/wire_v2.rs:421-427 | without an excursion, at the scale PHUNIT represents, all samples stay in range if and only if the largest magnitude divided by that scale is below 65535.5 |
| `Recipe.SmallScaleSaturates` | src/config.rs:595-603 | an accepted magnitude and scale whose version 2 word saturates |
| `Recipe.RecipeFits` | src/config.rs:440-456 | without an excursion, frequency deviation and ROCOF of every sample of an accepted recipe fit their signed words |
| `Recipe.MagnitudeOkExactly` | src/config.rs:395-428 | the checks on a magnitude accept exactly positive, finite numbers whose samples, over every waveform, stay between zero and 65535 scale units |
| `Recipe.SignalOkExactly` | src/config.rs:440-456 | the checks on frequency deviation and ROCOF accept exactly the finite recipes of which no sample leaves the plus-or-minus range |
| `Recipe.MagnitudeFitsExactly` | src/wire_v3.rs:245-263 | with any excursion, no waveform saturates a magnitude word if and only if its two extremes round into the word |
| `Recipe.SignalFitsExactly` | src/wire_v3.rs:274-305 | the same for the signed words of frequency deviation and ROCOF |
| `Recipe.ExcursionSaturates` | src/scenario.rs:946-969 | an accepted recipe and an accepted scenario that saturate the magnitude word together in both versions |
| `Recipe.NeverSaturatesExactly` | src/wire_v2.rs:269-327 | the exact condition for a whole data frame under an accepted recipe, an excursion and the scales of either version |
| `Profile.AcceptedProfileDecodes` | src/bin/c37-118-probe.rs:559-643 | for every accepted profile and endpoint the probe recovers time base, PMU id and rate |
| `ConfigurationRoundTrip.BodyDecodesV3` | src/wire_v3.rs:349-400 | for all name lengths the probe's decoder accepts the version 3 body and consumes it to the last byte |
| `ConfigurationRoundTrip.BodyDecodesV2` | src/wire_v2.rs:358-393 | the same for CFG-1 and CFG-2 and the version 2 probe |
| `ConfigurationRoundTrip.ConfigurationDecodes` | src/bin/c37_118_probe_v2.rs:337-458 | the whole frame decodes with its type, id, time and the descriptor's summary |
| `ConfigurationRoundTrip.HeaderDecodes` | src/wire_v2.rs:201-212 | the header frame decodes and its text is printable |
| `ConfigurationRoundTrip.DataDecodes` | src/wire_v3.rs:227-310 | every data frame decodes to its timestamp and has the shape, quality and STAT that the probe of its version wants |
| `Decoders.EncodedFrameDecodes` | src/bin/c37-118-probe.rs:510-544 | the probe's own envelope decoder inverts the encoder |
| `ConfigurationDecoder.ReadConfigurationV3` | src/bin/c37-118-probe.rs:559-643 | the loop over eight names with a moving offset gives the decoder's verdict on every body, malformed ones included |
| `ConfigurationDecoder.ReadConfigurationV2` | src/bin/c37_118_probe_v2.rs:396-458 | the loops over six names and six units give the decoder's verdict on every body, malformed ones included |
| `Receive.ReceiveBuffer.Fill` | src/server.rs:1959-1979 | one read appends what fits and never overruns the limit |
| `Receive.ReceiveBuffer.ReadFrom` | src/server.rs:1959-1979 | the read loop's result and contents for every sequence of read outcomes |
| `Receive.ReceiveBuffer.DropFront` | src/server.rs:1981-2043 | moving the unread bytes to the front removes exactly the extracted frame |
| `Receive.ReceiveBuffer.TakeCommand` | src/server.rs:1981-2050 | in-place extraction yields the next command and leaves exactly the remaining bytes |
| `Receive.NextCommand` | src/server.rs:1981-2043 | an extraction takes at least sixteen bytes and never more than the buffer or the limit |
| `Receive.FullBufferProgress` | src/server.rs:1981-2043 | a buffer filled to its limit always yields a command or a malformed result |
| `Receive.FragmentationIndependence` | src/server.rs:2258-2331 | under every interleaving of fills and extractions the extracted outcomes are a prefix of a one-shot parse of all bytes fed |
| `Receive.OutcomesBounded` | src/server.rs:1981-2050 | a stream yields at most one outcome per sixteen bytes |
| `Commands.ExtractionExactly` | src/server.rs:1981-2050 | what is extracted is decided by the bytes: wait for the declared size, refuse a size over the limit or a frame that is not whole, otherwise take exactly that frame as the command its type, id and word ask for |
| `Commands.EncodedCommandAsks` | src/wire_v3.rs:163-199 | an encoded command has the type byte, id and command word of its version at their offsets |
| `Tokens.ConnectionTokenInverts` | src/server.rs:2562-2583 | the event target inverts every issued PDC token for every endpoint count |
| `Tokens.ConnectionTargetIsIssued` | src/server.rs:2603-2636 | conversely a token resolved to a connection is exactly the one issued for it |
| `Tokens.ManagementTokenInverts` | src/server.rs:2585-2601 | the event target inverts every management token |
| `Tokens.TokensAreDisjoint` | src/server.rs:2558-2636 | listener, PDC and management tokens never collide, and two connections never share one |
| `Tokens.ConnectionTokenIssued` | src/server.rs:2562-2583 | a PDC token is issued exactly if its value stays below the management range |
| `Tokens.ManagementTokenIssued` | src/server.rs:2585-2601 | a management token is issued exactly if its value fits a machine word |
| `Connections.ProcessKeeps` | src/server.rs:2250-2332 | the command loop keeps a connection live, sends nothing itself and never reaches the pending branch of the handler |
| `Connections.AcceptedCommandIsHandled` | src/server.rs:2357-2398 | every command a version's parser accepts is one its handler knows, so the unsupported arm is unreachable |
| `Connections.SelectedIsWhole` | src/server.rs:2416-2450 | the bytes a flush selects are the whole frame of the pending kind, taken from its own sample, so no unreachable arm is taken |
| `Connections.FlushKeeps` | src/server.rs:2400-2507 | for every write outcome the sent bytes stay whole frames plus a prefix, counters stay balanced, and histories only grow |
| `Connections.ReadKeeps` | src/server.rs:2217-2248 | for every sequence of read outcomes the connection stays live and nothing is sent |
| `Commands.OwnCommandObeyed` | src/server.rs:2324-2398 | a command for the own stream is obeyed: stop and start only turn streaming off and on and go on, every request is answered with its frame from the first byte, and the instant is recorded |
| `Commands.OtherStreamRefused` | src/server.rs:2310-2322 | a command for another stream counts as malformed, records no valid command, closes in version 2 and in version 3 stops streaming and queues the twenty bytes of an error response with its id and code 2 |
| `Commands.UnknownCommandRefused` | src/server.rs:2288-2309 | a whole frame that is no command of the version counts as unsupported and is refused the same way with code 1 |
| `Commands.BrokenPrefixRefused` | src/server.rs:2258-2284 | a prefix that can never become a whole frame counts as malformed and is refused with code 1 under the id it shows, or the own one |
| `Commands.NothingToDo` | src/server.rs:2258-2287 | part of a frame, or anything behind a pending frame, waits and changes nothing |
| `Commands.ReadServed` | src/server.rs:2217-2248 | for any number of reads and every way they end: bytes join the buffer and are served, an error closes and is counted, the end of the stream closes unless an error response is pending |
| `Commands.WriteServed` | src/server.rs:2400-2507 | one write sends exactly the next bytes of the whole frame or none; a failed or empty one closes, a completed error response closes, any other completed frame lets buffered commands be served |
| `Endpoints.RewriteKeeps` | src/server.rs:1822-1880 | the shared buffer may be rewritten because no live connection has a data frame pending |
| `Endpoints.EvictKeeps` | src/server.rs:1778-1806 | after eviction no slot has a data frame pending, and the closed ones were never torn |
| `Endpoints.EmitKeeps` | src/server.rs:1729-1907 | a whole tick keeps every slot live and changes buffer and history together |
| `Endpoints.AcceptAllKeeps` | src/server.rs:2140-2198 | accepting any number of sockets keeps the invariant, issues fresh ids and keeps the count of clients |
| `Admission.AcceptedExactly` | src/server.rs:2140-2198 | a socket is accepted exactly if some slot is empty, its setup succeeded and an id and a token are left: into the first empty slot under the next id; otherwise it is only counted |
| `Admission.ClientIsSeated` | src/server.rs:650-675 | a client arriving at a listener is seated in the first empty slot as a fresh connection; at a full endpoint it is rejected and nothing else changes |
| `Management.AcceptedExactly` | src/server.rs:1489-1541 | the same for the eight management slots |
| `SlotTick.TickOnSlot` | src/server.rs:1729-1907 | a tick queues the new frame on a streaming idle slot and flushes it once, whatever the peer slot does, and leaves any other slot alone |
| `SlotTick.IdleTick` | src/server.rs:1729-1907 | a tick with nobody streaming and nobody to disconnect changes nothing, not even the buffer |
| `SlotTick.EvictionsCounted` | src/server.rs:1778-1806 | every evicted client counts once as slow and once as closed, and nothing else is counted |
| `Server.RunValid` | src/server.rs:608-748 | every state of every run of the event loop satisfies the server invariant |
| `Server.NoTornFrames` | src/server.rs:1778-1903 | in every state of every run the bytes written on a connection, open or closed, are whole frames and a prefix of the pending one, each data frame from one sample in rising order, and a pending data frame still equals the shared buffer |
| `Server.ConnectionsConserved` | src/server.rs:2140-2198 | accepted clients are closed plus live ones, at most two per endpoint, in every state of every run |
| `Unasked.NothingUnasked` | src/server.rs:2250-2332 | in every state of every run, a connection whose bytes so far do not begin with a command for its endpoint's own stream is not streaming, has no valid command on record and was sent nothing, or only an error response after which it is closed |
| `Server.StaleEventIgnored` | src/server.rs:683-688 | an event carrying the token of a connection that was closed at any earlier state of the run changes nothing |
| `Management.ServedExactly` | src/server.rs:750-800 | an event carrying the token of a connection that holds its slot serves exactly that connection |
| `Management.StaleEventIgnored` | src/server.rs:750-765 | the same for management connections: ids are never reused, so a closed connection's token reaches no later occupant of any slot |
| `Server.ScheduledIsRun` | src/server.rs:608-632 | whatever instants the scheduler is polled at, below saturation, an event sequence whose boundaries are the samples it hands out is a run: increasing boundaries are a consequence, not an assumption |
| `Server.SlotIsolation` | src/server.rs:650-748 | a step on one slot leaves the other slot, the shared buffer and the emitted frames alone |
| `EndpointMachine.Machine.CloseConnection` | src/server.rs:2522-2556 | the in-place close refines the value step, and touches only the connection with the given id |
| `EndpointMachine.Machine.ProcessBufferedCommands` | src/server.rs:2250-2332 | the loop over a mutated connection refines the recursive command processing, whose cases are the lemmas of `Commands` |
| `EndpointMachine.Machine.FlushConnection` | src/server.rs:2400-2507 | one write, the moved offset, delivered frame, counter and pipelined commands leave slots as in the value machine |
| `EndpointMachine.Machine.ReadReady` | src/server.rs:2217-2248 | reads, the command loop and a possible close leave slots and counters as in the value machine |
| `EndpointMachine.Machine.ExpireConnections` | src/server.rs:634-648 | the loop closes exactly the slots whose deadline has passed |
| `EndpointMachine.Machine.AcceptConnections` | src/server.rs:2140-2198 | the accept loop fills free slots in order with fresh ids and counts the rejected sockets, as in the value machine |
| `EndpointMachine.Machine.EmitData` | src/server.rs:1729-1907 | the disconnect, evict, rewrite and send loops together refine the tick |
| `Timing.SchedulerCell.Take` | src/server.rs:2067-2078 | the sample handed out is the one whose interval the clock stands in, the next index is one more, and the skipped ticks are counted; the mutable index moves as in the value machine |
| `Timing.TakenIsCurrent` | src/server.rs:2067-2078 | below saturation a due sample k satisfies k * 10^9 <= elapsed * rate < (k + 1) * 10^9; something is due exactly once the next index is reached, a backlog is skipped and counted, and a poll at the same instant has nothing more |
| `Timing.SamplesConserved` | src/server.rs:2067-2078 | for every sequence of polls, emitted samples plus skipped ticks equal the next index and emitted indices strictly increase, below saturation |
| `Timing.ConservedExactly` | src/server.rs:2067-2078 | the balance is kept if and only if no poll sees the largest index |
| `Timing.SaturatedSchedulerRepeats` | src/server.rs:2067-2078 | at saturation every further poll, however many, emits the last index once more and counts nothing as skipped |
| `Timing.WakesExactlyWhenDue` | src/server.rs:2062-2078 | a zero timeout means a due sample, if and only if the product is whole or the instant is not the rounded offset |
| `Timing.WaitEndsWhenDue` | src/server.rs:2062-2065 | waiting the timeout ends at the due instant rounded down to a nanosecond, and every shorter wait ends before the sample is due |
| `Timing.WholeRateWakesExactly` | src/server.rs:2638-2641 | for rates dividing a second the timeout is zero exactly when a sample is due |
| `Timing.SixtyHertzWakesEarly` | src/server.rs:2062-2065 | an instance where the loop wakes one nanosecond early |
| `Timing.FirstTimestampIsLeast` | src/server.rs:2110-2126 | the first timestamp is the least frame-aligned tick strictly after now, with its fraction on the grid |
| `Timing.FirstTimestampExists` | src/server.rs:2110-2126 | there is a first timestamp exactly until the last frame-aligned tick of the SOC range |
| `Timing.DelayReachesTick` | src/server.rs:2128-2138 | waiting the computed delay shows exactly the target tick and any shorter wait an earlier one, despite both roundings |
| `Timing.SampleTimestamp` | src/server.rs:2097-2108 | within the SOC range every sample is on the grid, exactly its index in steps after the first |
| `Timing.SampleSpacing` | src/bin/c37-118-probe.rs:655-676 | samples differ by exactly as many steps as their indices, the step the probes check |
| `Catalog.CompileCatalog` | src/scenario.rs:853-944 | compilation succeeds exactly on the described catalogues, and then every definition carries all fields of its raw scenario, every transient has a positive duration and exactly the signal excursions a signal |
| `Catalog.CompiledCarries` | src/scenario.rs:887-969 | a scenario compiles exactly if a duration goes with a transient and a finite, nonzero signal with an excursion, and every compiled field is the raw one |
| `Catalog.Find` | src/scenario.rs:36-40 | a scenario is found exactly if its name is in the catalogue |
| `Scenario.ConfirmSucceeds` | src/scenario.rs:404-456 | confirming an unexpired prepared token always succeeds and queues exactly its action; the three rejecting branches are unreachable |
| `Scenario.NewIsValid` | src/scenario.rs:320-331 | a fresh controller over a compiled catalogue satisfies the invariant |
| `Scenario.PrepareActivationKeeps` | src/scenario.rs:347-376 | every preparation keeps the two prepared maps inverse, targets exclusive and the capacity bound |
| `Scenario.PrepareClearKeeps` | src/scenario.rs:378-402 | a prepared clear implies an active sustained scenario |
| `Scenario.ConfirmKeeps` | src/scenario.rs:404-456 | confirmation keeps the invariant in all its outcomes |
| `Scenario.CancelKeeps` | src/scenario.rs:458-476 | so does cancellation |
| `Scenario.AdvanceKeeps` | src/scenario.rs:478-518 | so does a boundary, and it never reads a missing duration |
| `Scenario.AppliedHasDurations` | src/scenario.rs:762-774 | every transient that a boundary looks at has a duration, so its panic is unreachable |
| `Scenario.LabelLimit` | src/scenario.rs:724-731 | a label may have 64 characters of one UTF-8 byte, 32 of two, 21 of three or 16 of four, or be absent |
| `Preparations.ActivationGranted` | src/scenario.rs:347-376 | an activation is granted exactly if the request is well-formed, names a suitable scenario, the target is idle and there is room; the ticket carries the scenario of the name asked for, the caller's label, the next token and an expiry one minute later, and all unexpired preparations stay |
| `Preparations.ClearGranted` | src/scenario.rs:378-402 | a clear is granted exactly for a target with an active sustained scenario and nothing prepared or queued, under the same room; the ticket carries the clear and the caller's label |
| `Preparations.ConsumedExactly` | src/scenario.rs:404-476 | confirm and cancel report an unknown token, an expired one, or succeed with its action or record, and no other unexpired preparation is touched |
| `Preparations.TicketStaysGood` | src/scenario.rs:663-675 | over whole runs, a preparation nobody confirms or cancels stays unchanged while every clock reading lies before its expiry, and confirming it before its expiry then succeeds with its action |
| `Preparations.RequestedIsApplied` | src/scenario.rs:347-517 | over whole runs, once the token of an activation prepared by name is confirmed, the queue and from the next boundary on the active map hold a scenario of that very name with the caller's label |
| `Preparations.RequestedClearIsApplied` | src/scenario.rs:378-517 | over whole runs, a confirmed clear waits in the queue and removes the target's scenario at the next boundary |
| `ScenarioRuns.RunValid` | src/scenario.rs:347-518 | the invariant holds in every state of every run of operations |
| `ScenarioRuns.RevisionFaithful` | src/scenario.rs:337-340 | in every run the revision never falls, and equal revisions mean equal prepared, pending and active maps, failed calls and expiries included |
| `Preparations.RevisionMovesWithRecords` | src/scenario.rs:677-682 | conversely a step that leaves every lifecycle record as it was leaves the revision as it was, so pages are not invalidated without cause |
| `ScenarioRuns.TokenConsumedOnce` | src/scenario.rs:404-476 | a token that was confirmed or cancelled is unknown for the rest of the run |
| `ScenarioRuns.ConsumedTokenStaysUnknown` | src/scenario.rs:603-645 | an issued token that is gone never comes back |
| `ScenarioRuns.ExactEffectWindow` | src/scenario.rs:478-554 | a transient applied at boundary b with offset o and duration d is in effect at s exactly when b+o <= s < b+o+d and present exactly while s < b+o+d, for every run with gaps |
| `ScenarioRuns.EffectWindowInPlan` | src/scenario.rs:520-554 | the frame plan omits data, degrades time, shifts signals or disconnects the PDC, as the kind says, exactly when b+o <= s inside the window, and leaves the target alone from b+o+d on until a later activation |
| `ScenarioRuns.PlanOfActive` | src/scenario.rs:520-554 | the plan of a stream shows every target's active entry exactly while it is effective |
| `ScenarioRuns.SustainedInPlan` | src/scenario.rs:520-554 | the plan of a sustained scenario is in force from its offset on until the boundary of its clear, and spares the target there |
| `ScenarioRuns.SustainedUntilCleared` | src/scenario.rs:684-690 | a sustained scenario lasts unchanged until the boundary of its confirmed clear and is gone there |
| `ScenarioRuns.SchedulerNeverRejected` | src/scenario.rs:482-489 | driven by strictly increasing samples, no boundary is ever reported as non-monotonic |
| `ScenarioRuns.RunLoopNeverRejected` | src/server.rs:627-632 | whatever instants the scheduler is polled at, below saturation, a controller driven by the samples it hands out accepts every boundary |
| `ScenarioRuns.CapacityBound` | src/scenario.rs:618-661 | a reachable controller holds at most 900 lifecycle records |
| `ScenarioController.ScenarioController.DiscardExpiredPreparations` | src/scenario.rs:663-675 | the removal loop drops exactly the tokens whose expiry the clock has reached from both maps, in any order, with one revision step each, and keeps every other preparation |
| `ScenarioController.ScenarioController.PrepareScenario` | src/scenario.rs:347-376 | keeps the invariant; a ticket is issued only for a target idle in all maps, names a new token, expires a minute later and carries the catalogue's scenario of the name asked for and the caller's label; every other request gives the outcome of the value machine |
| `ScenarioController.ScenarioController.PrepareClearing` | src/scenario.rs:378-402 | keeps the invariant; a clear is prepared only for a target with an active sustained scenario and nothing queued, and its ticket carries the clear, the caller's label and an expiry a minute later |
| `ScenarioController.ScenarioController.Prepare` | src/scenario.rs:603-645 | busy, capacity, clock overflow and token exhaustion leave everything but discarded preparations alone; otherwise both maps, the counter and the revision move together |
| `ScenarioController.ScenarioController.ConfirmToken` | src/scenario.rs:404-456 | keeps the invariant; succeeds exactly on a known, unexpired token, queues exactly its action, and leaves the token unknown in any case |
| `ScenarioController.ScenarioController.CancelToken` | src/scenario.rs:458-476 | keeps the invariant; succeeds exactly on a known, unexpired token, returns its record, and leaves it unknown in any case |
| `ScenarioController.ScenarioController.ReachBoundary` | src/scenario.rs:478-518 | keeps the invariant without any assumption on durations; accepts exactly a later boundary, empties the queue and applies it as the value machine does |
| `ScenarioController.ScenarioController.FramePlanFor` | src/scenario.rs:520-554 | the loop over the active map collects exactly the plan whose meaning `ScenarioRuns.PlanOfActive` states |
| `ScenarioEffects.MissingFramesAreMissing` | src/server.rs:1741-1818 | at every boundary of the window of a missing-frames scenario a valid endpoint leaves its buffer alone and gives no connection a data frame of that sample |
| `ScenarioEffects.PlannedDisconnectCloses` | src/server.rs:1745-1776 | at every boundary of the window of a disconnect scenario the targeted connection's slot is empty after the tick |
| `ScenarioEffects.DegradedTimeOnWire` | src/wire_v2.rs:259-268 | a listed version 2 PMU under a healthy clock shows a good STAT outside the window of a degraded-time scenario, unless a later activation has taken the target, and the conservative one inside it, as the probe decodes it |
| `ControlledServer.StartIsValid` | src/server.rs:479-594 | a fresh controller and a freshly bound server start such a run |
| `ControlledServer.ControllerRuns` | src/server.rs:1736-1742 | the controller's part of a run of controller and server together is a run of the controller |
| `ControlledServer.MissingFramesStayMissing` | src/server.rs:1741-1820 | over whole runs, the sample of a report inside the window of a missing-frames scenario is never given to any connection of the endpoint, open or closed, then or later |
| `ControlledServer.DisconnectedInWindow` | src/server.rs:1755-1776 | over whole runs, after every report inside the window of a disconnect scenario the targeted connection holds no slot |
| `ControlledServer.StatOverRuns` | src/server.rs:1822-1868 | over whole runs, every emitted frame carries for good the STAT that the plan of its report asked for |
| `ControlledServer.DegradedInWindow` | src/wire_v2.rs:259-268 | over whole runs, every version 2 frame of the window of a degraded-time scenario carries the conservative STAT |
| `Decimal.FoldIsChecked` | src/management.rs:653-663 | the checked fold fails exactly on overflow and otherwise yields the value |
| `Decimal.ParseU64Iff` | src/management.rs:653-663 | the parser accepts exactly nonempty digit strings of value at most 2^64 - 1 |
| `Decimal.TokenIff` | src/management.rs:753-765 | token parsing accepts exactly the printed forms of 1 to 2^64 - 1 and inverts printing |
| `Decimal.GreaterIsNumeric` | pmu-control-console/app.js:103-105 | comparing normalised strings by length and then characters is comparing the numbers |
| `Decimal.RequiredIsPrinted` | pmu-control-console/app.js:76-88 | the console accepts exactly the strings the server's fold accepts and returns the printed form of the same number |
| `Cursor.CursorRoundTrip` | src/server.rs:1393-1395 | the server reads back every cursor it prints |
| `Cursor.ReadersAgree` | pmu-control-console/app.js:120-130 | console and server accept the same cursor texts and read the same fields |
| `Cursor.AcceptedCursor` | src/management.rs:632-651 | an accepted text is determined by its fields up to leading zeros |
| `Cursor.ParseStateRoute` | src/management.rs:607-630 | the loop with its two option variables yields a route exactly as the fold over all parameters does, repeated ones refused |
| `Cursor.RouteIff` | src/management.rs:607-630 | a query is accepted exactly if it is the bare format, or format and cursor in either order, each once |
| `JsonScan.StringEndExact` | pmu-control-console/app.js:139-152 | the string scanner stops exactly behind the closing quote, whatever the escapes |
| `JsonScan.ValueCrossed` | pmu-control-console/app.js:154-183 | inside brackets the scanner crosses every well-formed value and owes the same closing characters behind it |
| `JsonScan.ValueEndExact` | pmu-control-console/app.js:154-189 | the value scanner stops exactly at the end of every well-formed value |
| `JsonScan.ExtractIsTopLevel` | pmu-control-console/app.js:191-227 | on every well-formed object text the result is the number of the one top-level member with the wanted decoded name; none, several or a malformed number is rejected |
| `JsonScanner.SkipJsonWhitespace` | pmu-control-console/app.js:132-137 | the loop stops at the first character that is not whitespace, as specified from any position |
| `JsonScanner.JsonStringEnd` | pmu-control-console/app.js:139-152 | the loop, with its two-character jump over escapes, ends where the specification of a string end says, on every text |
| `JsonScanner.JsonValueEnd` | pmu-control-console/app.js:154-189 | the loop with its bracket stack ends where the specification of a value end says, on every text |
| `JsonScanner.ExtractTopLevelDecimalU64Property` | pmu-control-console/app.js:191-227 | the member loop returns what the specification returns, on every text |
| `Paging.ListingLists` | src/scenario.rs:570-601 | a listing holds each entry of its map once, in strictly ascending key order, and nothing else |
| `Paging.RecordsInOrder` | src/scenario.rs:570-601 | the console's lists hold each record once: preparations by ascending token, queued and active ones with endpoints before PDC connections, by stream and then by connection |
| `Paging.TotalBound` | src/scenario.rs:618-661 | a reachable controller never lists more than 900 records |
| `Paging.PageExtends` | src/server.rs:1332-1391 | a page extends the first `offset` records to the next 48 or all that are left, and points on exactly if more remain |
| `Console.CollectConsolePages` | pmu-control-console/app.js:744-816 | the loop with its cursor, baseline, seen set and lists yields the specified result or failure for every sequence of server states |
| `Console.LoadCoherentSnapshot` | pmu-control-console/app.js:818-843 | at most four collections under at most two catalogues; the result is one whole collection, and a final stale or mismatched result follows a retry of its own kind |
| `ConsoleRuns.IterateIs` | pmu-control-console/app.js:752-813 | each iteration is stale, mismatched, incoherent, the next page or the end, decided only by what the server was at that request |
| `ConsoleRuns.IssuedCursorReplays` | src/server.rs:1176-1203 | a cursor the server issued, replayed at its own revision, gets its page and never `invalid_console_cursor` |
| `ConsoleRuns.RevisionCovers` | src/scenario.rs:677-682 | over every trace with restarts, within one process equal revisions mean equal records |
| `ConsoleRuns.SnapshotIsolation` | src/server.rs:1145-1221 | in every interleaving an accepted collection equals the ordered lists the controller held at one instant; it is accepted exactly if every page met the same process, revision, catalogue and view; and it takes at most 19 requests |
| `ConsoleText.TextRevision` | pmu-control-console/app.js:736-742 | from the text of every page, whatever its other members hold, the scanner reads exactly the revision the server printed |
| `ConsoleText.ResponseIsWellLaid` | src/server.rs:244-259 | the member names of the server's response, with or without runtime metadata, leave the revision the only member of its name |
| `ConsoleText.TextsArePages` | pmu-control-console/app.js:736-816 | the collector that takes every revision from the page text is the collector over pages |
| `ConsoleText.SnapshotIsolationOfTexts` | src/server.rs:244-259 | snapshot isolation over the texts on the wire, with any content of the other members |
| `Probe.AcceptedIff` | src/bin/c37-118-probe.rs:388-437 | a frame is accepted exactly if its type is the one the state waits for and its content passes; a data frame is counted and its time kept, a reply queues the following command from its first byte, and the first configuration is stored |
| `Verdicts.FrameAcceptedExactly` | src/bin/c37-118-probe.rs:510-544 | the probe decodes exactly the whole frames of its version, with the fields at their offsets |
| `Verdicts.ConfigurationJudgedV2` | src/bin/c37_118_probe_v2.rs:396-458 | the version 2 probe accepts exactly the configuration bodies of 158 bytes with every field in its place and bounds, and reads time base, PMU id and rate off them |
| `Verdicts.ConfigurationJudgedV3` | src/bin/c37-118-probe.rs:559-643 | the version 3 probe accepts exactly the bodies with every field in its place behind names of any length |
| `Verdicts.DataJudged` | src/bin/c37-118-probe.rs:645-678 | a data frame passes exactly if size, quality and STAT are its version's, it lies on the grid, and it comes exactly one step after the one before |
| `Verdicts.InputJudged` | src/bin/c37-118-probe.rs:354-387 | a size out of bounds, a frame that is not whole or of another version, and a foreign id are errors; part of a frame waits; any other frame goes to the handshake |
| `Verdicts.ReadJudged` | src/bin/c37-118-probe.rs:354-366 | a read that would fill the buffer of 4096 bytes is an error, any other joins the input |
| `Verdicts.WriteJudged` | src/bin/c37-118-probe.rs:316-352 | one write sends exactly the next bytes of the queued command; its last byte moves the client to waiting for the reply or to streaming; a failed or empty write is an error |
| `ProbeClient.ProbeClient.WriteReady` | src/bin/c37-118-probe.rs:316-352 | for every write outcome the fields change as in the value machine: the offset moves, the last byte moves the state, a closed or failed socket is an error |
| `ProbeClient.ProbeClient.HandleFrame` | src/bin/c37_118_probe_v2.rs:264-309 | in both versions each state accepts exactly its frame and queues exactly the next command; every other frame is the matching error |
| `ProbeClient.ProbeClient.ReadReady` | src/bin/c37-118-probe.rs:354-386 | reading any chunks into the fixed buffer and then taking frames off it depends only on the bytes, not on the chunks; a full buffer is an error |
| `Streams.FramesExpected` | src/server.rs:515-548 | the frames encoded at start-up are the ones the probe of the version expects |
| `Streams.FramesTyped` | src/server.rs:515-548 | the start-up frames by type byte, each with the id and time of its endpoint, and the header with its station name |
| `Streams.NextFrame` | src/bin/c37-118-probe.rs:367-385 | once bytes of a clean stream are there, the next frame and its size are determined |
| `Handshake.InputPassed` | src/bin/c37-118-probe.rs:367-437 | the probe passes over every whole frame in its input without an error and keeps the rest |
| `Handshake.DataFrameAccepted` | src/bin/c37-118-probe.rs:645-678 | the data frame of the next sample passes the alignment and spacing checks |
| `Composition.ProcessIs` | src/server.rs:2250-2332 | on part of a script command the server waits, on a whole one it answers with exactly its reply or starts streaming |
| `Composition.ProbeNeverRejects` | src/bin/c37-118-probe.rs:316-451 | from a fresh connection, over every fragmentation and interleaving of reads, writes, ticks and deadlines, neither version's probe reaches a rejecting branch and nothing panics; the server closes the connection if and only if a deadline has expired or a tick finds it slow |
| `Composition.DeadlineExactly` | src/server.rs:1939-1948 | a deadline closes exactly fifteen seconds after accept without a command or after three hundred idle seconds between commands, and never a streaming connection |
| `Composition.HandshakeCompletes` | src/bin/c37_118_probe_v2.rs:190-327 | no deadlock and no loss: with nothing in transit the probe is not waiting for a reply and has accepted exactly the frames the server delivered |
| `Progress.NotStuck` | src/server.rs:2250-2332 | a probe that waits while no command is on its way and nothing is pending always has bytes coming back |
| `Progress.CanFinish` | src/bin/c37-118-probe.rs:316-437 | from every drained open state some sequence of steps brings the handshake to its end, with a decreasing measure of work |
| `Progress.AlwaysCanFinish` | src/bin/c37-118-probe.rs:316-437 | every state of every run from a fresh connection is drained, so while it is open the handshake can be brought to its end from there |
| `Progress.StreamingIsReached` | src/bin/c37_118_probe_v2.rs:190-309 | in particular a fresh connection can be brought through both configurations to streaming |
| `Deployment.DeployedIsSound` | src/server.rs:479-594 | what the composition presupposes is what the profile compiler and the aligned clock provide |
| `Deployment.ProbesAreNeverRejected` | src/bin/c37-118-probe.rs:316-451 | end to end: for every accepted profile, endpoint and start time within the SOC range, no run of a probe, whenever it connects, comes to a rejected step, and only an expired deadline or a slow tick closes it |
| `Deployment.ProbesCanStream` | src/bin/c37-118-probe.rs:316-451 | end to end: and such a probe can be brought to streaming whenever it connects |
| `ServedProbe.TickOnSeat` | src/server.rs:1729-1907 | a whole tick of the endpoint acts on the probe's slot as the composition's tick does |
| `ServedProbe.ProbeNeverRejected` | src/server.rs:608-748 | the same against the whole server: with any number of other connections, endpoints, accepted and rejected sockets and evictions around it, no step makes the probe reject anything, and its connection is closed exactly by an expired deadline or a slow tick |
| `ServedProbe.AcceptedIsFresh` | src/server.rs:2140-2198 | a probe accepted at any time of any run from the server's start, with encoded ticks, gets a new connection, and everything its endpoint emitted before is the encoding of its sample |
| `ServedProbe.AcceptedProbeNeverRejected` | src/server.rs:608-748 | from the start of the server: a probe accepted at any time is from then on never made to reject anything |
| `Deployment.AcceptedProbesAreNeverRejected` | src/server.rs:479-748 | end to end against the whole server and from its start, for every accepted profile |

## Left out

- Sockets, polling, registration and edge-triggered readiness: events, reads and writes are arbitrary; failures of re-registration are not modelled.
- Composition.ProbeNeverRejects: the steps are those the property presupposes: the sockets of the connection do not fail, fewer than 4096 bytes are unread, no tick is skipped, no scenario acts on the endpoint, and samples stay within the SOC range. Deadlines and slow ticks are steps. After a close nothing more happens; what the probe then reports is not modelled.
- Composition.HandshakeCompletes: says what rest means. `Progress.AlwaysCanFinish` shows that the end can always be reached; that a particular scheduler reaches it would need fairness, which is not modelled.
- ControlledServer.StatOverRuns: the effect of a signal excursion on the wire stops at the plan in these runs, because signal words are opaque there; `Recipe.NeverSaturatesExactly` is about the words themselves.
- Recipe.NeverSaturatesExactly: on exact reals, without the rounding of 32-bit floats.
- Management.StaleEventIgnored: what a management connection has received and still has to send is one opaque value.
- ConsoleRuns.SnapshotIsolation: covers prepared, pending and active records. `confirm_expires_in_ms` and `current_sample_index` are outside the snapshot, because the revision does not cover them. Process identities are assumed distinct, and the revision is assumed to fit 64 bits; the source panics when it does not.
- Console.CollectConsolePages: the validation of fleet, endpoint, statistics and metadata fields of a page is left out; the fields that the fingerprint covers are compared as one opaque view. Parsing the payload of a page is a library; only the revision is read from the text.
- JsonScan.ExtractIsTopLevel: positions count characters where the console counts UTF-16 code units; names are compared as code units, and the result is a slice of the text, so the difference does not show.
- Timing.FirstTimestampIsLeast: no product saturates within the SOC range; beyond it the source returns an error, which the function keeps, but intermediate saturation there is not modelled.
- Connections.FlushKeeps: a write that reports more bytes than were offered, which no socket does, is treated as a failure.
- Decoders.DecodeConfiguration: the fixed part of a configuration body threads the offset as a value; only the loops over names and units move a variable.
- Profile.Compile: range checks and the PHUNIT conversion are on exact reals, without the rounding of 32-bit floats; the words that three numbers are encoded as and the globally unique ids are given.
- Profile.ValidateFleet: the same exact reals.
- Signal synthesis, waveforms and fixed-point rounding: words are opaque.
- HTTP parsing, routing tables other than the console state query, JSON and YAML libraries, SHA-256, response text, metrics and logs: libraries or flat branching.
- Console rendering, dialogs, focus and scroll handling: user interface.
- `src/wire.rs` is not part of the crate; time health, start-up and runtime identity are short and local, and enter as inputs.

# Adaptive telemetry: a verified model

An adaptive telemetry stack watches network metrics, infers a network state with an online
hidden Markov model, compresses each window of samples with a db4 wavelet codec under the policy
of that state, and sends it as sealed CoAP Block1 requests to a receiver that reassembles and
decodes it. This project models that stack in Dafny and proves what it promises, component by
component and end to end.

The model follows the source's form. Objects whose methods update fields are classes
(`TelemetryPipeline`, `TelemetryReceiver`, `TelemetryServer`, `TestProvider`, `OqsProvider`,
`OnlineNormalizer`, `OnlineHmm`), algorithms over buffers are methods with loops over arrays,
and each is proved equal to a function of its inputs; the theorems are about those functions and
about runs of the state machines they form.

| files | what they hold |
|---|---|
| `Bits`, `Results`, `Reals`, `Buffers` | fixed-width integers, error codes, named products, buffer writes |
| `Crc32` | the check value, and which corruptions it must detect |
| `Wavelet`, `Reconstruction`, `Distortion`, `Isometry`, `Inversion` | the transform, its loops, what inverts it, adjointness, what any filter keeps of inner products, and what inversion at several levels forces |
| `Codec`, `CodecLoops`, `Fidelity` | the codec, its loops, round trip, refusal of corruption, distortion bound |
| `Coap`, `CoapGrammar`, `CoapLoops`, `CoapSizes` | the option format, its declarative grammar, its loops, its sizes |
| `Aad`, `Records`, `Providers`, `Tampering`, `Keystream` | associated data, the abstract record channel, the two providers, what the test provider's tag notices, and its keystream |
| `Segmentation`, `Transfer`, `Delivery`, `Liveness` | segmentation, sender and receiver as state machines, safety and progress, and exactly when a window completes |
| `Pipeline`, `Receiving` | the sending and receiving objects |
| `Config`, `Normalizer`, `Hmm`, `HmmLoops` | validation, the normaliser, the model, its loops |
| `Inference`, `Adaptation`, `Recovery`, `Learning`, `Episodes` | what the inferred state depends on, what an observation teaches, and runs of the model |
| `EndToEnd`, `Session` | from samples at the sender to samples at the receiver, of the protocol and of the objects |

Samples and probabilities are exact reals. The filter is a parameter and nothing requires it to be
orthonormal, because the published decimals are not: they miss orthonormality by less than 1e-12.
The error bounds hold for every filter, with an explicit term for its defect
(`Isometry.WithinDrift`). With an orthonormal filter that term vanishes; with the published decimals
the squared error of a decoded window is at most 1.000001 times the squared budget and 5e-15 of the
window's energy, and the transform alone returns every sample within 7e-10 of the largest.

`exp`, `log`, `sqrt`, the noise estimate and the float bit conversion are parameters with the few
properties that are used. A channel delivers any sequence of packets of the log of what was sent,
so it may lose, duplicate and reorder, and no unforgeability is assumed.

Where the code does not meet the obvious statement, the code is modelled and the exact condition
is proved:

- A validated configuration may hold negative initial probabilities, and the initial belief then is
  not a distribution. Beliefs are distributions from the start of every run if and only if
  `Learning.InitialBeliefsUsable` holds (`Learning.BeliefsAlongRunsIff`). What is reported is sound
  more often: one report exactly when its posterior is nowhere negative or, under the override,
  `Learning.Reportable` otherwise (`Learning.SoundReportIff`), and all reports of a run exactly when
  the first is (`Learning.ReportsAlongRunsIff`); predictions that are not negative suffice
  (`Learning.ReportsAlongRuns`). Still there is a validated configuration that reports a belief of
  -1 after its first observation (`Learning.NegativeReport`).
- `baseline_epsilon` is not validated. The argument of the normaliser's square root is positive
  along every history if and only if it is not negative (`Normalizer.RootArgumentIff`).
- One level of the transform inverts all windows of a length exactly under the condition of
  `Reconstruction.LevelInvertsIff`: orthonormality from length 12 on, less at lengths 8 and 10.
  Several levels invert exactly when each of their lengths meets its condition
  (`Inversion.DepthsInvertIff`).
- The size exponent 0 (blocks of 16 bytes, less than the record overhead) and a path of slashes
  alone both pass the validator, and then every window is refused. A window is sent if and only if
  neither is the case (`Delivery.WindowSentIff`).
- docs/ARCHITECTURE.md says that the associated data binds the content format. It binds its low
  16 bits only, and the first four bytes of the token (`Aad.AgreementMeans`,
  `Aad.ContentFormatAliases`).
- A RECOVERY episode lasts `recovery_hold + 1` outputs, and an initial RECOVERY is not held at all
  (`Recovery.EpisodeLength`, `Recovery.InitialRecoveryIsNotHeld`).
- Block 0 resets the receiver before anything about it is authenticated, and a failed decode leaves
  the transfer active with its counter advanced. Safety holds nevertheless
  (`Delivery.CompletedWindowsAreSentWindows`). Progress does not hold over a channel that repeats
  packets: one repeated block 0 loses a transfer under way for good (`Liveness.LostForGood`). A
  window completes if and only if it decodes and its blocks arrive in order, the first before any
  block 0 of a later window, and no block 0 among them (`Liveness.CompletesIff`).
- Parsed block numbers may exceed 0xfffff; they stay below 2^28 (`Receiving.ParsedNumberBound`).

## Model

| member | source | states |
|---|---|---|
| EndToEnd.ReportedWindowsAreSentWindows | src/receiver.c:17-78 | for every filter, any windows, any abandonment and any lossy, duplicating, reordering delivery, each completion reports identity and state of one sent window, one whose scale survived, the depth, width and threshold it was encoded with, and samples within the codec's error budget of it up to the filter's drift, in strictly increasing order of identity |
| EndToEnd.NewWindowIsReported | src/pipeline.c:74-134 | for every filter, a new window whose written scale survives, delivered in order to a receiver in any state behind it, gets OK for each block but the last, and the last reports identity, state and samples as above |
| EndToEnd.DecodingReports | src/codec.c:184-267 | whatever decodes, of what was encoded, yields the identity, the state, the depth, the width, the threshold word as gain times noise times universal factor, and samples within budget up to the drift |
| EndToEnd.CompletionReports | src/receiver.c:65-76 | a completion of the protocol is such a report of the window whose packet arrived |
| EndToEnd.ShippedReports | src/wavelet_db4.c:12-21 | with the published decimals the squared error of a reported window is at most 1.000001 times the squared budget and 5e-15 of its energy |
| EndToEnd.OrthonormalReports | src/wavelet_db4.c:7-11 | with an orthonormal filter it is at most the squared budget |
| EndToEnd.ServerAnswers | platform/contiki-ng/adaptive-server.c:80-134 | the handler's answer to any packet of a window, by case: incomplete when it does not continue, unauthorised when seen before, else continue, changed or bad request by whether it is the last and decodes |
| EndToEnd.BothProvidersServe | src/security_oqs.c:117-228 | both providers satisfy the law that the transfer theorems assume |
| Session.Feed | src/pipeline.c:37-151 | feeding a pipeline any inputs hands over the log of a run with one plan per accepted input, each encoded under the state the model infers for it; scores stay within [-6, 6] |
| Session.FedMore | src/pipeline.c:67-134 | one more accepted input extends jobs, plans and log by one window, whose encoding succeeds |
| Session.Receive | src/receiver.c:17-78 | feeding a receiver any schedule of a log completes what the protocol completes |
| Session.RunSeals | src/pipeline.c:117-119 | a run seals at most 1088 records a window, so fewer than 2^32 windows stay below 2^64 seals |
| Session.Session | src/security_test.c:185-213 | from a validated configuration and a fresh pair of providers on, what is sent and completed is what the protocol sends and completes: for all inputs and all networks that deliver only what was sent, every completion reports a window that went in, encoded at the configured depth and at the width and with the gain that the configuration gives its state, in strictly increasing order; and when no transport fails, blocks can be sent, scales survive and the network delivers everything once in order, there is exactly one completion for each accepted input, in order, and it reports that input |
| Session.SessionCompletes | src/receiver.c:17-78 | that liveness, of what was fed to a pipeline |
| Delivery.CompletedWindowsAreSentWindows | src/receiver.c:38-77 | safety over all runs: each completion holds exactly the representation of one sent window; completed identities strictly increase, so none completes twice |
| Delivery.LaterIsAnotherWindow | src/receiver.c:38-56 | of two completions, the one with the higher sequence number is of a later window |
| Delivery.RunIsFaithful | src/receiver.c:38-77 | invariant of every delivery: the receiver holds a prefix of one window's blocks or nothing usable, and completions climb in sequence number |
| Delivery.DeliveryStep | src/receiver.c:35-77 | one packet keeps that invariant, never moves the replay state back, and completes only with a window's last block |
| Delivery.ContinuingPacket | src/receiver.c:45-77 | a packet that continues the transfer appends exactly its piece; the last one is decoded, and a failed decode leaves the transfer active |
| Delivery.OtherPacket | src/receiver.c:38-56 | a replayed or foreign packet is refused and changes nothing but what block 0 resets |
| Delivery.NewWindowCompletes | src/receiver.c:38-76 | progress: whatever earlier transfer was left half done, in-order delivery of a new window gets OK for non-final blocks and COMPLETE with the exact representation for the last |
| Delivery.InOrderPrefix | src/receiver.c:61-67 | after any prefix of the blocks the receiver holds exactly the pieces so far |
| Delivery.WindowSentIff | src/pipeline.c:81-134 | with a transport that never fails, a window is sent if and only if the size exponent is not 0 and the path has a segment |
| Delivery.WindowIsConsecutive | src/pipeline.c:95-134 | however sending ends, the packets are consecutive blocks of the window with consecutive sequence numbers |
| Delivery.LoopIsConsecutive | src/pipeline.c:95-134 | the same from any turn of the loop on |
| Delivery.RunIsInOrder | src/pipeline.c:74-134 | over a run of windows, identities never decrease and sequence numbers strictly increase through the log |
| Delivery.BuiltCarries | src/pipeline.c:105-130 | a built packet parses to the block, token and sealed piece it was built from, with the associated data the receiver recomputes |
| Delivery.WindowAnnounces | src/pipeline.c:89-130 | each packet of a window is a confirmable POST to the path's segments with the window's block size, content format and total size, under consecutive message ids |
| Delivery.LoopSendsAll | src/pipeline.c:95-134 | when nothing fails the loop hands over every block |
| Liveness.CompletesIff | src/receiver.c:38-77 | whatever the channel loses, duplicates and reorders, a window completes if and only if it decodes and its blocks arrive in order, the first before any block 0 of this or a later window, with no block 0 of any window among them |
| Liveness.LostForGood | src/receiver.c:38-44 | so a second block 0, after one of this or a later window and before this window's last block, loses it for good |
| Liveness.DeliveredTracks | src/receiver.c:38-77 | after any schedule the receiver's token, counter and replay state are those of how far the window has come |
| Liveness.PhaseFinishedIff | src/receiver.c:38-56 | following the arrivals one by one ends with all blocks in exactly when they arrive unbroken |
| Liveness.Effect | src/receiver.c:38-77 | what any packet of a log does to any receiver the log can leave: taken in, or refused with at most block 0's reset |
| Liveness.RunSendsAll | src/pipeline.c:74-134 | when nothing fails, every block of every window of a run is in its log |
| Liveness.AllComplete | src/receiver.c:17-78 | liveness: when nothing fails and the log is delivered once in order, every window completes exactly once, in order |
| Pipeline.TelemetryPipeline.constructor | src/pipeline.c:15-35 | a validated configuration gives a valid pipeline whose window and message numbers start at 1 |
| Pipeline.TelemetryPipeline.Process | src/pipeline.c:37-151 | early errors change nothing; otherwise the window identity is spent, the normaliser and the model advance by one step, the packets and counters are those of encoding and sending under the inferred state's policy, whose header bytes are the configured depth, the width and gain of that state, and the state; statistics are given exactly when that succeeded |
| Pipeline.WindowHeader | src/pipeline.c:74-80 | the header of a window encoded for a state: format, configured depth, the state's width, the state, identity, and the threshold with the state's gain |
| Pipeline.SendingUnder | src/pipeline.c:74-134 | what is sent for a window is the sending of one with that header, or nothing |
| Pipeline.TelemetryPipeline.Transmit | src/pipeline.c:75-150 | encoding, sending and accounting for one window: compressed and protected sizes, block count and ratio are those of the records sent |
| Pipeline.TelemetryPipeline.Send | src/pipeline.c:81-134 | sending a representation is exactly one trace of the transfer protocol |
| Pipeline.TelemetryPipeline.Loop | src/pipeline.c:95-134 | the sending loop hands over the packets of the trace and leaves its counters |
| Pipeline.TelemetryPipeline.SealAndBuild | src/pipeline.c:105-130 | one turn: message id, associated data, sealing, the record length tests and the packet |
| Receiving.TelemetryReceiver.constructor | src/receiver.c:7-15 | a new receiver holds nothing and is inactive |
| Receiving.TelemetryReceiver.Accept | src/receiver.c:17-78 | any packet changes the receiver as the receiver state machine says, and completed samples are in the caller's buffer |
| Receiving.TelemetryReceiver.AcceptParsed | src/receiver.c:38-78 | the same from the parsed block on |
| Receiving.TelemetryReceiver.Store | src/receiver.c:57-77 | appending a plaintext, or the capacity error, and decoding after the last block |
| Receiving.ParsedNumberBound | src/coap_block.c:274-282 | a parsed block number is below 2^28, so the receiver's counter never wraps |
| Receiving.SzxFromSize | platform/contiki-ng/adaptive-server.c:30-41 | finds the exponent of a block size, or none |
| Receiving.TelemetryServer.Post | platform/contiki-ng/adaptive-server.c:43-135 | a malformed request changes nothing; any other drives the same receiver state machine, and the status code says how far it got |
| Receiving.TelemetryServer.Store | platform/contiki-ng/adaptive-server.c:107-134 | appending and decoding, with the status codes of each outcome |
| Receiving.ServerActsAsReceiver | platform/contiki-ng/adaptive-server.c:80-128 | on every packet with a record and a token the handler does what the host receiver does |
| Segmentation.ChunksPartition | src/pipeline.c:86-99 | pieces are non-empty, all but the last are full, they concatenate to the input, and their number is the announced block count |
| Segmentation.CountStep | src/pipeline.c:87-88 | the rounded-up quotient loses exactly one block with every full piece |
| Segmentation.ProtectedTotalIsSize1 | src/pipeline.c:89-93 | the record lengths add up to the Size1 value |
| Segmentation.CountDriven | src/pipeline.c:95-134 | the count-driven loop yields the pieces, with the more flag on all but the last |
| Segmentation.OffsetDriven | platform/contiki-ng/adaptive-node.c:138-185 | the offset-driven loop yields the same pieces and the same flags |
| Records.OpenSealed | src/security_test.c:115-160 | opening a sealed record with the same associated data returns the plaintext exactly at receivers that have not gone as far, and a replay error at the others |
| Records.FailedOpenChangesNothing | src/security_test.c:128-150 | a failed open leaves the replay state as it was |
| Records.AcceptedIncrease | src/security_test.c:132-157 | over any arrivals whatever, accepted sequence numbers strictly increase |
| Records.NoRecordAcceptedTwice | src/security_oqs.c:190-221 | so no record is accepted twice |
| Tampering.OneByteNoticed | src/security_test.c:115-160 | of a record that opens, one byte changed after the version, or one of the associated data, is answered with the integrity error (or refused before as a replay) |
| Tampering.SealedRecordGuarded | src/security_test.c:86-160 | so a sealed record with one changed byte is never opened, and each refusal has its own error |
| Tampering.TagNotices | src/security_test.c:65-84 | one changed byte of header, associated data or ciphertext changes the tag |
| Tampering.KeysGetOtherTags | src/security_test.c:65-84 | another key gives another tag, over anything |
| Tampering.FnvNotices | src/security_test.c:54-63 | the hash tells strings apart that differ in one byte |
| Keystream.MixInjective | src/security_test.c:35-43 | the mixing function is one-to-one on 64-bit words |
| Keystream.OthersGetOtherBytes | src/security_test.c:45-52 | under one key any two sequence numbers, and under one sequence number any two keys, get other bytes in every block of the stream |
| Keystream.DirectionsDiffer | src/security_test.c:203-208 | the two directions of a session never share a key |
| Providers.TestCipherLawful | src/security_test.c:86-160 | the test provider's seal and open satisfy the channel's law |
| Providers.TestRoundTrip | src/security_test.c:103-155 | its stream and tag undo and recognise themselves |
| Providers.Fnv1a | src/security_test.c:54-63 | the hash loop folds the bytes in order |
| Providers.MakeTag | src/security_test.c:65-84 | four lanes, each hashing header, associated data and ciphertext in that order |
| Providers.TestProvider.SealInto | src/security_test.c:86-113 | the record, the capacity error and the next sequence number are those of the abstract channel |
| Providers.TestProvider.OpenRecord | src/security_test.c:115-160 | plaintext, error and replay state are those of the abstract channel; an error changes no state |
| Providers.TestPair | src/security_test.c:185-213 | each side's sending key is the other's receiving key |
| Providers.MakeNonce | src/security_oqs.c:107-115 | the last eight bytes of the base are combined with the sequence number |
| Providers.NoncesDistinct | src/security_oqs.c:107-115 | different sequence numbers give different nonces |
| Providers.SessionNoncesDistinct | src/security_oqs.c:136-141 | the nonces of all seals of a session are pairwise distinct |
| Providers.GcmCipherLawful | src/security_oqs.c:117-228 | with a correct AES-GCM the provider satisfies the channel's law |
| Providers.GcmBindsRecord | src/security_oqs.c:117-228 | what the cipher refuses under other data, the provider refuses under another sequence number or other associated data |
| Providers.OqsProvider.SealRecord | src/security_oqs.c:117-167 | the record of the abstract channel; a failing library call spends the sequence number |
| Providers.OqsProvider.OpenRecord | src/security_oqs.c:169-228 | the plaintext, error and replay state of the abstract channel; an error changes no state |
| Aad.BuildAad | src/aad.c:14-35 | the sixteen bytes of a block |
| Aad.AadLayout | src/aad.c:15-36 | each field is read back from its place, numbers in network order |
| Aad.BothEndsAgree | src/aad.c:14-35 | the parsed block gives the bytes the sender sealed with |
| Aad.AgreementMeans | src/aad.c:22-33 | two blocks have the same bytes if and only if they agree on type, code, exponent, flag, number, token length, four token bytes and the content format modulo 2^16 |
| Aad.ContentFormatAliases | src/aad.c:32-33 | two blocks that differ in content format and have the same bytes |
| CoapGrammar.NibbleRoundTrip | src/coap_block.c:6-27 | every length or delta up to 65804 is read back from its nibble and extension |
| CoapGrammar.NibbleSound | src/coap_block.c:191-214 | what is read is exactly what would be written: the same nibble and the same extension bytes; nibble 15 is rejected |
| CoapGrammar.HeaderIsNotMarker | src/coap_block.c:55 | no option header equals 0xff |
| CoapGrammar.ListRoundTrip | src/coap_block.c:253-289 | every well-formed option list is read back from its bytes, up to the marker |
| CoapGrammar.ListSound | src/coap_block.c:253-289 | what the reader accepts is an option list of section 3.1 of RFC 7252 |
| CoapGrammar.ParseComplete | src/coap_block.c:229-302 | every packet the grammar describes parses to the described block |
| CoapGrammar.ParseSound | src/coap_block.c:229-302 | every parsed packet is described by the grammar |
| CoapGrammar.ParseIsGrammar | src/coap_block.c:229-302 | a packet parses to a block if and only if the grammar describes it, last occurrence winning, payload the exact non-empty suffix |
| CoapGrammar.MinBytesValue | src/coap_block.c:67-85 | a minimal-length integer reads back as its value |
| CoapGrammar.BlockValueFields | src/coap_block.c:159-168 | number, flag and exponent are recovered from the Block1 value |
| CoapGrammar.BuildDescribed | src/coap_block.c:123-189 | what is built is described by the path options, the content format, Block1 and a non-zero Size1 |
| CoapGrammar.BuildParse | src/coap_block.c:123-302 | whenever a request is built, parsing recovers every field, and the Uri-Path options are the path's segments in order |
| CoapGrammar.RequestOnWire | src/coap_block.c:123-189 | a sample request, byte by byte |
| CoapGrammar.LastOfMeans | src/coap_block.c:253-289 | of repeated options the last one counts, and only that |
| Bits.BigEndianAt | src/security_test.c:15-33 | network order: each byte of a number by its power of 256 |
| CoapGrammar.SegmentsAreNonEmptyPieces | src/coap_block.c:87-112 | the scanning loop yields the non-empty pieces between slashes, in order |
| CoapGrammar.JoinSplit | src/coap_block.c:87-112 | the pieces between slashes determine the path |
| CoapLoops.EncodeExtended | src/coap_block.c:6-27 | nibble and extension, or a range error above 65804 |
| CoapLoops.AppendOptionAt | src/coap_block.c:29-65 | the buffer is extended by exactly one option, or the error says why not |
| CoapLoops.WriteOption | src/coap_block.c:55-63 | header, extensions and value one after the other |
| CoapLoops.EncodeUint | src/coap_block.c:67-85 | the minimal-length big-endian bytes |
| CoapLoops.AppendUriPath | src/coap_block.c:87-112 | one option per segment is appended; a path without segments is a format error |
| CoapLoops.BuildBlock1 | src/coap_block.c:123-189 | the buffer holds the request, or the error is the one of the first test that fails |
| CoapLoops.DecodeExtended | src/coap_block.c:191-214 | reads within bounds what the functional reader reads |
| CoapLoops.DecodeUint | src/coap_block.c:216-227 | the big-endian value of up to four bytes; longer is a format error |
| CoapLoops.ReadAt | src/coap_block.c:254-268 | the option at the offset, with every read in bounds |
| CoapLoops.TakeOption | src/coap_block.c:270-287 | one option into the fields, or refusal of its value |
| CoapLoops.TakePayload | src/coap_block.c:290-301 | the payload after the marker, or the error |
| CoapLoops.ParseBlock1 | src/coap_block.c:229-302 | on every byte string the loop terminates within bounds with the result of the functional parser |
| CoapSizes.PathCostBound | src/coap_block.c:87-112 | a path of n bytes costs at most n + 1 bytes plus one per 13 bytes |
| CoapSizes.PipelineBlockFits | src/pipeline.c:48-50 | a pipeline block with a path of at most 63 bytes is built, in at most 1118 bytes, unless the path has no segment, which is a format error; no capacity test fires |
| CoapSizes.SegmentsExist | src/coap_block.c:93-111 | a path has a segment if and only if some byte is not a slash |
| Crc32.Crc32Update | src/codec.c:60-74 | the byte loop computes the register of the reflected polynomial |
| Crc32.PolynomialTerms | src/codec.c:70 | the polynomial has exactly the terms 26, 23, 22, 16, 12, 11, 10, 8, 7, 5, 4, 2, 1 and 0 |
| Crc32.CheckContinues | src/codec.c:59-75 | a check value can be carried on over pieces, and nothing has check value 0 |
| Crc32.RegisterIsBitwise | src/codec.c:65-72 | the byte-wise register is the bit-by-bit one |
| Crc32.ShiftInjective | src/codec.c:68-71 | one shift of the register is injective |
| Crc32.BurstDetected | src/codec.c:60-74 | two streams of any length that differ only within 32 consecutive bits have different check values |
| Crc32.FourBytesDetected | src/codec.c:60-74 | so do streams that differ only within four consecutive bytes |
| Wavelet.ValidateTransform | src/wavelet_db4.c:30-46 | accepts exactly the lengths and depths of the stated tests |
| Wavelet.AcceptedSplits | src/wavelet_db4.c:38-44 | an accepted length halves evenly at every level and stays at least 8 before each |
| Wavelet.TapIndex | src/wavelet_db4.c:71 | the remainder is one wrap round the period |
| Wavelet.FilterAt | src/wavelet_db4.c:67-74 | the inner loop accumulates both filters over the periodic extension |
| Wavelet.AnalyzeLevel | src/wavelet_db4.c:64-78 | one level replaces the band by its approximation and detail halves and touches nothing else |
| Wavelet.Db4Forward | src/wavelet_db4.c:48-82 | the in-place multilevel transform, or the range error with the array unchanged |
| Wavelet.SpreadAt | src/wavelet_db4.c:105-111 | one turn of the scatter loop adds one coefficient pair's eight taps |
| Wavelet.SynthesizeLevel | src/wavelet_db4.c:101-113 | one inverse level as a scatter-add, nothing else touched |
| Wavelet.Db4Inverse | src/wavelet_db4.c:84-117 | the in-place multilevel inverse, or the range error with the array unchanged |
| Wavelet.SoftThreshold | src/wavelet_db4.c:152-170 | shrinks the detail coefficients and leaves the approximation; a negative threshold changes nothing |
| Wavelet.ShrinkageIs | src/wavelet_db4.c:152-170 | a detail coefficient vanishes if and only if it is within the threshold, and otherwise moves towards zero by exactly the threshold |
| Wavelet.ShrinkageBound | src/wavelet_db4.c:160-169 | no detail coefficient moves by more than the threshold, no approximation coefficient moves |
| Reconstruction.DecimalsNearlyOrthonormal | src/wavelet_db4.c:12-21 | the published decimals miss the double-shift equations, by less than 1e-12 each |
| Reconstruction.CubicsLeaveNoDetail | src/wavelet_db4.c:12-27 | four vanishing moments: where a window is a cubic its detail is zero to within 4e-11 of the cubic's coefficients |
| Reconstruction.ConstantsAreScaled | src/wavelet_db4.c:12-21 | a constant window's approximation is it times the square root of two, to within 1e-12 |
| Reconstruction.ScatterIsGather | src/wavelet_db4.c:104-112 | the scatter loop puts at each sample the sum over the taps that land there, wraparound included |
| Reconstruction.LevelIdentity | src/wavelet_db4.c:63-113 | for every 8-tap filter and every even length from 8, exactly what one level and its inverse return |
| Reconstruction.LevelInvertsIff | src/wavelet_db4.c:63-113 | one level inverts all windows of an even length if and only if the filter meets that length's condition, which from 12 on is orthonormality |
| Reconstruction.LengthInverts | src/wavelet_db4.c:63-113 | under that condition one level returns the window |
| Reconstruction.DepthsInvert | src/wavelet_db4.c:48-117 | and several levels do when each of their lengths meets its condition |
| Reconstruction.NearlyInverts | src/wavelet_db4.c:63-113 | a filter that misses the equations by less than 1e-12 returns every sample within 7e-12 of the largest after one level |
| Reconstruction.NearlyReconstructs | src/wavelet_db4.c:48-117 | and within an explicit multiple of it after any number of levels |
| Reconstruction.PerfectReconstruction | src/wavelet_db4.c:48-117 | the inverse undoes the forward transform for every accepted length and depth |
| Reconstruction.ShippedFilterReconstructs | src/wavelet_db4.c:12-117 | with the published decimals, for every accepted length and depth, every sample comes back within 7e-10 of the largest |
| Reconstruction.SynthesisMoves | src/wavelet_db4.c:104-112 | an error in the approximation coefficients reaches each sample multiplied by at most the taps of its parity |
| Distortion.Adjoint | src/wavelet_db4.c:48-117 | for every filter the inverse transform is the adjoint of the forward one |
| Inversion.DepthsInvertIff | src/wavelet_db4.c:48-117 | so many levels invert all windows of a length if and only if each length they pass through meets its condition |
| Inversion.TopLevelInverts | src/wavelet_db4.c:63-113 | if several levels invert all windows, the first level inverts them by itself |
| Inversion.DeeperInvert | src/wavelet_db4.c:84-117 | and then the deeper levels invert all approximations |
| Inversion.KerTwice | src/wavelet_db4.c:63-113 | if several levels invert, what one level and its inverse change in a window is not changed again |
| Inversion.ChangeSymmetric | src/wavelet_db4.c:63-113 | what one level and its inverse change is symmetric under the inner product |
| Inversion.SynthesisIsConv | src/wavelet_db4.c:104-112 | the scatter loop gives even samples by even taps and odd samples by odd taps, on both halves |
| Inversion.ForthAndBack | src/wavelet_db4.c:63-113 | even taps forth and back plus odd taps forth and back are the identity and the filter's double-shift products |
| Isometry.NearIsometry | src/wavelet_db4.c:48-82 | for every filter the multilevel transform preserves inner products up to the drift of its defect |
| Isometry.LevelDefect | src/wavelet_db4.c:63-80 | one level preserves them up to the filter's defect |
| Isometry.NoDefect | src/wavelet_db4.c:12-21 | exactly the orthonormal filters have no defect |
| Isometry.EnergyNearlyPreserved | src/wavelet_db4.c:48-82 | for every filter, energy changes by at most the drift |
| Isometry.EnergyPreserved | src/wavelet_db4.c:48-82 | an orthonormal filter preserves energy at every depth |
| Isometry.CoefficientErrorBoundsWindowError | src/wavelet_db4.c:84-117 | for every filter, the window moves by no more energy than its coefficients were moved, up to the drift |
| Isometry.DecimalsDrift | src/wavelet_db4.c:12-46 | for every accepted length and depth the published decimals drift by at most 4.3e-11 |
| Isometry.ShippedWithin | src/wavelet_db4.c:12-46 | what that allows in numbers |
| CodecLoops.FindPeak | src/codec.c:121-126 | the largest magnitude |
| CodecLoops.CountNonzero | src/codec.c:130-137 | the counting pass counts the non-zero quantised coefficients |
| CodecLoops.WriteFront | src/codec.c:143-153 | the header fields in their places |
| CodecLoops.WriteStream | src/codec.c:155-166 | the writing pass writes exactly as many entries as were counted, and leaves the header alone |
| CodecLoops.WriteWindow | src/codec.c:143-170 | header, stream and check value together |
| CodecLoops.Encode | src/codec.c:76-182 | for every width its shift and division are defined for, the buffer holds the encoded window, or the error is the one of the first test that fails |
| CodecLoops.PlaceEntries | src/codec.c:238-249 | places entries with strictly increasing indices in range, else refuses |
| CodecLoops.DecodeWindow | src/codec.c:184-267 | the decoded window, its metadata and its samples, or the error of the first test that fails |
| Fidelity.HeaderOfEncoded | src/codec.c:143-153 | the bytes of an encoded window: format, depth, width, state, count, identity, and the threshold word as gain times noise times universal factor |
| Fidelity.ThresholdWord | src/codec.c:113-116 | the threshold that travels is the gain times the noise and the universal factor of the window's own coefficients |
| Fidelity.QuietDetailDropped | src/codec.c:113-136 | a detail coefficient within the threshold is not sent, whatever the scale |
| Fidelity.QuietWindowIsShort | src/codec.c:113-142 | a window whose detail is all within the threshold takes at most 28 bytes and four for each approximation coefficient |
| Fidelity.LargestKeptIsFullScale | src/codec.c:121-133 | the largest kept coefficient is sent as 2^(width - 1) - 1, signed |
| Fidelity.RoundsHalfAway | src/codec.c:131 | rounding is to the nearest integer, ties away from zero |
| Fidelity.EntryStands | src/codec.c:155-166 | the entry of a non-zero coefficient follows one entry for each such coefficient before it |
| Fidelity.EntryBytes | src/codec.c:161-163 | and is its index and its value, low bytes first |
| Fidelity.DecodesIff | src/codec.c:209-254 | the decoder accepts exactly the byte strings with the format, a transformable window, a width and state there are, a positive scale, matching length and check value, and strictly ascending indices |
| Fidelity.PlacedIffAscends | src/codec.c:238-249 | entries are placed exactly when their indices ascend within the window; then each value stands at its index and all else is zero |
| Bits.LittleEndianAt | src/codec.c:11-42 | the codec's byte order: each byte of a number by its power of 256 |
| Fidelity.SparseRoundTrip | src/codec.c:155-249 | every int16 coefficient vector is restored from its sparse stream |
| Fidelity.FrameFields | src/codec.c:143-222 | every header field is read back as written |
| Fidelity.EncodingSucceeds | src/codec.c:101-170 | a window of the configured length is encoded, in 28 bytes plus four per non-zero coefficient |
| Fidelity.DecodeEncoded | src/codec.c:184-267 | decoding an encoded window whose scale survives returns its fields, the threshold word included, and the inverse transform of its coefficients |
| Fidelity.DecodableSurvives | src/codec.c:223-231 | conversely, an encoded window that decodes is one whose width is at most 15, whose scale survives and that fits the buffer |
| Fidelity.CorruptionRefused | src/codec.c:232-236 | a decodable frame corrupted within four consecutive stream bytes is refused with the integrity error |
| Fidelity.DamagedWindowRefused | src/codec.c:232-236 | the same for every encoded window and every damage within four consecutive stream bytes |
| Fidelity.QuantizeError | src/codec.c:127-137 | the clamp never fires and quantisation errs by at most half a step |
| Fidelity.ScaleReaches | src/codec.c:121-128 | every kept coefficient is within the quantiser's range |
| Fidelity.KeptError | src/codec.c:105-137 | the squared coefficient error is within the sum of the squared budgets |
| Fidelity.DistortionBound | src/codec.c:105-170 | for every filter, the squared error between a window and its decoded form is at most the sum of squared budgets (threshold on detail coefficients, half a step, the rounding of the written scale), up to the drift |
| Fidelity.OrthonormalDistortion | src/codec.c:105-170 | with an orthonormal filter, at most that sum |
| Fidelity.ShippedDistortion | src/codec.c:105-170 | with the published decimals, at most 1.000001 times that sum and 5e-15 of the window's energy |
| Config.PowerOfTwoMeans | src/config.c:390-394 | the bit test accepts exactly the powers of two |
| Config.Validate | src/config.c:396-465 | succeeds exactly on valid configurations, with a range error otherwise |
| Config.WindowOkMeans | src/config.c:418-425 | accepted windows are the powers of two from 8 to 256 with at least one level and at least two more powers than levels |
| Config.ValidatedState | src/config.c:431-463 | the ranges a validated configuration gives every state |
| Config.ValidWindowTransforms | src/config.c:418-425 | a validated window and depth pass the transform's and the decoder's structural tests |
| Config.ValidWindowEncodes | src/config.c:418-441 | a validated configuration gives every state a policy the encoder accepts |
| Normalizer.OnlineNormalizer.Update | src/metrics.c:18-69 | a non-finite reading changes nothing; else scores and baselines are the recurrence's, scores within [-6, 6] |
| Normalizer.OnlineNormalizer.Initialize | src/metrics.c:33-45 | the first reading sets every baseline |
| Normalizer.OnlineNormalizer.Advance | src/metrics.c:47-67 | every metric is scored against its old baseline and then updated |
| Normalizer.OnlineNormalizer.UpdateMetric | src/metrics.c:48-66 | one metric's clamped score, goodput turned round, and its floored baseline |
| Normalizer.OnlineNormalizer.MoveBaseline | src/metrics.c:60-66 | the floored baseline, whose variance stays positive |
| Normalizer.ScoreMeans | src/metrics.c:48-58 | a score strictly inside six counts in roots how far the reading is above the mean, for goodput below it; it is six either way exactly from six roots on |
| Normalizer.ScoreMonotone | src/metrics.c:48-58 | it rises with the reading, and falls with goodput |
| Normalizer.ScoresMean | src/metrics.c:33-58 | so does what an update of the object reports, and the first reading scores nothing |
| Normalizer.StartScale | src/metrics.c:34-42 | the first scale is a tenth of the reading, and at least one |
| Normalizer.FloorHolds | src/metrics.c:60-66 | the variance is the moved one or the floor, whichever is larger |
| Normalizer.TrackIsClosedForm | src/metrics.c:47-67 | mean is the closed-form weighted mean of the whole history; variance is the closed-form variance while the floor is silent and never below it |
| Normalizer.BaselineIsClosedForm | src/metrics.c:33-67 | the same of the object after any updates |
| Normalizer.VariancePositive | src/metrics.c:47-67 | whatever the floor, the variance is positive after every history |
| Normalizer.RootArgumentIff | src/metrics.c:51 | the square root's argument is positive at every step of every history if and only if epsilon is not negative |
| Inference.DensityIsGaussian | src/hmm.c:32-49 | the log density is that of independent Gaussians with floored variances |
| Inference.DensityDifference | src/hmm.c:32-49 | between states of equal variances it differs by half the difference of the squared distances |
| Inference.DensityAtMeans | src/hmm.c:32-49 | it is largest at the means, and there depends on the variances alone |
| Inference.PosteriorOdds | src/hmm.c:184-196 | Bayes: the posterior is proportional to prediction times emission density, whatever the shift of the logarithms |
| Inference.PredictionConserves | src/hmm.c:184-187 | distributions predict distributions |
| Inference.CertaintyPredictsItsRow | src/hmm.c:184-187 | a certain belief predicts the row of its state |
| Inference.CandidateIsLargest | src/hmm.c:50-61 | the candidate is the first state of largest posterior |
| Inference.NearestIsCandidate | src/hmm.c:184-197 | among equally expected and equally spread states, the candidate is one whose means are nearest to the observation |
| Inference.EvidenceHasMass | src/hmm.c:184-196 | the evidence has mass as soon as the predictions have and some density is above the least |
| Adaptation.EmissionsClose | src/hmm.c:90-118 | every mean closes exactly its rate of the way to the observation, every variance to the squared deviation from the old mean, down to the floor; the rate is the learning rate times the new belief |
| Adaptation.RowsOfCounts | src/hmm.c:76-88 | a transition row is proportional to its counts plus the smoothed prior |
| Adaptation.UncountedRowIsPrior | src/hmm.c:76-88 | a row of which nothing was counted is its prior |
| Adaptation.CountsAreMoves | src/hmm.c:70-75 | along every run the count of a transition is every time it was made, weighed by the forgetting raised to its age, and the initial count forgotten as often |
| Adaptation.StartsAsConfigured | src/hmm.c:129-160 | the model starts with beliefs and rows proportional to the configuration, its centres and spreads, and the state of largest belief |
| HmmLoops.Normalize | src/hmm.c:11-29 | proportions, or the uniform distribution when there is no mass |
| HmmLoops.EmissionLogProbability | src/hmm.c:31-48 | the floored Gaussian log density, summed over metrics |
| HmmLoops.LargestProbability | src/hmm.c:50-61 | the first state of largest probability |
| HmmLoops.LearnRow | src/hmm.c:69-88 | one row's decayed and bumped counts and smoothed proportions, never dividing by zero |
| HmmLoops.LearnEmission | src/hmm.c:102-116 | one state's moved means and floored variances |
| HmmLoops.PredictAll | src/hmm.c:184-192 | predictions, log densities and their maximum |
| HmmLoops.Correct | src/hmm.c:184-196 | the normalised posterior |
| HmmLoops.Blend | src/hmm.c:223-232 | the posterior, or half of it plus a half on the overriding state, renormalised |
| HmmLoops.OnlineHmm.constructor | src/hmm.c:119-162 | the initial model of a validated configuration |
| HmmLoops.OnlineHmm.UpdateTransition | src/hmm.c:63-89 | every row's counts and probabilities after one transition |
| HmmLoops.OnlineHmm.UpdateEmissions | src/hmm.c:91-117 | every state's means and variances after one observation |
| HmmLoops.OnlineHmm.Choose | src/hmm.c:198-224 | the override: state, previous state and countdown |
| HmmLoops.OnlineHmm.Decide | src/hmm.c:184-232 | posterior, override and blend together |
| HmmLoops.OnlineHmm.Step | src/hmm.c:164-241 | the object's step is the model's step and keeps every row learnable |
| Hmm.InitialIsLearnable | src/hmm.c:139-152 | a validated configuration gives rows with mass and non-negative counts |
| Hmm.RowStaysSound | src/hmm.c:70-88 | decay and bump keep a row non-negative with mass, so its division is defined |
| Recovery.EntryAndExit | src/hmm.c:205-221 | RECOVERY is entered only from CONGESTED, and CONGESTED is left only to RECOVERY with the full countdown |
| Recovery.CountdownOnlyInRecovery | src/hmm.c:205-218 | the countdown is non-zero only in RECOVERY |
| Recovery.EpisodeLength | src/hmm.c:205-218 | an entered episode lasts exactly hold + 1 outputs unless CONGESTED cuts it short |
| Recovery.InitialRecoveryIsNotHeld | src/hmm.c:159 | a run that starts in RECOVERY leaves it at once |
| Recovery.ForbiddenNeverSelected | src/hmm.c:201-221 | the override never selects a forbidden transition |
| Recovery.FollowedUnlessOverridden | src/hmm.c:197-224 | the candidate is selected unless the move is forbidden or RECOVERY is held or refused; then RECOVERY or, of a refused RECOVERY, exactly NORMAL; and what happens to the countdown |
| Episodes.FollowsPosteriorAlongRuns | src/hmm.c:184-228 | along every run the reported state is the first of largest posterior, unless overridden, and then RECOVERY or NORMAL as above |
| Episodes.ReportedIsOutput | src/hmm.c:197-224 | every reported state and countdown of a run from any validated configuration is an output of the control machine |
| Episodes.EntryAndExitAlongRuns | src/hmm.c:205-221 | entry, exit and countdown, of the states such runs report |
| Episodes.EpisodesAlongRuns | src/hmm.c:205-218 | an entered episode is reported exactly hold + 1 times unless CONGESTED cuts it short |
| Episodes.InitialRecoveryIsNotReported | src/hmm.c:154-162 | a model that starts in RECOVERY does not report it first |
| Learning.RunFollowsControl | src/hmm.c:197-224 | the reported states of every run are those of the control machine |
| Learning.StepKeepsLearnable | src/hmm.c:63-89 | a step keeps counts non-negative with mass, and every learned row a distribution |
| Learning.PosteriorStochasticIff | src/hmm.c:184-196 | a posterior is a distribution if and only if no prediction is negative or the evidence has no mass |
| Learning.SoundReportIff | src/hmm.c:184-232 | one report is sound if and only if the posterior is nowhere negative or, under the override, nowhere negative but at the selected state and nowhere more than one above it |
| Learning.ReportsAlongRunsIff | src/hmm.c:184-232 | from any model, all reports of a run are sound if and only if the first is |
| Learning.ReportsAlongRuns | src/hmm.c:184-232 | when no initial prediction is negative, every reported belief and row is a distribution and the reported state has the largest belief, at least 1/5 |
| Learning.BeliefsAlongRuns | src/hmm.c:135-137 | with usable initial probabilities the same holds from the start of every run |
| Learning.BeliefsAlongRunsIff | src/hmm.c:135-137 | the belief is a distribution along all runs if and only if the initial probabilities are usable |
| Learning.ValidatorAdmitsNegativeBelief | src/config.c:431-463 | a validated configuration whose initial belief is negative |
| Learning.NegativeReport | src/hmm.c:184-239 | that configuration reports a belief of -1 after its first observation |
| Learning.ForbiddenStaysZero | src/hmm.c:63-89 | a forbidden transition of zero prior keeps count and probability exactly 0 along every run |
| Learning.EmissionsAlongRuns | src/hmm.c:91-117 | when no initial prediction is negative, along every run means stay in the hull of their start and [-6, 6], variances between the floor and an explicit cap |
| Learning.CountsAlongRuns | src/hmm.c:63-89 | with forgetting below 1 no row of counts exceeds the larger of its start and 1/(1 - forgetting) |

## Left out

- Rounding: samples, coefficients and probabilities are exact reals; IEEE rounding, overflow and NaN are not modelled, except that a reading may be non-finite.
- `exp`, `log`, `sqrt`, the noise estimate with its sort (src/wavelet_db4.c:119-150) and the float bit conversion are parameters: positive exponentials, positive roots of positive numbers and a non-negative noise estimate and root are all that is assumed.
- The written scale reads back finite and positive: a hypothesis of progress and liveness (`ScaleSurvives`), as the code computes it as a double and writes it as a float. Safety does without it.
- Normalizer.OnlineNormalizer.Update: asks that the arguments of this call's square roots be positive (`Rootable`), as the scores are reals and not NaN; so do `Advance`, `UpdateMetric` and `Pipeline.TelemetryPipeline.Process`. With a `baseline_epsilon` that is not negative they always are.
- Session.Session: assumes that `baseline_epsilon` is not negative, which the validator does not check; only then are all those arguments positive (`Normalizer.RootArgumentIff`).
- Fewer than 2^32 windows and 2^64 seals in a run are hypotheses of the transfer theorems: identities and sequence numbers wrap after that (for a session from a fresh pair the first implies the second). Message ids do wrap in the model; nothing rests on them.
- CodecLoops.Encode: quantisation widths 0, 1 and above 31, where the source's shift is undefined or its scale is not finite; no validated configuration has them.
- The metadata that the encoder reports to its caller; the decoder's is modelled, its threshold as the word read.
- Learning.NegativeReport: asks that the observation's log density be above the least double, from which the source starts its maximum.
- The server's 32-bit block counter is unbounded in `TelemetryServer`; the host receiver's is proved not to wrap.
- AES-GCM is an abstract pair that opens what it sealed; ML-KEM, HKDF, allocation and cleansing of the production provider are not modelled. Whether a library call is available is an input.
- Unforgeability of any tag: the channel delivers packets that were sent, so none is needed.
- The pipeline and receiver objects hold the test provider; the AES-GCM provider is related to them through the abstract channel that both are proved to be.
- The send callback is a function of the block number that may return an error; a packet whose callback fails may still be delivered.
- Null-pointer tests of the C interfaces, except the one the record opener makes of an absent payload.
- Configuration parsing and defaults, name tables, signal generators, printing, and the session setup of the production provider.
- Contiki processes, timers, the CoAP engine and the observer; the node is modelled by its segmentation loop, the server by its handler.
- Fixed-size double arrays of the model and the normaliser are sequences held in fields, reassigned element by element; aliasing among them is not modelled.
- Byte-order helpers, the header copies and the mixing of the test provider's stream are functions or simultaneous copies, not loops.
- The Python accounting script: its block and frame sums would add only easy members.

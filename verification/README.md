# A verified model of the KISS/LTP/BP stack

This project models the protocol stack of `kiss-interface/`: reliable block transfer (LTP), the bundle
layer on top of it, the framing below it, and the codecs all of them use. It proves what the stack is for:
what one side accepts is what the other side sent, on every input and over every run, and where the code
falls short of its own design documents it says exactly when.

The model takes the form of the source. Code that changes things step by step is imperative Dafny:
`LtpEngine.LtpEngine`, `RecvMap.RecvMap`, `Kiss.KissDecoder`, `FrameDetector.FrameDetector` and
`Reassembly.ReassemblyContext` are classes that update tables, arrays and counters in place, and the encoders
and decoders are loops and cursors over buffers. Each of these methods is tied by its contract to a function
of the old state; the theorems are about those functions, over all inputs and all runs.

| files | what they model |
|---|---|
| `Sdnv` | self-delimiting numbers (sdnv.c) |
| `ClaimMap`, `RecvMap`, `ClaimRoom` | the sixteen-entry receive map of a session, and when sixteen entries are enough |
| `LtpSegment`, `LtpCodec` | the segment wire format and its encoders and decoders |
| `LtpState`, `LtpSegmentation`, `LtpSteps`, `LtpEngine` | the engine: tables, segmentation and retransmission, every entry point |
| `TwoParty`, `TwoPartyInvariant`, `TwoPartySteps`, `TwoPartySafety` | two engines over a network that loses, duplicates and reorders |
| `LtpDiscipline`, `LtpSerials`, `LtpTimers`, `LtpTimerRuns`, `LtpUnanswered` | session numbers, serials and timers over runs on any input |
| `LtpAcknowledged`, `LtpCancel`, `LtpTiming` | what acknowledgements and cancel segments do end to end, and how long timers run |
| `LtpFirstSend`, `LtpOutput`, `LtpRefused` | what is written, field by field, and what is refused |
| `LtpAnyOrder`, `LtpConvergence`, `LtpRound`, `LtpRoundRuns` | reassembly in any order; how many report rounds deliver a block |
| `LostEndSteps`, `LostEnd` | the runs in which a completed block is never delivered |
| `BitWords`, `Fcs`, `Nrzi`, `FrameDetector`, `FrameRoundTrip`, `BetweenFlags` | checksum, bit stuffing, NRZI, flags, and the bit-level frame detector |
| `Polynomial`, `CrcPolynomial` | division of polynomials over bits; both checksums as remainders |
| `Kiss` | KISS framing |
| `Cbor`, `Crc16`, `Bundle`, `BundleCodec`, `BundleGrammar`, `Reassembly`, `AnyFragments` | bundles over CBOR, fragmentation and reassembly |
| `Bytes`, `Sequences`, `Division` | shared vocabulary |

Times are nanoseconds on a monotonic clock and come in as parameters; so do the creation time of a bundle and
the identifiers of the engines. Octets are integers below 256 in the octet protocols and bit vectors in the
checksum and bit-framing code; session numbers, serials and offsets are unbounded naturals.

## Where the code and its documents differ

- Reassembly in any order (docs/specs/ltp-over-kiss/design.md:599-603): the design promises it for every block
  of 1 to 1024 bytes. It holds exactly for blocks of at most 32 MTUs (`LtpAnyOrder.RebuiltInAnyOrderIff`); a
  longer block received even segments first overflows the claim map and is not rebuilt.
- Claims accuracy (docs/specs/ltp-over-kiss/design.md:605-609): the design promises, for every block and any
  subset of its segments, claims that are exactly the bytes received. That holds exactly for blocks of at most 32
  MTUs (`LtpAnyOrder.ClaimsAccurateIff`); seventeen even segments of a longer one are enough to lose a claim.
- Delivery of a block received in full (docs/specs/ltp-over-kiss/requirements.md:106): the sender counts a session
  as completed on a report that claims the whole block. That the peer has then delivered it holds exactly for
  blocks of at most 31 MTUs, or exactly 32 (`LostEnd.CompletedUndeliveredIff`). In the runs that show it, the
  receiver's full map drops the claim of the segment that ends the block, so the sender repeats the end as a plain
  checkpoint, without the mark; the receiver's report timer gives the session up; and a new session is filled from
  copies of everything but a marked segment, reports all of the block and does not know that it is all.
- Stopping the checkpoint timer (docs/specs/ltp-over-kiss/requirements.md:93): a report stops it exactly when it
  names the serial the timer was started with (`LtpUnanswered.ReportStopsTimerIff`). A resent checkpoint carries a
  new serial and the timer keeps the old one, and a report the peer repeats names none, so neither the answer to
  a resent checkpoint nor a repeated report stops the timer (`LtpUnanswered.ResentCheckpointKeepsTimer`,
  `LtpUnanswered.RepeatedReportsNameNone`). If no report that answers the first checkpoint arrives, the timer runs
  out and closes the session although every later checkpoint was answered (`LtpUnanswered.UnansweredTimerCloses`).
- The retry limit (docs/specs/ltp-over-kiss/requirements.md:94-95): the documents ask for max_retries retransmissions,
  and for the session to be cancelled and the application told when they are used up. A timer fires max_retries times
  in all and the last firing writes nothing (`LtpTimers.QuotaIs`, `LtpTimers.LastFiringIsSilent`), so a checkpoint is
  sent again at most max_retries - 1 times; the session is closed without a cancel segment or a call of the application.
- Stopping a report timer: an acknowledgement is matched by session number and serial alone, not by engine. It stops
  the timer of the report it answers exactly when no timer in an earlier slot has the same two numbers
  (`LtpAcknowledged.ReportAcknowledged`).
- A segment beyond the block (docs/specs/ltp-over-kiss/requirements.md:107): it is discarded only when it reaches beyond
  the 2048-octet session buffer, and then it still opens its session (`LtpRefused.OversizedRefused`).
- Report serials (docs/specs/ltp-over-kiss/design.md:617-621): they strictly increase among the answers of a
  session while it stays open (`LtpSerials.ReportSerialsIncrease`). A report timer repeats the serial it was started
  with, and a session opened again after delivery starts again from 1 (`LtpSerials.AnswerTakesNext`).
- Checking the CRC of a bundle (docs/specs/bundle-protocol/requirements.md:50): the decoder consumes it without
  looking at it; any two octets in its place decode to the same bundle (`Bundle.CrcNotChecked`).
- Endpoint identifiers: an identifier survives encoding and decoding exactly when it starts with `dtn:`
  (`Bundle.EidSurvives`); others come back with the scheme name put in front, or are refused when that does not
  fit.
- Numbers from 2^63 on are written by the SDNV encoder and refused by the decoder (`Sdnv.DecodeEncode`).
- A completed export session stays open and may later be counted as cancelled; an import session is freed at
  delivery, so a late retransmission can open it again and deliver the block again. The theorems therefore speak
  of every delivery, not of exactly one.
- The beacon design speaks of frames of up to 330 octets; the transmitter refuses more than 328, because the
  checksum has to fit the same buffer.

## Model

| member | source | states |
|---|---|---|
| Sdnv.DecodeEncode | kiss-interface/sdnv.c:13-73 | decoding an encoded number, whatever follows it, gives the number back iff it is below 2^63, and an error otherwise |
| Sdnv.EncodePrefixFree | kiss-interface/sdnv.c:13-43 | two encodings that begin the same octet stream encode the same number: the code is self-delimiting |
| Sdnv.EncodeShortest | kiss-interface/sdnv.c:13-43 | no run of base-128 groups with the same value is shorter than the encoding |
| Sdnv.EncodeFitsTen | kiss-interface/sdnv.c:18-36 | the ten-octet temporary holds exactly the numbers below 2^70, and nine octets those below 2^63 |
| Sdnv.SdnvEncode | kiss-interface/sdnv.c:13-43 | the loop and reversal write the encoding at the cursor, or -1 when it does not fit |
| Sdnv.SdnvDecode | kiss-interface/sdnv.c:45-73 | the loop returns the true unbounded value of the first terminated group when it is below 2^63, and an error otherwise: never a wrapped result |
| Sdnv.DecodeTruncated | kiss-interface/sdnv.c:45-73 | an encoding cut short anywhere is refused |
| ClaimMap.AddClaim | kiss-interface/ltp.c:543-590 | the result is again sorted, disjoint, non-adjacent, nonempty and at most sixteen claims |
| ClaimMap.AddClaimCovers | kiss-interface/ltp.c:543-590 | the bytes claimed are the old ones and the new ones, except that a full map the range does not touch stays as it was; no byte is ever forgotten |
| ClaimMap.Canonical | kiss-interface/ltp.c:543-590 | the map is determined by the bytes it claims |
| ClaimMap.FullIffCovers | kiss-interface/ltp.c:1041-1048 | the engine's completion test is full coverage of the block |
| RecvMap.RecvMap.AddClaim | kiss-interface/ltp.c:543-590 | the in-place algorithm, one merging pass, removals and an insertion in the array, leaves the map the specification names |
| RecvMap.RecvMap.MergePass | kiss-interface/ltp.c:552-569 | the merging pass leaves the claims clear of the widened range, in their order |
| RecvMap.MergePassing | kiss-interface/ltp.c:552-569 | one pass is enough: widening by one claim never makes the range reach a claim already passed |
| RecvMap.MergeOutcome | kiss-interface/ltp.c:549-572 | the pass loses no byte, and leaves a full map only when it removed nothing |
| ClaimRoom.NeverDropped | kiss-interface/ltp.c:543-590 | for a block of at most 31 MTUs, or exactly 32, no claim is ever dropped, whatever grid segments and tail checkpoints arrived before |
| LtpAnyOrder.RoomyIff | kiss-interface/ltp.c:543-590 | that bound is exact: on the cut points of a block (MTU multiples, its end, the start of its tail) nothing is ever dropped iff the block is at most 31 MTUs, or exactly 32 |
| LtpAnyOrder.CrowdedDrops | kiss-interface/ltp.c:571-572 | for every other block, a full map and a segment it drops |
| ClaimRoom.RankedCount | kiss-interface/ltp.c:543-590 | separated claims whose ends lie on at most 33 cut points never number more than sixteen |
| LtpSegment.FieldsRoundTrip | kiss-interface/ltp.c:44-266 | a run of numeric fields is read back iff every one of them is below 2^63 |
| LtpSegment.SegmentRoundTrip | kiss-interface/ltp.c:44-510 | header decode then content decode returns every field of every segment the engine can build iff its numbers are below 2^63 and its body fits the receiver's buffer |
| LtpSegment.ExtendedHeader | kiss-interface/ltp.c:287-364 | a header that announces n extensions, each a tag, a length and that many octets, is read back with exactly the body that follows them |
| LtpSegment.ExtensionsSkipped | kiss-interface/ltp.c:325-338 | skipping well-formed extensions leaves exactly what follows them |
| LtpSegment.FitsBothWays | kiss-interface/ltp.c:44-510 | every report of up to sixteen claims, every acknowledgement and cancel, and every data segment of up to 400 octets fits the 512-octet buffers of both sides |
| LtpCodec.EncodeDataSegment | kiss-interface/ltp.c:89-154 | writes the wire form into the buffer, or -1 exactly when it does not fit |
| LtpCodec.EncodeReport | kiss-interface/ltp.c:156-215 | the same for reports and their claims |
| LtpCodec.EncodeReportAck | kiss-interface/ltp.c:217-245 | the same for report acknowledgements |
| LtpCodec.EncodeCancel | kiss-interface/ltp.c:247-280 | the same for cancel segments |
| LtpCodec.DecodeSegment | kiss-interface/ltp.c:287-364 | on any octets: the header with its extensions skipped and the body copied out, or an error for a short, reserved, truncated or oversized segment; never past the end |
| LtpCodec.DecodeDataContent | kiss-interface/ltp.c:366-425 | on any body: the data fields, with serials only for checkpoints, or an error |
| LtpCodec.DecodeReportContent | kiss-interface/ltp.c:427-480 | on any body: the report with at most sixteen claims, or an error |
| LtpCodec.DecodeReportAckContent | kiss-interface/ltp.c:482-500 | on any body: the acknowledged serial, or an error |
| LtpCodec.DecodeCancelContent | kiss-interface/ltp.c:502-514 | on any body: the reason, or an error |
| LtpSegmentation.PiecesExact | kiss-interface/ltp.c:720-747 | cutting a range keeps exactly its bytes, in order, without overlap, in pieces of at most the MTU |
| LtpSegmentation.Segments | kiss-interface/ltp.c:720-747 | one data segment a piece, and exactly the last one is a checkpoint |
| LtpFirstSend.OpensIff | kiss-interface/ltp.c:817-853 | a block opens a session, in the first free slot and under the next number, iff it is not empty, within the limit, and a slot is free; otherwise nothing changes and nothing is sent |
| LtpFirstSend.BlockGoesOut | kiss-interface/ltp.c:688-853 | a block goes out as its length over the MTU, rounded up, segments that cover it in order without gaps, and exactly the last one is the end-of-block checkpoint, of serial 1 |
| LtpFirstSend.FirstMisfitStops | kiss-interface/ltp.c:804-815 | what goes out is the longest run of segments before the first one that does not fit the buffer |
| LtpSegmentation.GapsCover | kiss-interface/ltp.c:878-901 | for separated claims the sweep finds exactly the unclaimed bytes |
| LtpSegmentation.Gaps | kiss-interface/ltp.c:878-901 | never more gaps than claims plus one, so the table of seventeen never overflows |
| LtpSegmentation.MissingExact | kiss-interface/ltp.c:866-960 | retransmitted ranges ascend without overlap, none exceeds the MTU, and together they are exactly the bytes no claim covers |
| LtpSteps.ProcessWire | kiss-interface/ltp.c:966-1306 | a segment that arrives unaltered is handled as itself, or refused when its numbers or size do not decode |
| LtpSteps.ProcessExtended | kiss-interface/ltp.c:287-364 | header extensions, and whatever follows the content, make no difference: the segment is handled as it would be without them iff what follows the header fits the decoder's buffer |
| LtpRefused.TruncatedRefused | kiss-interface/ltp.c:366-514 | a segment whose content is cut short anywhere changes nothing and is not answered |
| LtpRefused.UnknownRefused | kiss-interface/ltp.c:287-364 | green data, reserved types and octets too short for a header change nothing and are not answered |
| LtpRefused.CrowdedReportRefused | kiss-interface/ltp.c:427-480 | a report of more than sixteen claims changes nothing and is not answered |
| LtpRefused.OversizedRefused | kiss-interface/ltp.c:994-1021 | a segment that reaches beyond the session buffer opens its session in the first free slot, if it was not open, and does nothing else |
| LtpRefused.AcceptedIff | kiss-interface/ltp.c:966-1306 | a segment that decodes is reported as handled iff the tables have a place for it |
| LtpRefused.TruncatedNotAccepted | kiss-interface/ltp.c:366-514 | a segment cut short is never reported as handled |
| LtpOutput.AlwaysSigned | kiss-interface/ltp.c:688-1660 | over every run on any input, each segment written is well-formed, fits the buffer, and bears the engine's own identifier, version 0 and no extensions |
| LtpOutput.AnswerSays | kiss-interface/ltp.c:1050-1083 | the report a checkpoint is answered with, field by field: serials, claims, and the block's end as upper bound, or the checkpoint's end while the block's is not known |
| LtpOutput.RepeatSays | kiss-interface/ltp.c:1432-1464 | the report a report timer repeats: the timer's serial, and the session's claims at that time |
| LtpOutput.TailSays | kiss-interface/ltp.c:1394-1431 | what a checkpoint timer sends again: the last MTU's worth of the block as its end, under the session's next serial |
| LtpEngine.LtpEngine.constructor | kiss-interface/ltp.c:652-680 | all tables empty, session numbers from 1 |
| LtpEngine.LtpEngine.StartTimer | kiss-interface/ltp.c:604-629 | the first inactive slot is started with the specification's duration, which `LtpTiming.TimersRunTwoCrossings` shows to be two one-way times and 200 ms; with none free nothing changes |
| LtpEngine.LtpEngine.CancelTimer | kiss-interface/ltp.c:634-646 | the first active timer of that type, session and serial is stopped, and no other |
| LtpEngine.LtpEngine.SendBlock | kiss-interface/ltp.c:817-853 | opens a session, writes the block's segments until one does not fit, arms the checkpoint timer if all did; all tables, the link and the result are those of the specification |
| LtpEngine.LtpEngine.WriteBlock | kiss-interface/ltp.c:688-750 | the segmentation loop writes one segment a cell, the last one the checkpoint that ends the block |
| LtpEngine.LtpEngine.HandleData | kiss-interface/ltp.c:985-1104 | find or open the session, copy, claim, complete, report, arm, deliver and free: the whole new state and everything written and delivered |
| LtpEngine.LtpEngine.HandleReport | kiss-interface/ltp.c:1106-1176 | acknowledge, stop the timer, complete or repeat what is missing and arm a timer: the whole new state and everything written; `LtpAcknowledged.AcksNameReport` says what the acknowledgement names |
| LtpEngine.LtpEngine.RetransmitMissing | kiss-interface/ltp.c:866-960 | writes exactly the missing pieces in order and returns their number |
| LtpEngine.CollectGaps | kiss-interface/ltp.c:878-901 | the bounded table receives every gap |
| LtpEngine.CountPieces | kiss-interface/ltp.c:910-927 | the count made by rounding up each gap is the number of segments written, so the checkpoint flag lands on the last one |
| LtpEngine.LtpEngine.HandleAck | kiss-interface/ltp.c:1178-1191 | stops the report timer it names |
| LtpEngine.LtpEngine.HandleCancel | kiss-interface/ltp.c:1193-1301 | dispatch on the four kinds, as in the specification; what each closes, answers and stops is stated by the laws of `LtpCancel` |
| LtpEngine.LtpEngine.ProcessSegment | kiss-interface/ltp.c:966-1306 | on any octets: state, output, deliveries and return value; what does not parse changes nothing |
| LtpEngine.LtpEngine.FireExpired | kiss-interface/ltp.c:1342-1496 | the sweep over all timer slots and the number of timers fired |
| LtpEngine.LtpEngine.FireSlot | kiss-interface/ltp.c:1351-1492 | one slot: untouched unless expired, session closed on the last retry, otherwise resent and rearmed |
| LtpEngine.LtpEngine.NextTimeout | kiss-interface/ltp.c:1316-1340 | to the millisecond, the time until the first timer expires: some timer has expired when it is over and none before; -1 when no timer is running |
| LtpEngine.LtpEngine.CancelSession | kiss-interface/ltp.c:1624-1660 | the session is marked, a cancel segment written and its timer started |
| TwoPartySafety.RunInvariant | kiss-interface/ltp.c:688-1496 | every reachable state of two engines over a lossy, duplicating, reordering network satisfies the invariant: every emitted segment is a slice of its block, every claimed byte has been copied, every report tells the truth |
| TwoPartySafety.DeliveredIsSent | kiss-interface/ltp.c:1092-1101 | every block delivered for a session, over every run, is byte for byte the block the peer segmented under that session number |
| TwoPartySafety.CompletedIsHeld | kiss-interface/ltp.c:1147-1165 | for either party: when an export session is completed, some earlier state had the peer claim and hold the whole block; and for blocks of at most 31 MTUs, or exactly 32, it has delivered it |
| LostEnd.CompletedUndeliveredIff | kiss-interface/ltp.c:1037-1048 | for every block and MTU: a run exists in which the block's session is completed at the sender and the block never delivered iff the block is longer than 31 MTUs and not exactly 32 |
| LostEnd.LongLost | kiss-interface/ltp.c:571-572 | such a run for every block of more than 32 MTUs |
| LostEnd.MiddleLost | kiss-interface/ltp.c:1404-1431 | such a run for every block between 31 and 32 MTUs, where it takes the tail checkpoint of the timer |
| TwoPartySafety.BlocksKept | kiss-interface/ltp.c:705-713 | for either party: a session number, once used, keeps its block for the rest of the run |
| TwoPartySafety.HeldMeans | kiss-interface/ltp.c:1023-1048 | a session recorded as held was really held in some state of the run |
| LtpDiscipline.AlwaysDisciplined | kiss-interface/ltp.c:688-1496 | over every run on any input: open sessions have distinct numbers, at most one import slot per engine and session, and checkpoint serials of a session strictly increase across first send, retransmission and timer |
| LtpSerials.SessionsNeverReused | kiss-interface/ltp.c:705-713 | over every run on any input: of two sessions an engine opens, the later one has the larger number |
| LtpSerials.OpensNext | kiss-interface/ltp.c:688-713 | on any input: only sending a block opens a session, it takes the next number, and the counter moves past it and never goes back |
| LtpSerials.ReportSerialsIncrease | kiss-interface/ltp.c:1016-1063 | over every run on any input: of two reports answering checkpoints into one import slot that stays in use between them, the later one is of the same session and has the larger serial |
| LtpSerials.SlotRises | kiss-interface/ltp.c:985-1063 | while an import slot stays in use it stays with its session, and the session's next report serial never goes back |
| LtpSerials.AnswerTakesNext | kiss-interface/ltp.c:1016-1063 | an answer takes the session's next serial, 1 if the checkpoint opens the session |
| LtpDiscipline.ReportSerialsRise | kiss-interface/ltp.c:1063 | the single step of it: on any input, no open import session's report serial goes back |
| LtpDiscipline.DataRises | kiss-interface/ltp.c:1050-1090 | the single step of it: a report carries its session's next serial, and the session moves past it |
| LtpTimers.ExpirySpends | kiss-interface/ltp.c:1342-1496 | a round of expiries spends one unit of the remaining firings for each timer it fires and starts no timer |
| LtpTimers.BoundedFirings | kiss-interface/ltp.c:1342-1496 | without new traffic the number of firings, however often the timers are polled, is bounded by the budget at the start |
| LtpTimers.Quiescent | kiss-interface/ltp.c:1342-1496 | after as many spaced polls as a timer has firings, no timer is active |
| LtpTimers.QuotaIs | kiss-interface/ltp.c:1361-1386 | a timer fires max_retries times in all, and at least once |
| LtpTimers.LastFiringIsSilent | kiss-interface/ltp.c:1361-1386 | the firing that uses up the limit stops the timer and writes nothing; every other one leaves it running |
| LtpTimers.LastFiringCloses | kiss-interface/ltp.c:1361-1386 | the last firing of a checkpoint timer closes the export session of its number, that of a report timer the import session, that of a cancel timer none, and nothing else changes |
| LtpTiming.TimersRunTwoCrossings | kiss-interface/ltp.c:604-629 | on every input, each timer running afterwards is one that ran before, unchanged, or expires exactly two one-way times and 200 ms after the input |
| LtpTiming.UntouchedUntilDue | kiss-interface/ltp.c:1342-1496 | a checkpoint timer is unchanged until it expires, whatever the engine receives but a report naming its serial, and however often its timers are polled |
| LtpTiming.ReportInTime | kiss-interface/ltp.c:604-1176 | a report whose two crossings take at most a one-way time each finds the timer of its checkpoint running and never yet expired |
| LtpUnanswered.ReportStopsTimerIff | kiss-interface/ltp.c:1106-1176 | handling any report on an open session: its checkpoint timer is stopped iff the report names the serial the timer was started with, and otherwise untouched |
| LtpUnanswered.AnswersNameSerial | kiss-interface/ltp.c:1054-1064 | whatever report a peer writes on receiving a checkpoint as octets names that checkpoint's serial |
| LtpUnanswered.RepeatedReportsNameNone | kiss-interface/ltp.c:1432-1460 | a report repeated by a report timer names no checkpoint |
| LtpUnanswered.ResentCheckpointKeepsTimer | kiss-interface/ltp.c:1404-1431 | when a timer resends its checkpoint, no report by which any peer answers the resent one stops the timer |
| LtpUnanswered.InputPasses | kiss-interface/ltp.c:634-1496 | no input but expiry, or a report naming its serial, touches a running checkpoint timer |
| LtpUnanswered.UnansweredTimerCloses | kiss-interface/ltp.c:1351-1431 | over every run without a report naming the serial it was started with: each expiry of a checkpoint timer uses up one firing, and the last one closes its session for good |
| LtpTimerRuns.AlwaysArmed | kiss-interface/ltp.c:604-1496 | over every run on any input, each active timer has between one and its quota of firings left and a checkpoint timer's serial is one its session has moved past |
| LtpTimerRuns.SentBlockIsTimed | kiss-interface/ltp.c:817-853 | a block sent in full starts exactly one timer, for its session and its checkpoint's serial |
| LtpAcknowledged.ReportAcknowledged | kiss-interface/ltp.c:1050-1191 | checkpoint, report and acknowledgement, as octets: the acknowledgement stops the timer the report was written with, unless an earlier slot times the same session number and serial; every other timer and both session tables stay as they were |
| LtpAcknowledged.ReportIsTimed | kiss-interface/ltp.c:1050-1090 | an answering report is timed in the first free slot, under its session and serial |
| LtpAcknowledged.AcksNameReport | kiss-interface/ltp.c:1123-1142 | whatever acknowledgement is written on a report names its session and serial, in the sender's name |
| LtpAcknowledged.OneAck | kiss-interface/ltp.c:1123-1142 | for an open session exactly one acknowledgement is written, and first |
| LtpAcknowledged.AckStops | kiss-interface/ltp.c:1178-1191 | an acknowledgement stops the first timer of its report and does nothing else |
| LtpAcknowledged.RepeatNamesTimer | kiss-interface/ltp.c:1432-1464 | the report a timer repeats has the timer's session and serial, so the acknowledgement of it stops the same timer |
| LtpAcknowledged.RepeatIsTimed | kiss-interface/ltp.c:1166-1172 | a checkpoint that answers a report is timed under its own serial |
| LtpAcknowledged.NeverTimedAgain | kiss-interface/ltp.c:604-1191 | over every run on any input: while a session is in use, no timer comes back for a report it has moved past |
| LtpAcknowledged.AcknowledgedNotGivenUp | kiss-interface/ltp.c:1376-1384 | over every run on any input: once no timer of a report is running, as after its acknowledgement, its session is not given up because of that report |
| LtpCancel.CancelBySender | kiss-interface/ltp.c:1193-1230 | a cancel by the sender closes the import session it names and no other, and is answered by exactly one segment |
| LtpCancel.CancelAckToSender | kiss-interface/ltp.c:1232-1247 | its answer closes the export session and stops its first cancel timer, and is not answered |
| LtpCancel.CancelByReceiver | kiss-interface/ltp.c:1249-1285 | a cancel by the receiver closes the export session it names and no other, and is answered by exactly one segment |
| LtpCancel.CancelAckToReceiver | kiss-interface/ltp.c:1287-1302 | its answer closes the import session and stops its first cancel timer, and is not answered |
| LtpCancel.SessionCancelled | kiss-interface/ltp.c:1624-1660 | cancelling marks the session, writes exactly one segment and times it in the first free slot |
| LtpCancel.CancelExchange | kiss-interface/ltp.c:1193-1660 | both parties, as octets: cancelling, its segment received, the answer received back; the export session is closed, the peer's import session is closed, the cancel timer is stopped, and nothing else has changed |
| LtpCancel.CancelRepeated | kiss-interface/ltp.c:1465-1482 | a cancel timer repeats the segment the cancelling wrote |
| LtpAnyOrder.RebuiltInAnyOrderIff | kiss-interface/ltp.c:1023-1048 | a fresh session rebuilds the block from its segments in every order iff the block is at most 32 MTUs long |
| LtpAnyOrder.SmallBlockRebuilt | kiss-interface/ltp.c:1023-1048 | such a block is rebuilt, known complete and equal to the original, in each order |
| LtpAnyOrder.LargeBlockFails | kiss-interface/ltp.c:571-572 | for every longer block there is an order in which it is not rebuilt |
| LtpAnyOrder.ClaimsAccurateIff | kiss-interface/ltp.c:543-590 | the claims are exactly the bytes received, for any segments of a block in any order with any repetition, iff the block is at most 32 MTUs long |
| LtpAnyOrder.AllReceived | kiss-interface/ltp.c:543-590 | for such a block, any subset of its segments in any order with any duplicates claims exactly the bytes that arrived |
| LtpConvergence.OneRoundIff | kiss-interface/ltp.c:866-960 | one loss-free report and retransmission completes the map iff it has a free claim or its first claim starts within one MTU |
| LtpConvergence.TwoRounds | kiss-interface/ltp.c:866-960 | two loss-free rounds always complete the map |
| LtpConvergence.FirstRoundLeavesOne | kiss-interface/ltp.c:543-590 | a full map far from the start is left by the round with one claim, reaching the block's end |
| LtpRound.ReceiveOne | kiss-interface/ltp.c:985-1104 | one segment of the block received as octets, its claim dropped or not: nothing but the block is delivered, a plain segment is not answered, a checkpoint is answered by one report of the new claims |
| LtpRound.OneRound | kiss-interface/ltp.c:866-1176 | a report received as octets, everything the sender writes in answer received segment by segment: one report, of exactly the claims after the round, with lower bound 0 and the block's length as upper; and the block delivered once, or nothing delivered and all in place for the next round |
| LtpRound.RoundDelivers | kiss-interface/ltp.c:1023-1176 | one such round delivers the block, once, byte for byte, iff there was room at the start |
| LtpRound.TwoRoundsDeliver | kiss-interface/ltp.c:866-1176 | from any map: the first round delivers the block, or delivers nothing and ends in the report whose round does; and the report that goes with the delivery completes the session at the sender |
| LtpRound.CheckpointReports | kiss-interface/ltp.c:1050-1090 | the report a checkpoint makes the receiver write is one such rounds start from |
| LtpRound.TimerReports | kiss-interface/ltp.c:1432-1464 | so is the report its report timer writes, also while the block's end is not known |
| LtpRoundRuns.ReachableRounds | kiss-interface/ltp.c:866-1176 | in every reachable state of the two-party system, for either direction: an open import session that knows its block's length, and a report of it received by the peer; at most two rounds, and the block is delivered once |
| Fcs.ComputeFcs | kiss-interface/nrzi.c:11-24 | the word-at-a-time loop computes the check bits of the bit-serial register |
| Fcs.WordShift | kiss-interface/nrzi.c:16-21 | one machine shift with conditional exclusive-or is one shift of the register with its taps |
| CrcPolynomial.SerialIsRemainder | kiss-interface/nrzi.c:11-24 | from any initial register, the register after a message is the remainder of its division by x^16 + x^12 + x^5 + 1 |
| CrcPolynomial.CheckBitsAreRemainder | kiss-interface/nrzi.c:11-24 | the check bits, complemented, are the remainder of the message after sixteen ones |
| Polynomial.RemainderUnique | kiss-interface/nrzi.c:11-24 | division of bit sequences, defined by products alone, leaves one remainder |
| Fcs.Residue | kiss-interface/afsk_demod.c:135-140 | the receiver's comparison of two check words is a test of the register after all the bits |
| Fcs.Undetected | kiss-interface/afsk_demod.c:135-140 | an altered word passes iff the alteration alone leaves the register at zero |
| Fcs.BurstDetected | kiss-interface/afsk_demod.c:135-140 | any nonzero alteration confined to sixteen consecutive bits, check bits included, is detected |
| Fcs.OddDetected | kiss-interface/afsk_demod.c:135-140 | any odd number of flipped bits is detected |
| Nrzi.BytesToBits | kiss-interface/nrzi.c:29-40 | the bits of every octet, least significant first, or nothing when they do not fit |
| Nrzi.BitStuff | kiss-interface/nrzi.c:45-65 | the loop writes the stuffed bits, or -1 when they do not fit |
| Nrzi.BitDestuff | kiss-interface/nrzi.c:70-88 | the loop writes the destuffed bits, or -1 when they do not fit |
| Nrzi.DestuffStuff | kiss-interface/nrzi.c:45-88 | destuffing undoes stuffing |
| Nrzi.StuffShape | kiss-interface/nrzi.c:45-65 | n bits stuff to between n and n + n/5, with no run above five ones and fewer than five at the end |
| Nrzi.NoSixOnes | kiss-interface/nrzi.c:45-65 | among any six consecutive stuffed bits there is a zero |
| Nrzi.BitstreamFits | kiss-interface/nrzi.c:93-150 | every accepted frame fits all intermediate buffers and 3832 output bits |
| Nrzi.FrameToBitstream | kiss-interface/nrzi.c:93-150 | writes flags, stuffed frame and checksum, flags; never fails for 16 to 328 octets and 4096 slots; `FrameRoundTrip.FixedIs` says what the frame in it is |
| Nrzi.NrziEncode | kiss-interface/nrzi.c:154-165 | a zero toggles the level, a one holds it |
| Nrzi.NrziDecode | kiss-interface/nrzi.c:171-182 | a held level is a one, a changed one a zero |
| Nrzi.NrziRoundTrip | kiss-interface/nrzi.c:154-182 | decoding undoes encoding |
| Nrzi.NrziAnyStart | kiss-interface/nrzi.c:154-182 | from any starting level only the first bit can come out wrong |
| FrameDetector.FrameDetector.Feed | kiss-interface/afsk_demod.c:73-175 | one NRZI level: register, state, gathered bits and delivered frames are those of the state machine |
| FrameDetector.FrameDetector.CloseFrame | kiss-interface/afsk_demod.c:106-149 | a closing flag drops seven bits, destuffs the rest and delivers it iff it is long enough and its checksum is right |
| FrameDetector.FrameDetector.Gather | kiss-interface/afsk_demod.c:150-170 | a bit is gathered unless the frame overflows or seven ones in a row abort it |
| FrameDetector.FrameDetector.Clean | kiss-interface/afsk_demod.c:205-216 | reset returns to the initial state |
| FrameDetector.CheckFrame | kiss-interface/afsk_demod.c:119-146 | packing the octets and comparing the two check words accepts exactly the words whose last sixteen bits check the rest |
| FrameRoundTrip.FlagLocks | kiss-interface/afsk_demod.c:84-149 | eight bits that make a flag lock the detector whatever it was doing |
| FrameRoundTrip.ContentRun | kiss-interface/afsk_demod.c:92-170 | between flags, content without six ones in a row is gathered exactly and tested as a frame once |
| BetweenFlags.ClosedByFlag | kiss-interface/afsk_demod.c:92-170 | any bits at all between two flags: all but the last seven are destuffed and tested once, iff they fit and no bit followed seven ones; nothing comes out otherwise |
| BetweenFlags.Between | kiss-interface/afsk_demod.c:92-170 | up to the closing flag they are gathered, or dropped for good |
| FrameRoundTrip.FixedIs | kiss-interface/nrzi.c:93-106 | what goes out is the frame, octet for octet, but for the high three bits of octets 6 and 13, which are set |
| FrameRoundTrip.Received | kiss-interface/afsk_demod.c:73-175 | from every detector state and line level, a transmitted frame is delivered exactly once, octet for octet but for the reserved bits of its SSID octets, which come out set, after at most what was already being gathered |
| FrameRoundTrip.ReceivedExactly | kiss-interface/afsk_demod.c:73-175 | a detector not in mid-frame delivers that frame, octet for octet but for those bits, and nothing else |
| FrameRoundTrip.BothPolarities | kiss-interface/nrzi.c:154-165 | from reset, the stream and its complement both deliver the frame once |
| FrameRoundTrip.AllReceived | kiss-interface/afsk_demod.c:73-175 | a run of transmissions delivers every frame, in order, once, and nothing else |
| FrameRoundTrip.DeliveredChecks | kiss-interface/afsk_demod.c:119-146 | a gathered run is delivered as a frame iff the frame has 16 to 328 octets and the run is the frame, its own checksum and at most seven spare bits |
| FrameRoundTrip.AlteredRefused | kiss-interface/afsk_demod.c:135-145 | a transmitted frame altered by such a burst or an odd number of flips is not delivered |
| Kiss.KissEncode | kiss-interface/kiss.c:14-60 | writes the frame, or -1 exactly when it does not fit |
| Kiss.FrameShape | kiss-interface/kiss.c:14-60 | a data command for port 0, delimiters at both ends of a frame and nowhere else, three octets of framing and at most one escape an octet |
| Kiss.KissDecoder.Feed | kiss-interface/kiss.c:76-152 | one octet: state, return value and payload handed out are those of the state machine |
| Kiss.FrameRun | kiss-interface/kiss.c:76-152 | from every reachable state, mid-escape included, an encoded frame yields exactly its payload, iff it has at most 65535 octets and fits the caller's buffer |
| Kiss.Resynchronises | kiss-interface/kiss.c:76-152 | after any garbage, a run of frames decodes to exactly its payloads in order |
| Kiss.AnyFrame | kiss-interface/kiss.c:76-152 | whatever stands between two delimiters is delivered as what it stands for iff its first octet is a data command, on any port, and it fits |
| Kiss.UnescapeStuff | kiss-interface/kiss.c:14-60 | a stuffed payload stands for the payload |
| Cbor.HeadRoundTrip | kiss-interface/cbor.c:5-77 | every head, of any major type and any 64-bit argument, is read back whatever follows it |
| Cbor.HeadShortest | kiss-interface/cbor.c:5-45 | the encoder's head is no longer than any head the decoder reads as the same |
| Cbor.TextRoundTrip | kiss-interface/cbor.c:84-153 | byte and text strings are read back and exactly consumed |
| Cbor.PutHead | kiss-interface/cbor.c:5-45 | writes the head, or -1 exactly when it does not fit |
| Cbor.PutText | kiss-interface/cbor.c:84-100 | writes head and octets, or -1 exactly when they do not fit |
| Crc16.Compute | kiss-interface/bp.c:27-38 | the loop over octets and bits is the register fold, which `CrcPolynomial.CrcIsRemainder` shows to be the remainder |
| CrcPolynomial.CrcIsRemainder | kiss-interface/bp.c:27-38 | the CRC of any octets is the remainder of their bits, highest first, after sixteen ones, divided by x^16 + x^12 + x^5 + 1 |
| CrcPolynomial.CrcBurst | kiss-interface/bp.c:27-38 | octet strings of one length that differ in a burst within sixteen consecutive bits have different CRCs |
| CrcPolynomial.CrcOdd | kiss-interface/bp.c:27-38 | so have those that differ in an odd number of bits |
| CrcPolynomial.RegisterIsSerial | kiss-interface/bp.c:27-38 | the octet loop, with its shifts of the word, computes the bit-serial register |
| Bundle.PrimaryCrc | kiss-interface/bp.c:99-176 | the last two octets of the primary block are that remainder of the block with zeros in their place |
| Bundle.PrimaryCrcDiffers | kiss-interface/bp.c:99-176 | two primary blocks of one length that differ by such a burst, or in an odd number of bits, carry different CRCs |
| Bundle.EidRoundTrip | kiss-interface/bp.c:43-95 | an identifier comes back with its scheme name, or is refused when that does not fit 64 octets |
| Bundle.EidSurvives | kiss-interface/bp.c:43-95 | it comes back unchanged iff it starts with the scheme name |
| Bundle.BundleRoundTrip | kiss-interface/bp.c:99-361 | decoding recovers flags, identifiers, timestamp, lifetime, fragment fields and payload and consumes exactly the encoding iff both identifiers have the scheme name |
| Bundle.FramedRoundTrip | kiss-interface/bp.c:99-361 | what decoding yields for all other identifiers, whatever the CRC octets are |
| Bundle.CrcNotChecked | kiss-interface/bp.c:321-326 | the result does not depend on the CRC octets |
| Bundle.WellFormed | kiss-interface/bp.c:99-253 | every encoding is exactly one well-formed CBOR item: each announced array count is the number of items written |
| BundleGrammar.DecodesIff | kiss-interface/bp.c:255-361 | exactly which octets decode as which bundle: an opening bracket, items that spell it, a closing bracket; so every other version, scheme, array length and item type is refused |
| BundleGrammar.EncodingSpells | kiss-interface/bp.c:99-253 | what an encoding says item by item: nine or eleven items, CRC type 1 and the block's CRC, and a payload block of type 1, number 1, without flags or CRC |
| Bundle.FitsBlock | kiss-interface/bp.c:228-253 | a bundle with at most 512 octets of payload fits one LTP block |
| BundleCodec.EncodeBundle | kiss-interface/bp.c:205-253 | the cursor writes the encoding, or -1 exactly when it does not fit |
| BundleCodec.PutPrimary | kiss-interface/bp.c:99-176 | the CRC is computed with zeros in its place and patched in |
| BundleCodec.DecodeBundle | kiss-interface/bp.c:255-361 | on any octets: the bundle and the number of octets consumed, or -1 |
| Reassembly.ReassemblyContext.Add | kiss-interface/bp.c:374-411 | one fragment: activation, the refusals, the copy, the flags and the result; the counter stays the number of set flags |
| Reassembly.CountAtMost | kiss-interface/bp.c:410 | the counter reaches the payload length exactly when every flag below it is set |
| Reassembly.Reassembled | kiss-interface/bp.c:374-411 | fragments in any order, overlapping and repeated: none refused, the call returns 1 iff the pieces so far cover the payload, and then the data is the payload |
| Reassembly.OctetsReassembled | kiss-interface/bp.c:228-411 | the same from encoded octets through the decoder |
| AnyFragments.NeverMixed | kiss-interface/bp.c:374-411 | fed with any bundles at all, the context is about the first fragment's payload and holds, octet by octet, what the last fragment of that payload brought, and nothing of any other |
| AnyFragments.Returned | kiss-interface/bp.c:374-411 | a call returns -1 iff its bundle does not belong to that payload or fit it, and 1 iff every octet of the payload has then been received |
| Reassembly.CutCount | kiss-interface/bp.c:363-367 | the fragment count is the number of fixed-size cells |
| Reassembly.CutCells | kiss-interface/main.c:1362-1370 | the cells are inside the payload, not empty, apart, and together all of it |
| Reassembly.AllCells | kiss-interface/main.c:1362-1370 | fixed-size fragments cover the payload iff each has been received at least once |

## Left out

- LtpState.ConfigOk: a configuration with a zero MTU, on which the segmentation loop does not end, or with a block limit above the 2048-octet session buffers is excluded.
- Serial ports, pacing, signals, the event loop and the command line: writing a segment appends to a list, and AX.25 and KISS wrapping inside the paced write is not part of the link model.
- The demodulator's correlator, clock recovery and every other part over floating-point samples: the receive model starts at NRZI levels.
- The statistics counters of the engine.
- LtpEngine.LtpEngine.NextTimeout: the truncation to a C int of a wait of more than 24 days.
- Wrap-around of 64-bit session numbers and serials, and 32-bit truncation of lengths, which need 2^64 sessions or blocks beyond the 2048-octet buffers.
- More than two communicating engines: timers and export look-ups go by session number alone, so the safety theorems are stated for two.
- The endpoint registry and the hash that turns identifiers into engine numbers: engine numbers are parameters.
- Sessions and timers are values held in slots that are overwritten; a pointer kept to a slot across calls is not modelled.
- LtpSegmentation.Slice: a range beyond the session buffer, which only a forged report can ask for, has no bytes in the model, where the code would read past the buffer.
- LtpSerials.ReportSerialsIncrease: stated for answers to checkpoints while the session stays open; the repeats of a report timer reuse a serial, and a session opened again starts from 1.
- TwoPartySafety.CompletedIsHeld: that a completed block has also been delivered is stated for blocks of at most 31 MTUs, or exactly 32, which is exactly where it holds.
- LtpRound.TwoRoundsDeliver: stated for MTUs of at most 400 and identifiers and serials below 2^63, so that every segment of a round fits the 512-octet buffers and decodes; and for rounds in which nothing is lost.
- FrameDetector.CheckFrame: a destuffed run of more than 330 octets is dropped, where the code would go past its frame buffer.
- FrameDetector.FrameDetector: one polarity an object; the demodulator runs two of them side by side on opposite levels.
- Kiss: the command frame builder and null pointers.
- Cbor.TakeText: string lengths within nine of 2^64 are too long in the model, where the code's sum wraps.
- Cbor.SkipItem: indefinite-length strings and maps, which nothing here writes, are not accepted as items.
- Bundle.TakeEid: identifiers are octet strings without a zero octet, as C strings are; the decoder's truncation at an embedded zero is not modelled.
- Reassembly.AddFragment: fragment offsets near 2^64, whose sum with the length wraps in the code, are refused in the model.
- Bundle lifetimes are carried and never expire a fragment, as in the code.
- APRS, beacon, ping and UHD code, the Python duplicates of the framing code and the ION adapter.

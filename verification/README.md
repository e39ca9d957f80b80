# Type A block protocol: a verified model

The repository talks ISO/IEC 14443 type A as a reader (PCD) and as a card (PICC). This
project models both ends of it in Dafny, from REQA to the exchange of APDUs, and proves
what the two do together: the reader finds the card's UID, both sides settle on the same
frame sizes, and every command and every response arrives once and in order, although
the link may lose frames.

## How the model is built

A block is handled in three layers, and each has the same shape: a machine as a
function of its state and of what arrives, and a class that is the program's own object,
with loops and fields, whose methods are proved to walk that machine.

* `Protocol.dfy` is the handler of one side. `Reads` says what a block means to a role
  under the numbering Rules A to E and the block rules; `Process` gives the effect.
  `ProtocolRuns.dfy` has what holds over whole runs of calls.
* `PcdLayer.dfy` and `PiccLayer.dfy` are the sessions. Their transceivers are scripts: what will
  be received, in order, a failure included. `PcdRuns.dfy` and `PiccRuns.dfy` have what
  holds against any peer whatever: work, sizes, chunks, repetitions.
* `SpecPeers.dfy` and `SpecReaders.dfy` are a card and a reader that apply the rules of
  sections 7.5.3 and 7.5.4 of ISO/IEC 14443-4 to the letter. `SpecRuns.dfy` follows the
  program's reader and that card block by block, `SpecFrames.dfy` frame by frame, through
  the checks and parsers of both; `SpecReaders.dfy` does the same for that reader and the
  program's card.
* `Link.dfy` joins the program's reader and the program's card, byte for byte, by a link
  that may lose any frame either way. `Link.CardFollows` shows that the card, with its
  application, is the card of the rules as long as it answers, and when it does; so a card
  that has given up is a card of the rules whose requests are lost. `LinkRuns.dfy` carries
  safety over, `LinkBudgets.dfy` accounts for what each frame costs the card, and
  `LinkLive.dfy` says when an exchange completes. `Joined.dfy` and `Sessions.dfy` bring
  this to the classes: the scripts are what the other side sends. `Reactivation.dfy` is
  one run of the card through two activations.
* `Crc.dfy`, `CrcTheory.dfy`, `Blocks.dfy`, `Commands.dfy`, `Codings.dfy` and
  `AnswerToSelect.dfy` are the codecs the protocol rests on, `Layouts.dfy` what their
  bytes are by the tables and figures of the standards; `Carriage.dfy` is what becomes of a block between
  the two handlers. `Uids.dfy`, `Activation.dfy` and `ActivationRuns.dfy` are the UID
  cascade, activation and RATS.

Bytes are eight-bit vectors, the counters are integers within their types and saturate
as the code has them do, and a block number is 0 or 1.

Loops that sit inside another loop have a method of their own: `Picc.TakeFrame` is the
body of the loop of `receive_command`, `Picc.AwaitAck` the inner loop of
`send_response`, `Activation.DoLevel` one cascade level of `do_activate`.

## Where a promise holds only under a condition

The code is modelled as it is. Some promises hold under a condition that a caller can
check, and the condition is proved exact:

* `max_frames` is documented to bound an exchange whatever the peer sends
  (`src/type_a/limits.rs:72-75`). S(DESELECT) clears the counters while `collect_response`
  goes on, so on the reader's side the work is bounded exactly when the budget is below
  65535 and below the number of command chunks, that is, too small for the exchange to
  succeed: `PcdRuns.WorkBoundedIff`. Against peers that send no S(DESELECT) there is a
  bound exactly when the budget is below 65535, the counter being one that saturates:
  `PcdRuns.QuietWorkBoundedIff`. So it is on the card's side, where S(DESELECT) ends the
  call: `PiccRuns.ReceiveBoundedIff`.
* `max_retransmissions` is documented to bound how often a block is sent again
  (`src/type_a/limits.rs:77-80`). The reader keeps to it exactly when the limit is below
  255, or the command is one chunk, or `max_frames` is at most 255:
  `PcdRuns.SendsBoundedIff`.
* The block that Rule 11 repeats is kept across activations (`src/type_a/picc.rs:160`,
  `src/type_a/picc.rs:420-447`). Every frame of `receive_command` fits the FSD exactly when
  that block does, or the limits allow for no repetition: `PiccRuns.ReceiveFitsIff`. A card
  set up again with a smaller FSD gets there: `Reactivation.RepeatsOverlong`.
* An exchange over a link that loses no more than the reader can recover succeeds exactly
  when the budgets cover it: `SpecFrames.SucceedsIffCovered`, `LinkLive.ExchangeSucceedsIff`.
* An ATS of more than 255 bytes wraps its length byte, and the reader rejects it:
  `ActivationRuns.RatsSettles`.
* A SELECT for a last UID part that starts like the cascade tag parses as another one:
  `Commands.SelectRoundTripIff`.

## Model

| member | source | states |
|---|---|---|
| Crc.CrcA | src/type_a/crc.rs:8-24 | the byte and bit loops give the epilogue of the bit-serial shift register with preset 0x6363 over the bits in the order of transmission |
| Crc.SplitCrcA | src/type_a/crc.rs:33-44 | the data of a frame whose last two bytes are their CRC, the length error, or the error with the right CRC |
| Crc.AppendCrcA | src/type_a/crc.rs:46-53 | the data followed by its CRC, low byte first |
| Crc.SplitOfAppend | src/type_a/crc.rs:33-53 | splitting undoes appending |
| Crc.RegisterIsClock | src/type_a/crc.rs:12-21 | mixing in a whole byte (or up to 16 bits) at once and then shifting is feeding its bits one by one |
| CrcTheory.AcceptsIffResidueZero | src/type_a/crc.rs:33-44 | a frame is accepted exactly when it has two bytes or more and the register over all of it is zero |
| CrcTheory.SplitIffAppended | src/type_a/crc.rs:33-53 | splitting gives `data` for the frame made of `data` and for no other |
| CrcTheory.RightCrcIsNamed | src/type_a/crc.rs:33-44 | a refused frame comes with the CRC its data should have carried |
| CrcTheory.LastPairIsOneToOne | src/type_a/mod.rs:551-560 | after any prefix the last two data bytes and the CRC determine each other, and every CRC is reached |
| CrcTheory.BurstDetected | src/type_a/crc.rs:8-44 | an accepted frame with an error burst of at most 16 bits, at any bit, CRC included, is rejected |
| CrcTheory.RegisterIsRemainder | src/type_a/crc.rs:8-24 | the register is a remainder of the preset message polynomial divided by x^16 + x^12 + x^5 + 1 |
| CrcTheory.RemainderIsUnique | src/type_a/crc.rs:8-24 | that division has one quotient and one remainder, so the CRC is the remainder |
| Blocks.PcbToByte | src/type_a/pcb.rs:221-271 | the control byte: type, subtype, following bits and number where the figures put them |
| Blocks.ToBytesWithoutCrc | src/type_a/block.rs:75-97 | control byte with the following bits set from the fields, CID, NAD, payload |
| Blocks.ToVec | src/type_a/block.rs:99-102 | the same with the epilogue |
| Blocks.FromCrcVerified | src/type_a/block.rs:113-171 | the offset walk reads the layout, error by error in the code's order |
| Blocks.BlockRoundTrip | src/type_a/block.rs:75-181 | parsing the printed form of a well-formed block gives back every field but the raw flags, with and without the epilogue |
| Blocks.ParsedRoundTrip | src/type_a/block.rs:75-181 | only well-formed blocks are parsed, and printing one gives the input back but for the unused half of the CID byte |
| Layouts.BlockLayout | src/type_a/pcb.rs:29-49 | on the air the control byte is the sum of the weights of type, subtype, chaining, CID, NAD and number, and CID, NAD and payload follow in that order |
| Layouts.BlockErrors | src/type_a/block.rs:113-171 | a CID of 15, a NAD that has no place and a field cut off are refused, each with its error |
| AnswerToSelect.ToBytes | src/type_a/ats.rs:29-64 | the bytes pushed and the length patched in at the end are TL, T0, the interface bytes and the historical bytes |
| AnswerToSelect.FromCrcVerified | src/type_a/ats.rs:100-149 | the cursor reads the transmitted bytes and defaults the others, error by error |
| AnswerToSelect.AtsRoundTrip | src/type_a/ats.rs:29-149 | printing and parsing keeps the format, every transmitted byte and the historical bytes; the rest are defaults; TL is the number of bytes |
| AnswerToSelect.AtsParsedRoundTrip | src/type_a/ats.rs:29-149 | parse, print, parse is parse, but for TL when it was 1 |
| AnswerToSelect.BytesRead | src/type_a/ats.rs:100-142 | of an accepted body, TA(1), TB(1), TC(1) are the bytes T0 announces, in that order, with exactly the undefined bits cleared, and their defaults otherwise; the rest is historical |
| Layouts.AtsAccepted | src/type_a/ats.rs:100-184 | a body is accepted exactly when TL is its length, FSCI is defined, every announced byte is there and no half of TB(1) is 15 |
| Layouts.SizesAreTheTable | src/type_a/ats.rs:186-220 | FSCI and FSDI stand for the nine sizes of the table and no others |
| Layouts.PpsForms | src/type_a/pps.rs:35-56 | a PPS request carries parameter 1 exactly when parameter 0 says so; without it the divisors are 1 |
| Commands.UidClRoundTrip | src/type_a/anticol_select.rs:16-107 | the five bytes of a cascade level come back exactly when a last part does not start like the cascade tag |
| Commands.BlocksStandApart | src/type_a/mod.rs:200-247 | no well-formed block starts like REQA, WUPA, SEL, HLTA, RATS or PPS |
| Commands.CommandRoundTrip | src/type_a/mod.rs:168-302 | every well-formed command but anticollision comes back from its frame, whoever checks the CRC |
| Commands.SelectRoundTripIff | src/type_a/mod.rs:185-229 | SELECT comes back exactly when its last part does not start like the cascade tag |
| Layouts.LongCommandParses | src/type_a/mod.rs:215-229 | a seven-byte command is SELECT when all forty bits count and anticollision of the same part otherwise |
| Layouts.AntiCollisionParses | src/type_a/mod.rs:200-210 | a two-byte anticollision command keeps its level and its valid bits |
| Layouts.SelectsWhatItHeard | src/type_a/activation.rs:122-150 | the frame the reader selects with is SELECT of the part it heard, at its level |
| Chunking.ChunksAreMinimal | src/type_a/pcd.rs:190-193 | the chunks join up to the APDU, are full but for the last, and as few as can be |
| Protocol.ProtocolHandler.WithLimits | src/type_a/protocol.rs:96-106 | a new handler starts at its role's number with nothing assembled or counted |
| Protocol.ProtocolHandler.SetLimits | src/type_a/protocol.rs:118-120 | replaces the limits and nothing else |
| Protocol.ProtocolHandler.ToggleBlockNumber | src/type_a/protocol.rs:131-133 | the other number, nothing else |
| Protocol.ProtocolHandler.ResetCounters | src/type_a/limits.rs:113-115 | all counters at zero |
| Protocol.ProtocolHandler.NoteProgress | src/type_a/limits.rs:119-122 | the counters of unproductive blocks at zero, the totals kept |
| Protocol.ProtocolHandler.Reset | src/type_a/protocol.rs:137-141 | the role's first number, an empty chain and zero counters |
| Protocol.ProtocolHandler.BeginExchange | src/type_a/protocol.rs:144-149 | an empty chain and zero counters, the number kept |
| Protocol.ProtocolHandler.CountFrame | src/type_a/protocol.rs:155-161 | saturating count, and the limit that clears the chain |
| Protocol.ProtocolHandler.NoteRetransmit | src/type_a/protocol.rs:330-336 | the same for retransmissions |
| Protocol.ProtocolHandler.Builders | src/type_a/protocol.rs:171-228 | the builders give the blocks the machines send: own number, own CID, no NAD |
| Protocol.ProtocolHandler.ProcessReceived | src/type_a/protocol.rs:235-243 | one received block has the effect its meaning under the rules has, limits first |
| Protocol.ProtocolHandler.ProcessIblock | src/type_a/protocol.rs:245-287 | Rules B, D and 2, and a repeated block is acknowledged but not taken in again |
| Protocol.ProtocolHandler.ProcessRblock | src/type_a/protocol.rs:289-327 | Rules B, E, 6, 7, 11, 12 and 13 |
| Protocol.ProtocolHandler.ProcessSblock | src/type_a/protocol.rs:338-356 | has the effect the table gives an S-block; see WtxIsEchoed, WtxAcceptedIff and DeselectRestarts for what that is |
| Protocol.ProtocolHandler.CheckWtx | src/type_a/protocol.rs:359-379 | multiplier, consecutive and total limits in that order |
| ProtocolRuns.RunAccounting | src/type_a/protocol.rs:131-379 | after any calls the number is the first one plus the parity of the blocks that moved it, the chain is the payloads taken in, and no counter passes its limit |
| ProtocolRuns.WtxIsEchoed | src/type_a/protocol.rs:215-221 | an accepted S(WTX) is answered by S(WTX) with the same INF and the session's CID, and only counters change |
| ProtocolRuns.WtxAcceptedIff | src/type_a/protocol.rs:359-379 | it is accepted exactly when INF is one byte with a multiplier from 1 to 59 and no counter passes its limit |
| ProtocolRuns.PollIsAcknowledged | src/type_a/protocol.rs:319-323 | Rule 12: a card answers an R(NAK) with another number by R(ACK) with its own, and only the frame count changes |
| ProtocolRuns.NeverNaks | src/type_a/protocol.rs:235-379 | no block is answered with R(NAK), and an R(ACK) carries the handler's number |
| ProtocolRuns.DeselectRestarts | src/type_a/protocol.rs:345-348 | S(DESELECT) is answered in kind and leaves the handler as it was set up |
| ProtocolRuns.LimitsAreReported | src/type_a/protocol.rs:155-168 | a limit error names a limit that has been passed, and leaves no chain |
| ProtocolRuns.PassedLimitsAreNamed | src/type_a/protocol.rs:235-379 | a block that passes a limit gets the error of that limit, the frame budget coming first |
| ProtocolRuns.Stuttering | src/type_a/protocol.rs:245-379 | copies of chained I-blocks and S(WTX) within the budgets change no payload, number or acknowledgement, in either role, and each S(WTX) gets its own INF back |
| PcdLayer.Pcd.Connect | src/type_a/pcd.rs:57-96 | sends RATS and sets up the session the ATS allows, or the error |
| PcdLayer.Pcd.ParseBlockResponse | src/type_a/pcd.rs:320-334 | the FSD check on the length on the air comes before the CRC and the parser |
| PcdLayer.Pcd.TransceiveBlock | src/type_a/pcd.rs:300-315 | one frame out, one answer heard |
| PcdLayer.Pcd.TransceiveWithRecovery | src/type_a/pcd.rs:269-297 | one block, then up to two recovery blocks while answers fail; an error only after three failures |
| PcdRuns.RecoveryIsThreeAttempts | src/type_a/pcd.rs:279-297 | a reply and two R(ACK): an answer to any of them carries on, after three failures the exchange has failed |
| PcdLayer.Pcd.CollectResponse | src/type_a/pcd.rs:250-262 | walks the collecting half of the reader's machine |
| PcdLayer.Pcd.Exchange | src/type_a/pcd.rs:170-220 | walks the reader's machine from start to finish: same result, same state, same frames in the same order |
| PcdRuns.ReaderWork | src/type_a/pcd.rs:170-297 | without S(DESELECT) from the peer an exchange sends at most 1 + 3 * max_frames frames and is then over |
| PcdRuns.WorkBoundedIff | src/type_a/limits.rs:72-75 | over every peer, the work of an exchange is bounded exactly when max_frames is below 65535 and below the number of command chunks |
| PcdRuns.QuietWorkBoundedIff | src/type_a/protocol.rs:155-161 | over the peers without S(DESELECT) it is bounded exactly when max_frames is below 65535 |
| PcdRuns.DeselectNeverEnds | src/type_a/protocol.rs:345-348 | whenever the budget lets the command through, a peer that answers S(DESELECT) from the last chunk on is never cut off |
| PcdRuns.FramesFit | src/type_a/pcd.rs:173-184 | every frame of every exchange fits the FSC, and max_inf is positive |
| PcdRuns.ChainedFramesAreFull | src/type_a/pcd.rs:186-193 | a chunk that is not the last fills a frame of FSC bytes |
| PcdRuns.OverlongIsRefused | src/type_a/pcd.rs:320-334 | an answer over the FSD is refused for its size, whatever is in it |
| PcdRuns.CommandIsChunked | src/type_a/pcd.rs:186-215 | the chunks the card has taken are the first ones of the command, and all of them once a response is awaited |
| PcdRuns.SendsAreCounted | src/type_a/pcd.rs:190-215 | a chunk is sent at most 1 + max_retransmissions times below 255, at most 1 + max_frames times below 65535, and the last one once |
| PcdRuns.SendsBoundedIff | src/type_a/limits.rs:77-80 | no peer has a chunk sent more than 1 + max_retransmissions times, exactly when that limit is below 255, the command is one chunk or max_frames is at most 255 |
| PcdRuns.RepeatsAreIdentical | src/type_a/pcd.rs:202-206 | a chunk is repeated as it was |
| PcdRuns.CrcSessionsSimulate | src/type_a/pcd.rs:300-334 | with the CRC in hardware or in software, the same blocks, the same frames on the air and the same result up to the kind of error, through all recovery |
| PiccLayer.Picc.WaitForActivation | src/type_a/picc.rs:194-222 | answers each frame as the card's activation table says until selected or failed |
| PiccLayer.Picc.HandleIdle | src/type_a/picc.rs:358-368 | REQA and WUPA are answered, the rest ignored |
| PiccLayer.Picc.HandleReady | src/type_a/picc.rs:370-418 | anticollision and SELECT of the level at hand, the rest ignored |
| PiccLayer.Picc.HandleActive | src/type_a/picc.rs:420-456 | RATS settles FSD, CID and a new handler, HLTA halts; the partial effects of a failing RATS too |
| PiccLayer.Picc.WaitForRats | src/type_a/picc.rs:229-240 | one frame, answered, and an error unless it was RATS |
| PiccLayer.Picc.SendBlock | src/type_a/picc.rs:526-537 | the block goes out and is what Rule 11 repeats |
| PiccLayer.Picc.StripCrc | src/type_a/picc.rs:567-573 | the data of a standard frame |
| PiccLayer.Picc.ParseBlock | src/type_a/picc.rs:543-553 | the FSC check on the length on the air comes before the CRC and the parser |
| PiccRuns.OverlongStops | src/type_a/picc.rs:543-553 | a frame over the FSC that is no PPS ends the call for its size, in both CRC modes, and nothing of it is taken in |
| PiccRuns.DamagedStops | src/type_a/picc.rs:567-573 | nor of a frame damaged within 16 bits, when the card checks the CRC |
| PiccRuns.ReceivedFits | src/type_a/picc.rs:246-289 | whatever the reader sends, n frames bring at most n * (FSC - 3) bytes |
| PiccRuns.PpsIsAnswered | src/type_a/picc.rs:459-478 | a PPS request is answered with its own start byte and costs one frame |
| PiccRuns.StrayAckStops | src/type_a/picc.rs:286-286 | an R(ACK) that releases a chunk ends receive_command |
| PiccRuns.StrayCommandStops | src/type_a/picc.rs:345-347 | a whole command ends send_response |
| PiccRuns.DeselectHalts | src/type_a/picc.rs:264-273 | S(DESELECT) is answered in kind at any time, ends the call and halts the card |
| PiccLayer.Picc.HandlePps | src/type_a/picc.rs:459-478 | a PPS request is answered with its start byte |
| PiccLayer.Picc.TakeFrame | src/type_a/picc.rs:255-287 | one turn of the loop is one step of the card's machine |
| PiccLayer.Picc.ReceiveCommand | src/type_a/picc.rs:246-289 | walks the card's machine until an APDU is in or the call fails, and takes no frame beyond that |
| PiccLayer.Picc.AwaitAck | src/type_a/picc.rs:322-349 | walks the machine until the chunk is acknowledged or the call fails |
| PiccLayer.Picc.SendResponse | src/type_a/picc.rs:296-354 | walks the machine until the last chunk is out or the call fails |
| PiccRuns.CardWork | src/type_a/picc.rs:246-354 | one receive_command and the send_response after it take in at most max_frames + 1 frames, PPS included, from any reader |
| PiccRuns.ReceiveWork | src/type_a/picc.rs:246-289 | the same bound for a receive_command that fails |
| PiccRuns.ReceiveBoundedIff | src/type_a/protocol.rs:155-161 | receive_command is bounded exactly when max_frames is below 65535 |
| PiccRuns.ReceiveFitsIff | src/type_a/picc.rs:276-284 | every frame of receive_command fits the FSD exactly when the block kept for Rule 11 does or the limits allow for no repetition |
| Reactivation.RepeatsOverlong | src/type_a/picc.rs:420-447 | a card that answered under FSD 256 and is activated anew with FSD 16 repeats a block that is too long |
| PiccRuns.ResponseFits | src/type_a/picc.rs:296-315 | every frame of send_response fits the FSD |
| PiccRuns.ChainedFramesAreFull | src/type_a/picc.rs:308-315 | a chunk of the response that is not the last fills a frame of FSD bytes |
| PiccRuns.ChunkIsResent | src/type_a/picc.rs:322-349 | until it is acknowledged, a chunk asked for again goes out as it did first, not the R(ACK) sent in between |
| PiccRuns.ResponseIsChunked | src/type_a/picc.rs:308-352 | the chunks released are the response in as few chunks as fit |
| SpecPeers.StepKeeps | src/type_a/pcd.rs:631-742 | reader and card of the rules: whatever one step loses, the numbers keep their relation, the partial data on both sides is the prefix it should be, and Rule 11 fires once for each lost answer |
| SpecFrames.FramesDeliverOnce | src/type_a/pcd.rs:170-334 | whatever is lost, and however long the answers, success means both APDUs arrived once, the numbers are in place and Rule 11 fired once for each answer lost; failure means the command arrived at most once |
| SpecFrames.FramesComplete | src/type_a/pcd.rs:250-334 | with no loss on the command, at most two in a row on the response, chunks that fit the FSD and budgets that cover them, the exchange succeeds and every answer is taken |
| SpecFrames.SucceedsIffCovered | src/type_a/pcd.rs:186-334 | over such a link it succeeds exactly when k + m - 1 is within max_frames, the response within the chain cap and each of its chunks within the FSD |
| SpecFrames.ConversationDelivers | src/type_a/pcd.rs:758-833 | any list of commands against responses in any chunks that fit the FSD: all of them arrive once and in order, and without losses the card repeats nothing |
| SpecReaders.RulesPaced | src/type_a/picc.rs:1003-1109 | the reader and the card of the rules keep pace: numbers differ at each command chunk and each request, data on both sides is the right prefix, nothing repeated |
| SpecReaders.SpecReaderIsServed | src/type_a/picc.rs:1151-1204 | the card of the program serves the reader of the rules: for every list of chunked commands both sides assemble the joined chunks and the reader repeats nothing |
| Carriage.ReaderHears | src/type_a/pcd.rs:320-334 | a block the card sends within the FSD is heard as the block it was |
| Carriage.CardHears | src/type_a/picc.rs:543-553 | a block the reader sends within the FSC is heard as the block it was, and not taken for PPS |
| Carriage.AirCarries | src/type_a/mod.rs:57-74 | what one transceiver makes of a block the other hands up, whoever does the CRC |
| Carriage.ProcessAgrees | src/type_a/protocol.rs:235-379 | CID, NAD and raw flags of a received block change nothing |
| Link.CardFollows | src/type_a/picc.rs:246-354 | the card with its application does what the card of the rules does with every block in step, or gives up, and it gives up exactly when its budgets do not allow for the block |
| LinkRuns.HopLinked | src/type_a/picc.rs:246-354 | one frame over the lossy link is one step of the card of the rules |
| LinkRuns.LinkDeliversOnce | src/type_a/pcd.rs:170-297 | reader and card of the program, any noise: success delivers both APDUs once and leaves both sides ready; failure delivers the command at most once |
| LinkRuns.NothingGoesMissing | src/type_a/pcd.rs:186-262 | at every step, any noise: numbers differ while the command goes out and the card holds it up to the next chunk; then the command is delivered once, and what the reader has, what is in flight and what the card has yet to send make up the response |
| LinkRuns.BurstIsDetected | src/type_a/pcd.rs:320-334 | an answer damaged within 16 consecutive bits is noise the reader detects, so the delivery results cover it |
| LinkLive.ExchangeCompletes | src/type_a/pcd.rs:250-297 | at most two losses in a row while the response comes in: exactly the bytes given to send_response come back, when either side's budget covers k + m - 1 frames, the card's also one for each answer lost before the last chunk is out, and its max_retransmissions the answers lost of one chunk |
| LinkLive.ExchangeSucceedsIff | src/type_a/pcd.rs:170-297 | below saturation of the frame counters those budgets are necessary too |
| LinkLive.DialogueDelivers | src/type_a/picc.rs:246-354 | the same over any number of exchanges, each side getting all of the other's bytes in order; what the end of one costs the next is accounted for |
| LinkLive.SmoothDialogueDelivers | src/type_a/picc.rs:246-354 | without losses k + m - 1 within both frame budgets, and the chain caps, are enough for every list of commands and responses |
| LinkLive.DefaultsAfford | src/type_a/limits.rs:91-102 | the default limits are enough for 4096 bytes either way in 512 blocks, lost answers included, with two losses in a row |
| Joined.ExchangeOverLink | src/type_a/pcd.rs:170-220 | Pcd.Exchange, fed what this card answers over this link, returns the application's answer |
| Joined.Serve | src/type_a/picc.rs:246-354 | receive_command and send_response in turn go where the card with its application goes, on any script |
| Joined.ServeDialogue | src/type_a/picc.rs:246-354 | fed what this reader sends over this link, they give the application every command once and in order |
| Uids.BuildUid | src/type_a/activation.rs:160-177 | the loop drops the cascade tags and keeps the rest in order |
| Uids.CascadeRebuilds | src/type_a/picc.rs:582-608 | the parts a card answers check out and are the whole UID again, for 4, 7 and 10 bytes |
| Uids.LevelXors | src/type_a/picc.rs:582-608 | the five bytes of every level xor to nothing, and start with 0x88 before the last level |
| Activation.DoAnticollision | src/type_a/activation.rs:98-119 | one frame, and five bytes that check out or the error |
| Activation.DoSelect | src/type_a/activation.rs:122-150 | one frame, and the SAK with its CRC checked by whoever does it |
| Activation.DoActivate | src/type_a/activation.rs:56-95 | walks the reader's activation machine to its end and takes no answer beyond that |
| ActivationRuns.ActivationFindsUid | src/type_a/activation.rs:56-177 | after 1 + 2 * levels frames and not before, the reader has exactly the card's UID and a complete SAK, and the card is selected |
| ActivationRuns.OnlyWupaWakes | src/type_a/activation.rs:44-54 | against a halted card WUPA finds the UID as REQA does an idle one; REQA gets no answer and leaves it halted |
| ActivationRuns.CardIgnores | src/type_a/picc.rs:358-418 | frames of another level, and SELECT of another length, are ignored |
| ActivationRuns.ReaderRefuses | src/type_a/activation.rs:98-119 | a part of another length or with a wrong check byte, and a fourth level, end the activation |
| ActivationRuns.ActivationIsChecked | src/type_a/picc.rs:567-573 | SELECT, RATS, HLTA, SAK and ATS that fail the CRC are refused by whoever checks it |
| ActivationRuns.HltaHalts | src/type_a/picc.rs:449-452 | HLTA halts a selected card without an answer |
| ActivationRuns.RatsWithoutAts | src/type_a/picc.rs:507-512 | a card without an ATS fails on RATS, its frame size and handler settled already |
| ActivationRuns.RatsSettles | src/type_a/picc.rs:420-447 | RATS and ATS give both sides the same FSC and FSD, the card's CID only with CID support; the reader rejects exactly the ATS too long for TL |
| Sessions.ReadCard | src/type_a/pcd.rs:57-220 | activation, RATS and one exchange on one transceiver: the card's UID and its application's answer |
| Sessions.BeCard | src/type_a/picc.rs:194-354 | activation, RATS and any number of exchanges on one transceiver: every command once and in order |

## Left out

- Losses in the command leg: `exchange` has no recovery there, so an exchange that loses a frame of it fails; what it may still deliver is stated, what a later exchange on the same session does is not.
- Corrupted requests that reach the card: they leave `receive_command` with an error. A damaged request is modelled as lost, a damaged answer as one that does not parse; damage the CRC misses is not modelled.
- Failures of the card's own transceiver while sending.
- `Pcd::deselect` and `Pcd::pps` of the reader, and `parse_answer`: one exchange each, without state.
- `set_limits` in the middle of an exchange; limits are fixed while one runs.
- Transceivers are finite scripts that fail once they have run out. `try_enable_hw_crc` is a parameter: which side does the CRC in hardware.
- Capacities of the `heapless` build: buffers are sequences without a bound.
- Timing, `Debug` output, the command line tool and the examples.
- Multi-card collisions and UID matching in SELECT: the code does neither.
- Picc in the Halted state of `wait_for_activation`: the state is set to Idle first, so the branch is in the table of frames but never reached.
- The 50-frame guard of the test card: the reader's own limits end every run.
- The one-byte codings of RATS, PPS, SAK, ATQA, NVB and the control byte have round trips and layouts in `Codings.dfy` and `Layouts.dfy`, used in the rows above and not all listed.
- The raw `flags` of a PCB are kept in the model but compared nowhere: parsed and built ones differ.
- Counters is a struct in the source; its four fields are fields of the handler here.
- Link.CardFollows: covers the blocks a reader sends in step (command chunks and R(ACK)); other blocks are covered by the card's machine and `PiccRuns.dfy` only.

# Verified model of the earbud audio paths

This project models the stateful cores of the firmware's audio applications and proves what they are
relied on for. Every module stands for one component; classes carry the source's static state and are
proved against pure specification functions, and the lemmas prove whole-run properties of those.

- `A2dpInCache` – the lock-free byte ring that carries encoded A2DP data from the main core (MCU) to the
  coprocessor (CP). Both cores are interleaved step by step, down to single copied bytes, and each works
  from a stale copy of the other's index.
- `AacFraming` – length-prefixed AAC frames over that ring, with delivery in order and progress.
- `DecoderSlots` – the three-slot handshake that carries PCM back. It shows exactly when a decoded block
  is lost, namely when the CP finishes a slot between the MCU's two reads of its state, and exactly when a
  decode that is resumed in the middle of a block changes a block that waits.
- `DecoderCalls` – the functions of the two cores on these slots, tied to the steps of the handshake.
- `LhdcAssembler` – reassembly of fragmented LHDC payloads: soundness for every packet sequence,
  completeness for well-formed streams.
- `LhdcBytes` – the same on bytes: what the header byte says, what each packet does, and that the packets a
  sender writes give its payloads back.
- `SbcHeaderCrc` – the mSBC header check. The table-driven CRC is the bit-serial CRC-8 with polynomial
  0x1D and start value 0x0F (Appendix B of the A2DP specification), and it detects every burst of up to
  eight bits.
- `PacketLoss` – the judge of received mSBC packets and the sender's numbering of them (H2 header, section
  5.7.2 of Hands-Free Profile 1.6).
- `PacketVerdicts` – what every verdict of the judge means, by the bytes of the packets.
- `MsbcReceiver` – the sliding-window resynchroniser that cuts the stream into 60-byte frames, keeps its
  phase over slots that hold the mute pattern and gives it up exactly at a slot that holds neither.
- `MsbcDrift` – where the frames of one call are cut, by the bytes of the window.
- `MsbcLink` – sender, resynchroniser and judge together: exactly the sender's packets pass.
- `Upsampler` – the streaming polyphase filter: independent of how the input is cut into blocks, equal to
  filtering the zero-stuffed input, and within 32 bits up to an exact input level.
- `FilterLaws` – the upsampler's impulse response tap by tap, its linear phase and main lobe, and what it makes
  of constant and rising input.
- `AudioRequests` – the list of audio requests, the player that runs and the removal that opening one
  player over another makes in the list. Players may fail to start or to stop.
- `PromptOrder` – whole runs of requests: the prompts are first in, first out exactly as long as no request
  disturbs them, and what the disturbing ones do.
- `Players` – which player runs after each request and over whole runs, and what each request does to the list.
- `ScoPipeline` – the two-core speech pipeline, interleaved: mutual exclusion, one frame of delay, no hang.
- `ScoCalls` – what that algorithm is fed are the blocks of the calls made.
- `CdcParser` – the resynchronising parser of the USB command channel and its replies.
- `CdcCommands` – the commands as byte strings: which messages get through, and what becomes of the others.
- `EchoRing` – the echo-reference ring with its full flag as a bounded queue of frames.
- `VoiceDetector` – the command queue, the execution loop and the application's command lists, over runs
  that close the detector and open it again.
- `Bytes`, `Helpers` – the byte type, concatenation of byte strings, and a few small definitions.

Build options modelled: `A2DP_CP_ACCEL`, `HFP_1_6_ENABLE`, `ENABLE_CRC_CHECK`, `ENABLE_SEQ_CHECK`,
`ENABLE_BLE_CONFLICT_CHECK` (without `MSBC_SYNC_HACKER`, `ENABLE_PAD_CHECK` and
`ENABLE_TRAILING_ZERO_CHECK`), `MEDIA_PLAYER_SUPPORT`, `__AUDIO_QUEUE_SUPPORT__`, `SCO_CP_ACCEL`,
`__AUDIO_RESAMPLE__` with `SW_SCO_RESAMPLE`, `__USB_COMM__`, `__FACTORY_MODE_SUPPORT__`. Both values of
`ISOLATED_AUDIO_STREAM_ENABLED` are modelled, by a parameter `isolated`. The mute pattern (0x00 or 0x55), the size of
the USB message's data field and the sizes of rings and frames are parameters. `CQueue` is a byte sequence
whose peek may be split in two anywhere.

## Where the code falls short of what one would assume

- A decoded A2DP block is dropped unplayed when the CP finishes its slot between the MCU's two reads of
  the slot state (`DecoderSlots.BlockCanBeLost`, exactly then: `DecoderSlots.AllPlayedIffNeverLate`).
- A CP that runs out of input in the middle of a block resumes the slot behind what it holds, but decodes
  a whole block again. Such a slot is never played (`DecoderSlots.ResumedNotGood`), and its PCM may run
  into the next slot, where it changes a block that waits (`DecoderSlots.WaitingBlockSpoiled`, exactly
  then: `DecoderSlots.WaitingIntactExactly`). A CP that gives up only before it has decoded anything in a
  call never does that (`DecoderSlots.WholeRetriesNeverOverrun`).
- `check_sum` takes its length as an `unsigned char`. A reply with 251 or 252 data bytes is never accepted
  when read back, one with 253 or 254 only by coincidence (`CdcParser.ReplyChecksum`). That needs a build
  with a larger data field than the default (`MAX_TOOL_MSG_DATA_LEN` is 21, utils/boot_struct/tool_msg.h:39-41).
- A prompt other than the incoming-call one is refused by the number of all entries in the list, not by
  the number of prompts (`PromptOrder.RefusedByEntries`; a run with no prompt at all that ends so:
  `PromptOrder.PromptRefusedWithoutPrompts`).
- With the list full, the copy of the front stream that is meant to survive a clearing can never be
  allocated (`AudioRequests.AudioList.Append`).
- Opening a player over another removes an entry from the tail of the list, where the prompts are. A
  prompt opened during music plays, but the list has lost it (`PromptOrder.PromptDuringMusic`), and
  closing it does not bring the music back (`PromptOrder.MusicNotResumed`); music opened during a prompt
  removes the prompt (`PromptOrder.MusicDuringPrompt`). Without isolated streams the player's id is read
  after it has been cleared, and the prompt cut off may stay while a later one goes
  (`PromptOrder.DisplacedPromptStays`). The prompts stay in order exactly without such requests
  (`PromptOrder.PromptsAreFifo`).
- The resynchroniser reads one byte behind its window at phase 1, in the second frame of a call, when the
  header has moved on by one byte (exactly then: `MsbcReceiver.ReadsBehindWindow`; a first call that does
  so: `MsbcReceiver.FirstCallReadsBehindWindow`).
- The upsampler's phases do not pass a constant equally, so a constant input ripples, and slowly rising input
  may fall from one output to the next (exactly below the slope of `FilterLaws.RampsRiseExactly`).
- A prompt that does not start stays first in the list, and every later one waits behind it until
  something is closed (`PromptOrder.FailedPromptBlocks`).
- `voice_detector_run` returns the result of the last command only. With no capture stream set up that
  hides the failure to open it unless this was the last command (`VoiceDetector.ExitCodeTells`); the event
  that starts the capture then reports success (`VoiceDetector.FailureUnreported`).
- Opening the voice detector again forgets its capture stream, and nothing keeps the next event from
  starting a stream that was never opened (`VoiceDetector.ReopenedWithoutStream`).
- A wake-up that found no voice sends VAD_START while the voice activity detection runs, which opens it a
  second time (`VoiceDetector.WakeUpFits`).
- An LHDC payload that starts with the number an unfinished one waits for is taken for its continuation
  (exactly then: `LhdcAssembler.StreamAfterAny`, `LhdcAssembler.SingleAfterAny`).

## Model

| member | source | states |
|---|---|---|
| `A2dpInCache.DataLen` | apps/audioplayers/a2dpplay.cpp:2299-2310 | the length is the one number of steps that leads from the read to the write position, always below the ring size |
| `A2dpInCache.FreeLen` | apps/audioplayers/a2dpplay.cpp:2599-2603 | free space and data length always add up to the size less the one empty cell |
| `A2dpInCache.WriteExtendsWindow` | apps/audioplayers/a2dpplay.cpp:2627-2668 | bytes written behind a window, wrapping or not, extend it by exactly these bytes and change nothing in it |
| `A2dpInCache.WriteInPieces` | apps/audioplayers/a2dpplay.cpp:2637-2667 | writing in pieces, at any cut and any wrap, is writing at once |
| `A2dpInCache.CopyKeeps` | apps/audioplayers/a2dpplay.cpp:2627-2668 | a partial copy by a stale read position keeps the invariant and leaves every unread byte alone |
| `A2dpInCache.PeekKeeps` | apps/audioplayers/a2dpplay.cpp:2597-2619 | the room computed from the stale read position never exceeds the real room |
| `A2dpInCache.PublishKeeps` | apps/audioplayers/a2dpplay.cpp:2670 | publishing the write index hands over exactly the bytes copied |
| `A2dpInCache.ReadKeeps` | apps/audioplayers/a2dpplay.cpp:2312-2326 | bytes read up to a stale write position are the next ones sent |
| `A2dpInCache.ConsumeKeeps` | apps/audioplayers/a2dpplay.cpp:2235-2238 | stepping over bytes keeps both sides' stale views safe |
| `A2dpInCache.StepKeeps` | apps/audioplayers/a2dpplay.cpp:2587-2677 | every step of either core keeps the whole invariant |
| `A2dpInCache.RunKeeps` | apps/audioplayers/a2dpplay.cpp:2587-2677 | so does every interleaving |
| `A2dpInCache.RingIsFifo` | apps/audioplayers/a2dpplay.cpp:2587-2677 | in every interleaving the bytes consumed, then the bytes in the ring, are exactly the bytes taken from the queue in order, and the ring never holds more than its size less one |
| `A2dpInCache.NoUnreadByteOverwritten` | apps/audioplayers/a2dpplay.cpp:2620-2668 | no step in any interleaving changes a byte the CP has not stepped over |
| `A2dpInCache.InCache.CopyIn` | apps/audioplayers/a2dpplay.cpp:2627-2668 | both peeked pieces land behind the write position, in whichever of the code's branches |
| `A2dpInCache.InCache.PutWrapped` | apps/audioplayers/a2dpplay.cpp:2638-2649 | a piece that crosses the end of the ring is laid out around it |
| `A2dpInCache.InCache.LoadEncodedData` | apps/audioplayers/a2dpplay.cpp:2587-2677 | a load moves as many queue bytes as fit, for every split of the peek, and leaves the rest queued |
| `A2dpInCache.InCache.GetData` | apps/audioplayers/a2dpplay.cpp:2312-2326 | the bytes copied out are the window from the read position, wrapped or not |
| `A2dpInCache.LoadIsSteps` | apps/audioplayers/a2dpplay.cpp:2587-2677 | the MCU code run without interruption is the model's five steps |
| `AacFraming.ParseFrame` | apps/audioplayers/a2dpplay.cpp:662-669 | unframing undoes framing whatever follows |
| `AacFraming.ParseCutFrame` | apps/audioplayers/a2dpplay.cpp:2199-2231 | a frame cut short anywhere is never mistaken for a frame |
| `AacFraming.ParseTable` | apps/audioplayers/a2dpplay.cpp:2195-2231 | what the loader decides, by the two length bytes and the count of bytes it sees |
| `AacFraming.ReadLength` | apps/audioplayers/a2dpplay.cpp:2203-2208 | the two-byte length is read right when it straddles the end of the ring |
| `AacFraming.LoadFrame` | apps/audioplayers/a2dpplay.cpp:2188-2249 | the loader returns what parsing the visible bytes gives, moves on by exactly that frame or not at all, and asks for a queue reset exactly on a length of 2048 or more |
| `AacFraming.LoadFrameIsMoves` | apps/audioplayers/a2dpplay.cpp:2188-2249 | the loader run without interruption is the moves of the interleaved model, with the same frame and read position |
| `AacFraming.VerdictIsParse` | apps/audioplayers/a2dpplay.cpp:2195-2239 | in every interleaving, whatever the MCU writes meanwhile, the loader judges as if it had parsed at once the bytes it saw when it began |
| `AacFraming.CopiedIsNextFrame` | apps/audioplayers/a2dpplay.cpp:2195-2239 | what the loader judges is the start of the first frame not returned yet |
| `AacFraming.FinishKeeps` | apps/audioplayers/a2dpplay.cpp:2231-2239 | a loaded frame is the next accepted one and the read position ends at a frame border |
| `AacFraming.MovesKeep` | apps/audioplayers/a2dpplay.cpp:2188-2249 | the link invariant holds in every interleaving of framing, transfer and loading |
| `AacFraming.FramesArriveInOrder` | apps/audioplayers/a2dpplay.cpp:662-669 | the frames returned are a prefix of the frames accepted, however transfers cut them |
| `AacFraming.NeverStuck` | apps/audioplayers/a2dpplay.cpp:2597-2615 | with a frame outstanding the CP sees all of it or the MCU has room and bytes to move |
| `AacFraming.DeliverNext` | apps/audioplayers/a2dpplay.cpp:2188-2249 | from any quiet state some moves return the next frame |
| `AacFraming.EverythingDeliverable` | apps/audioplayers/a2dpplay.cpp:2188-2249 | and some moves return every frame accepted |
| `DecoderSlots.StepKeeps` | apps/audioplayers/a2dpplay.cpp:2339-2358 | every step of either core, retries after any amount of PCM included, keeps the handshake invariant |
| `DecoderSlots.HandOverKeeps` | apps/audioplayers/a2dpplay.cpp:2439-2468 | handing a slot over keeps the finished slots a contiguous run that ends at the CP's index |
| `DecoderSlots.LeaveKeeps` | apps/audioplayers/a2dpplay.cpp:2711-2726 | releasing a slot keeps that run, from the MCU's index on |
| `DecoderSlots.HandshakeHolds` | apps/audioplayers/a2dpplay.cpp:2339-2358 | in every reachable state the CP's index is the MCU's plus the number of finished slots, modulo 3; those are the slots from the MCU's index on; only the CP's own slot may be WORKING |
| `DecoderSlots.WaitingIntactExactly` | apps/audioplayers/a2dpplay.cpp:2529-2545 | the blocks that wait are at every moment of a run as the decoder produced them if and only if no decode of the run goes past the end of its slot and changes bytes of the block waiting in the next |
| `DecoderSlots.PlayedInOrder` | apps/audioplayers/a2dpplay.cpp:2679-2709 | without such an overrun the blocks copied out are an in-order, duplicate-free selection of the blocks the decoder produced whole in one call, byte for byte |
| `DecoderSlots.WholeRetriesNeverOverrun` | apps/audioplayers/a2dpplay.cpp:2501-2522 | when a call gives up for want of input only before it has decoded anything, no decode ever overruns, and both results above hold |
| `DecoderSlots.ResumedNotGood` | apps/audioplayers/a2dpplay.cpp:2448-2456 | a slot resumed with PCM in it ends too long or FAILED, and only whole blocks are ever played |
| `DecoderSlots.WaitingBlockSpoiled` | apps/audioplayers/a2dpplay.cpp:2529-2545 | a concrete run in which a resumed decode changes the waiting block that is played next |
| `DecoderSlots.AllPlayedIffNeverLate` | apps/audioplayers/a2dpplay.cpp:2694-2726 | every whole block released is played if and only if no call of the MCU ends with the CP having handed over a whole block in its slot since the call first looked |
| `DecoderSlots.BlockCanBeLost` | apps/audioplayers/a2dpplay.cpp:2694-2726 | a concrete interleaving in which a good block is released unplayed |
| `DecoderCalls.SlotTable.constructor` | apps/audioplayers/a2dpplay.cpp:2553-2585 | the slots from the MCU's index on start primed as DONE |
| `DecoderCalls.SlotTable.Room` | apps/audioplayers/a2dpplay.cpp:2529-2545 | where the next call decodes to: behind the PCM in a WORKING slot, or at its start once that is full |
| `DecoderCalls.SlotTable.Begin` | apps/audioplayers/a2dpplay.cpp:2339-2358 | a slot is claimed only when not finished, and a fresh one starts empty |
| `DecoderCalls.SlotTable.End` | apps/audioplayers/a2dpplay.cpp:2439-2468 | DONE or FAILED by the length produced, and the index moves, unless it is a retry |
| `DecoderCalls.SlotTable.Process` | apps/audioplayers/a2dpplay.cpp:2679-2729 | return value and bytes: only a DONE slot of full length is copied, from its own place in the output cache; 1 and 2 otherwise; the finished slot is released |
| `DecoderCalls.TableByWord` | apps/audioplayers/a2dpplay.cpp:2339-2729 | what the calls of both cores do to states, lengths and indices, word by word |
| `DecoderCalls.BeginIsSteps` | apps/audioplayers/a2dpplay.cpp:2339-2358 | claiming a slot is the model's steps, and the position computed for the decode is the one the model decodes to |
| `DecoderCalls.DecodeIsWrite` | apps/audioplayers/a2dpplay.cpp:2529-2545 | what a call decodes lies in one piece in the output cache from that position on, past the end of the slot if it is longer |
| `DecoderCalls.EndIsSteps` | apps/audioplayers/a2dpplay.cpp:2439-2468 | ending a call, as a retry with any amount of PCM or not, is the model's steps |
| `DecoderCalls.ProcessIsSteps` | apps/audioplayers/a2dpplay.cpp:2679-2729 | the MCU's call run without interruption is look, check, copy and leave: same table, same bytes handed out |
| `LhdcAssembler.Assembler.Assemble` | apps/audioplayers/a2dpplay.cpp:1761-1864 | return value, payload and new state are those of the packet state machine |
| `LhdcAssembler.Assembler.Assembled` | apps/audioplayers/a2dpplay.cpp:1794-1863 | the collecting half, with its two overflow exits |
| `LhdcAssembler.StepExplained` | apps/audioplayers/a2dpplay.cpp:1780-1863 | a packet keeps the buffer equal to the payloads since the S packet, with consecutive numbers modulo 256 |
| `LhdcAssembler.RunExplained` | apps/audioplayers/a2dpplay.cpp:1761-1864 | over every packet sequence the state is so explained, and every payload handed on is a single packet's or an unbroken S-to-L concatenation |
| `LhdcAssembler.GroupComesBack` | apps/audioplayers/a2dpplay.cpp:1794-1863 | the packets of one payload give it back and leave the assembler between payloads |
| `LhdcAssembler.StreamComesBack` | apps/audioplayers/a2dpplay.cpp:1761-1864 | a well-formed fragmentation of any list of payloads reassembles to that list, from any state that is not an open one waiting for exactly the first packet's number |
| `LhdcAssembler.StreamAfterAny` | apps/audioplayers/a2dpplay.cpp:1761-1864 | so after every packet sequence since the reset that leaves no unfinished payload waiting for the first number; and with the packets marked as fragments it comes back if and only if it is not swallowed: either nothing waits for its first number, or its first payload is fragmented and nothing is in the buffer yet |
| `LhdcAssembler.GroupBackExactly` | apps/audioplayers/a2dpplay.cpp:1780-1863 | the same for one payload, from every state that packets can lead to |
| `LhdcAssembler.SingleAfterAny` | apps/audioplayers/a2dpplay.cpp:1780-1863 | for a payload in one packet the exception is exact: it is handed on if and only if no such payload is unfinished |
| `LhdcBytes.HeaderMeans` | apps/audioplayers/a2dpplay.cpp:1766-1773 | every header byte is 0x80, 0x40 and 0x20 for its F, S and L flags plus five low bits, and no other reading fits |
| `LhdcBytes.DecodeWritten` | apps/audioplayers/a2dpplay.cpp:1766-1810 | decoding undoes what a sender writes, whatever the low bits |
| `LhdcBytes.StepTable` | apps/audioplayers/a2dpplay.cpp:1780-1863 | what one packet does to state, buffer and result, as a decision table |
| `LhdcBytes.BytesComeBack` | apps/audioplayers/a2dpplay.cpp:1761-1864 | the packets a sender writes for any payloads, cut anywhere, with any low bits and numbers modulo 256, give the payloads back behind any packets since the reset, if and only if no unfinished payload takes the first part for its own |
| `LhdcBytes.BytesComeBackFresh` | apps/audioplayers/a2dpplay.cpp:1761-1864 | right after a reset they always do |
| `SbcHeaderCrc.TableRows` | apps/audioplayers/plc_utils.c:39-61 | every table entry is its index shifted through the CRC register bit by bit |
| `SbcHeaderCrc.TableStep` | apps/audioplayers/plc_utils.c:94-106 | a table step is eight bit steps, for every register and every byte |
| `SbcHeaderCrc.CrcInjective` | apps/audioplayers/plc_utils.c:39-61 | different registers stay different under any further message |
| `SbcHeaderCrc.BurstDetected` | apps/audioplayers/plc_utils.c:39-61 | messages that differ within eight consecutive bits have different CRCs |
| `SbcHeaderCrc.SumHeader` | apps/audioplayers/plc_utils.c:101-124 | the loop sums bytes 6 to 9, and its four-bit branch is never reached |
| `SbcHeaderCrc.CheckCrc` | apps/audioplayers/plc_utils.c:93-128 | the CRC byte is accepted exactly when it is the bit-serial CRC over bytes 3, 4 and 6 to 9 and the first two are zero |
| `SbcHeaderCrc.ParseHeader` | apps/audioplayers/plc_utils.c:64-140 | error code and sequence number are those of the bit-serial specification |
| `SbcHeaderCrc.HeadersWithBurstNotBothAccepted` | apps/audioplayers/plc_utils.c:93-128 | two headers with equal CRC byte that differ by a burst of at most eight bits are not both accepted |
| `SbcHeaderCrc.MutePacketPasses` | platform/drivers/bt/best2300p/bt_drv_reg_op.cpp:1641-1646 | the silent packet the driver transmits passes the check as number 1, its CRC byte being 0xC5 |
| `PacketLoss.PacketLossState.UpdateConflict` | apps/audioplayers/plc_utils.c:154-164 | a repeat is the packet of two before, padding aside, unless the flag is up; the history moves on |
| `PacketLoss.PacketLossState.CheckConflict` | apps/audioplayers/plc_utils.c:166-171 | the two repeat flags move on |
| `PacketLoss.PacketLossState.CheckMute` | apps/audioplayers/plc_utils.c:174-181 | mute means every byte but the padding is the pattern |
| `PacketLoss.PacketLossState.JudgeHeader` | apps/audioplayers/plc_utils.c:230-279 | the header and sequence verdicts and the number remembered |
| `PacketLoss.PacketLossState.Process` | apps/audioplayers/plc_utils.c:211-284 | verdict, state and histogram of the whole judge |
| `PacketLoss.PacketLossState.UpdateHistogram` | apps/audioplayers/plc_utils.c:286-299 | one more of the kind, and a decoder error takes back a PASS |
| `PacketLoss.TotalIsJudged` | apps/audioplayers/plc_utils.c:286-309 | over every run the counters add up, modulo 2^32, to the packets judged, whatever errors the decoder reported and whatever counter wrapped |
| `PacketLoss.LastSeqMarksPass` | apps/audioplayers/plc_utils.c:211-284 | after every packet of every run the remembered number is 0 to 3 exactly when the verdict was PASS, and is the packet's own |
| `PacketLoss.PassRunCounts` | apps/audioplayers/plc_utils.c:198-284 | along every run of PASS packets the numbers rise by one modulo 4 |
| `PacketLoss.DropDetected` | apps/audioplayers/plc_utils.c:253-278 | dropping packets from a passing stream makes the next one fail unless a multiple of four is missing; then it passes or is taken for a repeat |
| `PacketLoss.ConflictsSpaced` | apps/audioplayers/plc_utils.c:142-172 | a BLE_CONFLICT verdict never follows one given two packets earlier, mute packets aside |
| `PacketVerdicts.VerdictsExplained` | apps/audioplayers/plc_utils.c:211-284 | over every run each of the six verdicts is given if and only if its condition holds on the bytes: the mute pattern; the packet two before unless a repeat was just reported; the four headers; the CRC; the number in turn |
| `PacketVerdicts.RepeatFound` | apps/audioplayers/plc_utils.c:154-164 | a packet that comes back two places later is reported, whatever came in between |
| `PacketVerdicts.CounterCounts` | apps/audioplayers/plc_utils.c:286-299 | every counter of the histogram holds, modulo 2^32, how often its kind was counted, that of PASS less the decoder errors |
| `PacketVerdicts.HistogramCounts` | apps/audioplayers/plc_utils.c:281-299 | after packets with given verdicts the nine counters are how often each came |
| `PacketLoss.Sender.GetMsbcCounter` | apps/audioplayers/voicebtpcmplay.cpp:1358-1370 | the counter steps through its four values |
| `PacketLoss.Sender.FramePacket` | apps/audioplayers/voicebtpcmplay.cpp:1446-1453 | a packet is 0x01, the next counter, the frame and a padding byte |
| `PacketLoss.CountersTwoApart` | apps/audioplayers/voicebtpcmplay.cpp:1358-1370 | counters two packets apart differ |
| `PacketLoss.CounterHeader` | apps/audioplayers/voicebtpcmplay.cpp:1358-1370 | every counter passes the header check, and successive ones carry successive numbers |
| `PacketLoss.PacketHeader` | apps/audioplayers/voicebtpcmplay.cpp:1446-1453 | a framed mSBC frame passes the whole header check with its counter's number |
| `PacketLoss.NotRepeated` | apps/audioplayers/plc_utils.c:154-164 | a sender's packet is never taken for a repeat |
| `PacketLoss.ExactlyPacketsPass` | apps/audioplayers/plc_utils.c:211-284 | in a sequence of frames in which those with a sync word hold a sender's packets at their numbers, a frame passes if and only if it has one; any frames may stand before, and any frames without one between |
| `PacketLoss.SenderAlwaysPasses` | apps/audioplayers/plc_utils.c:211-284 | every packet of every framed stream passes from a fresh state |
| `MsbcReceiver.Search` | apps/audioplayers/voicebtpcmplay_sco_dma_snapshot.cpp:346-350 | the search gives the first header, or the length when there is none |
| `MsbcReceiver.Receiver.CopyIn` | apps/audioplayers/voicebtpcmplay_sco_dma_snapshot.cpp:328-330 | the new bytes follow the 60 kept ones |
| `MsbcReceiver.Receiver.CheckFrame` | apps/audioplayers/voicebtpcmplay_sco_dma_snapshot.cpp:387-478 | flag and drift of one position |
| `MsbcReceiver.Receiver.CheckAgain` | apps/audioplayers/voicebtpcmplay_sco_dma_snapshot.cpp:381-485 | the or-ed flags exceed 1 exactly when some position is abnormal |
| `MsbcReceiver.Receiver.Extract` | apps/audioplayers/voicebtpcmplay_sco_dma_snapshot.cpp:492-503 | a frame is the 60 bytes at its position |
| `MsbcReceiver.Receiver.Process` | apps/audioplayers/voicebtpcmplay_sco_dma_snapshot.cpp:301-612 | window, synchronisation and frames of a whole call |
| `MsbcReceiver.ReadsBehindWindow` | apps/audioplayers/voicebtpcmplay_sco_dma_snapshot.cpp:498-503 | a frame reaches behind the window exactly at phase 1, second frame, drift +1 |
| `MsbcReceiver.FirstCallReadsBehindWindow` | apps/audioplayers/voicebtpcmplay_sco_dma_snapshot.cpp:301-515 | a first call of 120 bytes whose second frame ends with a byte from behind the window |
| `MsbcReceiver.SearchFindsFirst` | apps/audioplayers/voicebtpcmplay_sco_dma_snapshot.cpp:345-363 | on a stream with headers at one phase the search finds the first as soon as it is in reach |
| `MsbcReceiver.PositionJudged` | apps/audioplayers/voicebtpcmplay_sco_dma_snapshot.cpp:381-485 | at the right phase no position looks drifted, and one is abnormal exactly when its slot holds neither a header nor the mute pattern |
| `MsbcReceiver.CallOnGrid` | apps/audioplayers/voicebtpcmplay_sco_dma_snapshot.cpp:328-503 | a call on any stream with headers at one phase only cuts at that phase and stays synchronised exactly when it was or became so and all its slots hold a header or the mute pattern |
| `MsbcReceiver.SyncLostExactly` | apps/audioplayers/voicebtpcmplay_sco_dma_snapshot.cpp:381-485 | a synchronised receiver loses the sync in a call exactly when some slot of the call holds neither |
| `MsbcDrift.DriftFollowed` | apps/audioplayers/voicebtpcmplay_sco_dma_snapshot.cpp:381-503 | a frame of a call is the 60 bytes from the header a byte early, in place or a byte late, in this order, or from where it is expected |
| `MsbcDrift.SyncedByBytes` | apps/audioplayers/voicebtpcmplay_sco_dma_snapshot.cpp:381-490 | a call ends synchronised if and only if it was or became so and every frame of it shows such a header or the mute pattern, or lies before the header just found |
| `MsbcDrift.FoundByBytes` | apps/audioplayers/voicebtpcmplay_sco_dma_snapshot.cpp:345-363 | an unsynchronised call takes its phase from the first header among as many bytes as came |
| `MsbcDrift.FramesByRoom` | apps/audioplayers/voicebtpcmplay_sco_dma_snapshot.cpp:492-515 | a call cuts a frame for every 60 bytes that came and every 240 bytes of room |
| `MsbcReceiver.CallTracks` | apps/audioplayers/voicebtpcmplay_sco_dma_snapshot.cpp:328-503 | with a header or the mute pattern in every slot a call finds the sync exactly when the first header is in reach, never loses it, and cuts at the header phase every byte that has arrived |
| `MsbcReceiver.RunTracks` | apps/audioplayers/voicebtpcmplay_sco_dma_snapshot.cpp:301-612 | so over any sequence of 60- and 120-byte calls: synchronised exactly when the first header is behind, and every following slot is cut once, in order, all 60 bytes exact, at phase 1 at least 59 |
| `MsbcLink.FramesFeed` | apps/audioplayers/voicebtpcmplay_sco_dma_snapshot.cpp:492-515 | the frames cut are headerless ones and then, slot by slot, the sender's packets in order or what replaced them |
| `MsbcLink.PacketsThroughTheLink` | apps/audioplayers/voicebtpcmplay_sco_dma_snapshot.cpp:328-515 | end to end, whatever precedes the first packet, whichever packets the controller replaced by the mute pattern and however calls cut the stream, exactly the frames that hold a packet pass |
| `Upsampler.PolyphaseSplit` | apps/audioplayers/voicebtpcmplay.cpp:1627-1660 | the convolution of a stream is that of a part and, with 23 samples of history, of the rest |
| `Upsampler.ChunkInvariance` | apps/audioplayers/voicebtpcmplay.cpp:1627-1660 | for every partition into blocks of any sizes outputs and history are those of the whole stream |
| `Upsampler.PolyphaseAt` | apps/audioplayers/voicebtpcmplay.cpp:1632-1645 | which 24 samples and which row make each output |
| `Upsampler.PolyphaseIsDirect` | apps/audioplayers/voicebtpcmplay.cpp:1573-1645 | every output is what the prototype filter gives on the input with zeros stuffed in |
| `Upsampler.Fir.Accumulate` | apps/audioplayers/voicebtpcmplay.cpp:1634-1643 | the wrapped 32-bit accumulation over history and block is the specified output |
| `Upsampler.Fir.KeepHistory` | apps/audioplayers/voicebtpcmplay.cpp:1648-1658 | both branches leave the last 23 samples of history and block |
| `Upsampler.Fir.Run` | apps/audioplayers/voicebtpcmplay.cpp:1627-1660 | a block writes exactly its share of the convolution and nothing behind it |
| `Upsampler.MacBound` | apps/audioplayers/voicebtpcmplay.cpp:1632-1643 | a partial sum is bounded by the level times the absolute coefficients so far |
| `Upsampler.RowGain` | apps/audioplayers/voicebtpcmplay.cpp:1573-1612 | the largest absolute row sums are 71978 and 70524 |
| `Upsampler.AccumulatorsFitExactly` | apps/audioplayers/voicebtpcmplay.cpp:1573-1645 | no partial accumulator leaves 32 bits for any input of a level if and only if the level is at most 29835 (8 kHz) or 30450 (16 kHz) |
| `Upsampler.ExactWithinLimit` | apps/audioplayers/voicebtpcmplay.cpp:1632-1645 | within that level the outputs are those of exact arithmetic |
| `FilterLaws.ImpulseResponse` | apps/audioplayers/voicebtpcmplay.cpp:1573-1645 | one sample among zeros gives that many times the impulse response, every tap of it stated, and nothing before or after |
| `FilterLaws.LinearPhase` | apps/audioplayers/voicebtpcmplay.cpp:1573-1612 | the response is its own mirror image |
| `FilterLaws.MainLobe8` | apps/audioplayers/voicebtpcmplay.cpp:1573-1590 | at 8 kHz it rises strictly over the nine taps up to its centre |
| `FilterLaws.MainLobe16` | apps/audioplayers/voicebtpcmplay.cpp:1604-1611 | and at 16 kHz over five |
| `FilterLaws.ConstantOutputs` | apps/audioplayers/voicebtpcmplay.cpp:1627-1645 | a constant input gives between 31750 and 31760 parts in 65536 of it at every phase |
| `FilterLaws.RampOutputs` | apps/audioplayers/voicebtpcmplay.cpp:1627-1645 | the exact output of every ramp at every phase |
| `FilterLaws.RampsRiseExactly` | apps/audioplayers/voicebtpcmplay.cpp:1627-1645 | the outputs for all ramps of a slope never fall if and only if the slope is at least 40 a sample at 8 kHz, 21 at 16 kHz |
| `AudioRequests.AudioList.StreamExist` | apps/audioplayers/app_audio.cpp:436-468 | found exactly when some entry is an HFP or A2DP stream |
| `AudioRequests.AudioList.PlaybackExist` | apps/audioplayers/app_audio.cpp:507-525 | found exactly when some entry is a prompt |
| `AudioRequests.AudioList.FilterExist` | apps/audioplayers/app_audio.cpp:470-505 | a second incoming-call prompt, or another prompt when three entries of any kind wait |
| `AudioRequests.AudioList.Append` | apps/audioplayers/app_audio.cpp:546-604 | the new list and whether to open; blocks in use stay equal to the entries; the copying branch is dead |
| `AudioRequests.AudioList.Rmv` | apps/audioplayers/app_audio.cpp:606-682 | the new list and the next request, for both ends and with or without popping; the list stays well-formed; both assertions on the next request's kind hold |
| `AudioRequests.AudioList.StreamClose` | services/bt_app/app_bt_stream.cpp:7249-7330 | only the player that runs can be closed, and runs on when it does not stop |
| `AudioRequests.AudioList.StreamOpenCall` | services/bt_app/app_bt_stream.cpp:7120-7247 | which player is closed first, what that removes from the list, and what runs then, with and without isolated streams, whether or not the players stop and start |
| `AudioRequests.AudioList.Process` | apps/audioplayers/app_audio.cpp:330-413 | list, player and request started after every message, the prompt mixer's pop and the media manager's queueing and clearing, whether or not the players stop and start |
| `AudioRequests.HandleKeeps` | apps/audioplayers/app_audio.cpp:546-682 | every request keeps streams before prompts, one incoming-call prompt, three others, twenty entries |
| `AudioRequests.RemoveKeeps` | apps/audioplayers/app_audio.cpp:606-682 | so does a removal at either end, popping or not |
| `PromptOrder.RunWellFormed` | apps/audioplayers/app_audio.cpp:546-682 | so does every run of requests |
| `AudioRequests.FullListRefuses` | apps/audioplayers/app_audio.cpp:559-592 | a full list, with a stream in it, refuses every request; only an incoming-call prompt that finds prompts and no stream empties it |
| `PromptOrder.RemoveStreamKeepsPrompts` | apps/audioplayers/app_audio.cpp:663-673 | closing what is no prompt opens none, and leaves the prompts alone exactly when it works at the head, or there is no stream, or no prompt |
| `PromptOrder.StepIsFifo` | apps/audioplayers/app_audio.cpp:350-409 | a request keeps the prompts in turn if and only if it is none of the disturbing ones |
| `PromptOrder.PromptsAreFifo` | apps/audioplayers/app_audio.cpp:350-409 | at every moment of a run the prompts have started one at a time in the order accepted, the first one in the list running, if and only if no request of the run displaces a prompt, starts a prompt over something else with a stream in the list, has a prompt that does not start, closes one that runs on, clears or pops waiting prompts, or queues one with none before it |
| `PromptOrder.FirstPromptIsOpen` | apps/audioplayers/app_audio.cpp:350-409 | in such runs the first prompt in the list is the one that runs, and those behind it have not been started |
| `PromptOrder.PromptDuringMusic` | services/bt_app/app_bt_stream.cpp:7133-7173 | opening music and then a prompt leaves the prompt running and only the music in the list |
| `PromptOrder.MusicNotResumed` | apps/audioplayers/app_audio.cpp:368-396 | closing that prompt leaves the music in the list and nothing running |
| `PromptOrder.MusicDuringPrompt` | services/bt_app/app_bt_stream.cpp:7133-7173 | opening music over a prompt takes the prompt out of the list without a CLOSE |
| `PromptOrder.DisplacedPromptStays` | services/bt_app/app_bt_stream.cpp:7133-7173 | music over the first of two prompts: the list loses that one with isolated streams, the other one without |
| `PromptOrder.FailedPromptBlocks` | apps/audioplayers/app_audio.cpp:350-367 | a prompt that does not start keeps the next one from being opened |
| `PromptOrder.RefusedByEntries` | apps/audioplayers/app_audio.cpp:470-505 | a prompt other than the incoming-call one is refused exactly when the list holds three entries of any kind |
| `PromptOrder.PromptRefusedWithoutPrompts` | apps/audioplayers/app_audio.cpp:470-505 | a run that ends in such a list without a prompt in it |
| `Players.AppendTable` | apps/audioplayers/app_audio.cpp:470-604 | what is appended where and what is to be opened, by the ids in the list and its length |
| `Players.RemoveTable` | apps/audioplayers/app_audio.cpp:606-682 | what is removed and what comes next, by the ids in the list |
| `Players.WhoGivesWay` | services/bt_app/app_bt_stream.cpp:7133-7173 | which player gives way to which, by their ids, in both builds |
| `Players.PlayerAfter` | apps/audioplayers/app_audio.cpp:350-409 | for every hub and every request: what is started runs; a player closed that stops, or that gives way, does not; any other runs on |
| `Players.ClosedStops` | apps/audioplayers/app_audio.cpp:374-396 | a player that is closed and stops runs on only if what is opened next is the same |
| `Players.OthersPlayOn` | apps/audioplayers/app_audio.cpp:374-396 | closing something else leaves the player alone unless something is opened next |
| `Players.OpenedStarts` | apps/audioplayers/app_audio.cpp:350-396 | what is to be opened starts when both players do as they should |
| `Players.ListAfter` | apps/audioplayers/app_audio.cpp:350-409 | what every request leaves in the list |
| `Players.RunsSinceStarted` | apps/audioplayers/app_audio.cpp:350-409 | in every run a player runs if and only if some request started it and no later one started another, stopped it or made it give way |
| `ScoPipeline.McuKeeps` | apps/audioplayers/bt_sco_chain_cp.c:81-133 | every step of the MCU keeps the invariant of both cores |
| `ScoPipeline.CpKeeps` | apps/audioplayers/bt_sco_chain_cp.c:138-169 | so does every step of the CP |
| `ScoPipeline.Run` | apps/audioplayers/bt_sco_chain_cp.c:81-169 | the invariant holds in every interleaving of calls and steps |
| `ScoPipeline.NeverBothInBuffers` | apps/audioplayers/bt_sco_chain_cp.c:95-160 | the MCU is in the buffers only while the CP is not working, the CP only while it is, and at most one frame is required and not run |
| `ScoPipeline.OutputsAreOneFrameLate` | apps/audioplayers/bt_sco_chain_cp.c:103-113 | the outputs are one silent frame and then the algorithm on each earlier block in order, with its length |
| `ScoCalls.OutputsOfCalls` | apps/audioplayers/bt_sco_chain_cp.c:81-113 | the blocks fed are those of the calls made, each with its reference or the last one given before, and the outputs what the algorithm makes of the earlier calls |
| `ScoPipeline.WaitEnds` | apps/audioplayers/bt_sco_chain_cp.c:95-101 | a waiting MCU gets the buffers after at most five steps of the CP |
| `ScoPipeline.ScoCp.Process` | apps/audioplayers/bt_sco_chain_cp.c:81-133 | a call trades its frame for the result before, and a closed pipeline changes nothing |
| `ScoPipeline.ScoCp.Work` | apps/audioplayers/bt_sco_chain_cp.c:138-169 | a run of the CP puts the algorithm's result out and hands back the turn |
| `ScoPipeline.ScoCp.constructor` | apps/audioplayers/bt_sco_chain_cp.c:173-220 | the state the interleavings start from |
| `ScoPipeline.CallIsSteps` | apps/audioplayers/bt_sco_chain_cp.c:103-115 | the MCU's code run without interruption is the model's steps |
| `ScoPipeline.MainIsSteps` | apps/audioplayers/bt_sco_chain_cp.c:154-160 | and so is the CP's |
| `CdcParser.CheckSum` | apps/factory/app_factory_cdc_comm.c:19-28 | the byte sum over as many bytes as an unsigned char can say |
| `CdcParser.ParsePacketKeeps` | apps/factory/app_factory_cdc_comm.c:212-256 | a partial header always starts with a prefix byte, and a read is never empty nor longer than its field |
| `CdcParser.HeaderSearched` | apps/factory/app_factory_cdc_comm.c:232-242 | re-reading from the earliest prefix byte loses no message |
| `CdcParser.LoopIsParse` | apps/factory/app_factory_cdc_comm.c:212-256 | the reads of the parser, from any state it can be in, yield what the stream means: every message begins at the earliest unconsumed prefix byte |
| `CdcParser.ParserReadsStream` | apps/factory/app_factory_cdc_comm.c:50-56 | from a reset the whole stream is so read |
| `CdcParser.ReplyChecksum` | apps/factory/app_factory_cdc_comm.c:30-48 | a reply's checksum is accepted if and only if it has at most 250 data bytes, or 253 or 254 with a coincidence in type and number |
| `CdcParser.ReplyReread` | apps/factory/app_factory_cdc_comm.c:30-48 | a reply behind any junk without prefix bytes is read back, up to that condition and the command's own errors |
| `CdcCommands.MessageDecided` | apps/factory/app_factory_cdc_comm.c:61-210 | what becomes of every complete message with a length that fits, by its bytes: the checksum, the data of a SYS command, an unknown SYS command, or it is accepted |
| `CdcCommands.BadLengthFails` | apps/factory/app_factory_cdc_comm.c:61-95 | a header with a length its type may not have ends the session at once |
| `CdcCommands.CommandAccepted` | apps/factory/app_factory_cdc_comm.c:61-210 | every READ, WRITE and SYS command gets through behind any junk without a prefix byte, and the parser goes on behind it |
| `CdcCommands.AcceptedIsCommand` | apps/factory/app_factory_cdc_comm.c:61-210 | what is accepted first of a stream as SYS, READ or WRITE is such a command, byte for byte |
| `CdcCommands.AllAreCommands` | apps/factory/app_factory_cdc_comm.c:212-256 | and so is every later one |
| `CdcCommands.ReplyIsMessage` | apps/factory/app_factory_cdc_comm.c:30-48 | a reply of up to 250 data bytes is a message of the same type and number |
| `CdcParser.Parser.HandleData` | apps/factory/app_factory_cdc_comm.c:153-210 | checksum first, then the command's error |
| `CdcParser.Parser.Resync` | apps/factory/app_factory_cdc_comm.c:232-242 | search, move and the next read of the branch that is out of step |
| `CdcParser.Parser.ParseRead` | apps/factory/app_factory_cdc_comm.c:212-263 | new state and error of a read; the assertion on its length holds |
| `CdcParser.Parser.SendReply` | apps/factory/app_factory_cdc_comm.c:30-48 | the bytes sent, or the refusal of a payload that does not fit |
| `EchoRing.NoOverflow` | apps/audioplayers/voicebtpcmplay.cpp:1695-1697 | a frame always fits behind a position, so the position assertions hold |
| `EchoRing.EchoQueue.QueueLen` | apps/audioplayers/voicebtpcmplay.cpp:1699-1706 | the length from positions and flag |
| `EchoRing.EchoQueue.Play` | apps/audioplayers/voicebtpcmplay.cpp:1886-1915 | a frame is appended and the flag tells full from empty |
| `EchoRing.EchoQueue.Capture` | apps/audioplayers/voicebtpcmplay.cpp:1690-1716 | the oldest frame is exposed in place |
| `EchoRing.EchoQueue.constructor` | apps/audioplayers/voicebtpcmplay.cpp:1932-1944 | an empty ring |
| `EchoRing.StartFifo` | apps/audioplayers/voicebtpcmplay.cpp:1932-1944 | an initialised ring is the empty queue the runs start from |
| `EchoRing.PlayedKeeps` | apps/audioplayers/voicebtpcmplay.cpp:1907-1915 | contents grow by the frame, at the back |
| `EchoRing.CapturedKeeps` | apps/audioplayers/voicebtpcmplay.cpp:1712-1716 | contents shrink by the frame exposed, at the front |
| `EchoRing.RunIsFifo` | apps/audioplayers/voicebtpcmplay.cpp:1687-1716 | over every run the n-th frame exposed is the n-th played, and the length is frames played less frames exposed |
| `EchoRing.AllowedByCount` | apps/audioplayers/voicebtpcmplay.cpp:1707-1710 | the overflow and underflow assertions hold exactly while the frame count stays between none and the capacity |
| `VoiceDetector.CommandQueue.Enqueue` | apps/voice_detector/voice_detector.c:89-100 | a command goes in at the back or the queue is full |
| `VoiceDetector.CommandQueue.Dequeue` | apps/voice_detector/voice_detector.c:102-119 | the oldest command comes out, and running empty frees all places |
| `VoiceDetector.CommandQueue.SendCmdArray` | apps/voice_detector/voice_detector.c:303-320 | commands go in until one does not fit |
| `VoiceDetector.PushAllFits` | apps/voice_detector/voice_detector.c:303-320 | exactly the commands that fit go in, fifteen at most since the queue was last empty, and the result tells whether all did |
| `VoiceDetector.Detector.Rounds` | apps/voice_detector/voice_detector.c:568-614 | the loop ends in each of its three modes, having executed exactly the commands the mode asks for, in order |
| `VoiceDetector.Detector.Run` | apps/voice_detector/voice_detector.c:553-619 | in each mode: the commands executed, what stays queued, the status from the last command that succeeded and is no clock command, the result of the last command only |
| `VoiceDetector.Detector.Process` | apps/voice_detector/app_voice_detector.cpp:64-113 | an open detector executes what waits and the event's commands and CLOSE closes it; a closed one executes nothing, keeps the commands and returns -2 |
| `VoiceDetector.Detector.Open` | apps/voice_detector/voice_detector.c:167-197 | opening again forgets status, queue and capture stream; an open detector refuses |
| `VoiceDetector.Detector.SetupStream` | apps/voice_detector/voice_detector.c:239-262 | a capture stream is usable when handler and buffer are given; a closed detector refuses |
| `VoiceDetector.Detector.ProcessCmd` | apps/voice_detector/voice_detector.c:494-519 | opening the capture stream is the one command that can fail, and does so exactly when none is set up |
| `VoiceDetector.EventSetsStatus` | apps/voice_detector/app_voice_detector.cpp:26-113 | whether or not the capture stream opens, the status after VAD_START, AUD_CAP_START and CLOSE is VAD_START, VAD_CLOSE and EXIT, and the event reports success |
| `VoiceDetector.CommandsByNumber` | apps/voice_detector/app_voice_detector.cpp:26-101 | the commands executed for every event and status |
| `VoiceDetector.EventSetsClock` | apps/voice_detector/app_voice_detector.cpp:26-101 | an event leaves the clock at 32 kHz exactly when it starts the voice activity detection |
| `VoiceDetector.RunByMode` | apps/voice_detector/voice_detector.c:568-614 | how far a run goes in each mode and what it leaves queued |
| `VoiceDetector.CodesByNumber` | apps/voice_detector/voice_detector.c:167-262 | the return values |
| `VoiceDetector.ExitCodeTells` | apps/voice_detector/voice_detector.c:553-619 | from any state and in any mode the exit code says whether some command failed if and only if a capture stream is set up, or opening it was not among the commands, or was the last |
| `VoiceDetector.FailureUnreported` | apps/voice_detector/voice_detector.c:568-619 | an event has a failed command and reports success exactly when it starts the capture and no stream is set up |
| `VoiceDetector.EventInOrder` | apps/voice_detector/app_voice_detector.cpp:26-101 | the commands of an event open, start, stop and close the devices in order if and only if the event fits the status and a capture that starts has its stream set up; then they leave the devices as the new status says |
| `VoiceDetector.RunsInOrder` | apps/voice_detector/app_voice_detector.cpp:64-113 | over whole runs that close the detector, open it again and set up or drop its capture stream, the devices are treated in order from first to last if and only if every event that reaches an open detector fits, a failed open leaving the devices alone |
| `VoiceDetector.ReopenedWithoutStream` | apps/voice_detector/voice_detector.c:186-195 | a run with every status right that is out of order because the stream was not set up again |
| `VoiceDetector.WakeUpFits` | apps/voice_detector/app_voice_detector.cpp:125-143 | what the wake-up callbacks send fits exactly when a voice was found and a stream is set up |

## Left out

- `CQueue` (utils/cqueue/cqueue.c): a byte sequence here; its own ring arithmetic is not part of this model.
- Weak memory ordering between the two cores: steps of the interleaved models are sequentially consistent.
- The coprocessor's static indices are taken to start at zero.
- Codecs, echo cancellation, noise suppression, concealment, resampling and gain: outside; the speech algorithm of the SCO pipeline is an arbitrary function of the blocks it has seen and is taken not to write its reference.
- DecoderSlots.Decode: PCM that a resumed decode writes behind the last slot goes to memory that is not part of this model.
- AacFraming.LoadFrame: sets the request for a queue reset, but what the MCU does upon it is not modelled.
- LhdcAssembler.Assembler.Assemble: requires an unfragmented payload to fit the buffer, because the source copies it without a check; the latency bits and frame counters are left out.
- LDAC paths, LHDC frame headers on the CP side, `mtu_count` and cache-threshold bookkeeping.
- MsbcReceiver.RunTracks: streams that drift, and headers inside payloads, are covered call by call only (Drift, Start), not by the run theorems; `next_frame_flag` is never set in the source and is left out.
- MsbcReceiver.Receiver.Process: calls of 60 or 120 bytes, the lengths the window is made for.
- Transport words of the uplink (bytes shifted left by eight) are modelled as bytes.
- AudioRequests.AudioList.Process: what SETUP and RESTART do to the hardware, the requests that stopping the media of a last prompt sends in turn (they are further requests of a run), and `app_audio_list_playback_clear`; the players for voice path, line-in and input streams are left out.
- ScoPipeline.ScoCp.Process: the wait is modelled in the interleaving; its three-second assertion is not.
- CdcParser.Parser.ParseRead: what commands do to the system, transport, timeouts and the error reply are left out; a parse ends at the first error.
- VoiceDetector.Detector.Run: callbacks that send commands are left out (no caller in the repository registers one), so in LOOP mode the call is taken to be made with an EXIT command waiting.
- USB, BLE, TWS, NV storage, timers, LEDs, boot sequence and configuration tables.

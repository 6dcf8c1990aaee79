# USB Power Delivery analyser firmware: verified model

A model, in Dafny, of the firmware of a USB Power Delivery analyser: how it puts packets on the CC wire and reads
them back from measured pulse widths, and the state machines around that. Every `Session`, `Decoder`, `Router` and the
like is the whole state of one of the source's classes as a value, with a function for what each call does to it. A
class with the source's own fields and methods sits beside it, and every method is proved to do what the function says.
The main results are lemmas about all inputs, all runs or all interleavings of those functions.

- **Codec.** `Bits`, `Symbols`, `Crc`, `BitPacking`, `BmcEncoding` and `BmcDecoding` are the parts; `CodecGrammar`
  says, without mentioning the decoder, what pulse widths carry which packet. `CodecSoundness` and
  `CodecCompleteness` prove that the decoder completes a message on exactly those runs of pulses, `CodecHardReset`
  the same of hard resets, and `CodecRoundTrip` that what the encoder prints is read back through jitter.
- **Receive loop.** `IngressTimestamps` compares the dropping ring of frame-start timestamps with a model that never
  forgets, for every interleaving of interrupts and markers. `ReceiveLoop` runs the ring and the decoder over the
  circular buffer, `CircularDma` lets the DMA run ahead of it, and `MessageHandoff` passes the messages to core 0
  through ten buffers and a queue of pointers.
- **Cable test.** `CableTestHandshake` is the two-core start and stop at the grain of single atomic loads and stores,
  `CableTestPolicy` the electrical and identity rules, `CableTestDiscovery` the timed machine of section 6.4.4.3.1 of
  the USB Power Delivery Specification R3.x, `CableTestTiming` how long it can keep VCONN on, `CableTestTraffic` how
  much it can send, `CableTestInsertion` that a contact is powered once until it is given up, and `CableTestLease` that
  a session nobody polls ends.
- **Measurement, capture, host link.** `Calibration` and `ChargeEnergy`; `CaptureMerge`, `CircularArrays` and
  `CaptureBlock`; `WinUsbFraming`; `Triggering`; `CCBusRouting`. `Octets`, `Division` and `Options` are helpers.

The named constants are the ones the build sets in `firmware/config/phy/*.cmake`, `firmware/config/logic/*.cmake` and
`firmware/config/app.cmake`. Clocks, voltages, pulse words, interrupts and what the SCPI interpreter does are
parameters. A bit-wise OR onto bits known to be zero is written as a sum. The preamble average, a float divided by 96
and converted to an integer, is a floor division, which it equals for every sum the preamble can reach. The transport
state (`firmware/lib/logic/sink/message_transport_state.hpp`), the start-of-packet type (`firmware/lib/proto/pd_sop.cpp`),
the header fields (`firmware/lib/proto/pd_header.cpp`) and the structured vendor header are modelled from their sources.

## What turned out not to hold

Each of these is a lemma with the failing case, next to the exact condition under which the code is right.

- The encoder takes bodies of up to 262 bytes, but the decoder's 262 bytes include header and CRC: a frame of a
  message other than a hard reset is decoded if and only if its body has at most 256 bytes
  (`CodecRoundTrip.RoundTripIffFits`).
- `enabled(false)` counts the stop before it clears the request. If core 1 is at that moment between finding no
  request and reading the stop sequence while a request is set, the stop can return acknowledged with core 1 running
  (`CableTestHandshake.StopHoldsIffSafe`, `UnsafeStatesArise`). The comment in
  `firmware/lib/logic/cable_test_controller.hpp` promises that a stop waits for core 1. The one caller,
  `CCBusController::role`, starts and stops without looking, so the cable test role chosen and given up at once gets
  there (`QuickRoleChangesAreUnsafe`, `QuickRoleChangesBreak`). A caller would be safe that starts only after an
  acknowledged stop, and stops only after `snapshot()` has shown an outcome other than Disabled since the start
  (`DisciplinedStopsHold`).
- The queue of message pointers holds ten, but so does the ring of buffers they point to, and core 0 still reads the
  one it has taken while its callback runs. With ten waiting, or nine and one in hand, the oldest is being received
  over. Every message is intact until core 0 is done with it if and only if those waiting and the one in hand never
  come to ten (`MessageHandoff.IntactIffNeverTen`, `TenWaitingLoseTheFirst`, `NineWaitingLoseTheOneInHand`,
  `ReceiveLoop.MessageInHandIsReceivedOver`).
- The receive loop knows only where the DMA is, not how often it has been round: it reads what was written if and only
  if fewer than 2000 words come between one call and the next (`CircularDma.ReadsAllIffNeverLapped`).
- A frame marker that overtakes its interrupt shifts every later timestamp to an earlier frame, for good. A timestamp
  given out is its own frame's if and only if no marker did (`IngressTimestamps.StampIsOwnIffOrderly`,
  `EarlyMarkerMisleadsTheNext`).
- Joining a command to a session reset in one transfer loses the command. The cut into transfers matters if and only if
  something in the stream clears the buffer before the end (`WinUsbFraming.CutsDoNotMatterIff`,
  `ResetsDependOnTransfers`).
- A USBTMC abort or clear also empties the buffer in which WinUSB collects a frame. What is dispatched and left over
  depends on the WinUSB bytes alone if and only if no such request comes in the middle of a frame
  (`WinUsbFraming.FramesDependOnStreamIff`, `ClearSplitsAFrame`).
- A message whose frame start went missing bears the largest time there is, so it lets out every waiting trigger before
  it, and nothing with a time can follow it in order. After one, the captured stream stays sorted if and only if every
  later message is without a time too and none comes straight after a trigger (`CaptureMerge.UntimedSortedIff`,
  `UntimedThenTimed`).
- The Observer's source counter is already past its limit when it enters SourceFound, so a source lost before the next
  tick goes unnoticed until the 32-bit counter wraps (`CCBusRouting.SourceLossNoticedIff`, `FreshLossIsMissed`). A role
  change does not clear the counter either, and one at that moment keeps a lasting source from being found again
  (`SourceFoundIff`, `RoleChangeHidesSource`).
- An auto-repeat trigger fires once too often by the time its counter first wraps. It keeps firing once per threshold
  for good if and only if the threshold divides 2^32 (`Triggering.StaysOnBeatIff`).
- Applying a stored trigger configuration does not check it. What the controller itself stored stays free of double
  filters, but a configuration it never wrote can bring one in (`Triggering.OwnConfigsStayDistinct`,
  `ForeignConfigMayDuplicate`).
- A current calibration whose first entry is negative reads a current where there is none: the curve is odd, and zero at
  zero, if and only if that entry is not negative (`Calibration.CurrentIsOddIff`).

## Model

| member | source | states |
|---|---|---|
| CodecCompleteness.CompletesIffPacket | firmware/lib/phy/bmc_decoded_message.cpp:60-346 | On every pulse stream, the attempt completes as a message on its last pulse if and only if the stream is a packet: preamble, four codes, the 4b5b image of the bytes low nibble first, at most one unpaired data symbol, EOP, and a valid CRC over at least 6 bytes |
| CodecCompleteness.PacketsComplete | firmware/lib/phy/bmc_decoded_message.cpp:161-317 | A packet completes on its last pulse and not before, and the decoder then holds exactly the packet's codes and bytes |
| CodecSoundness.CompleteMessagesAreSound | firmware/lib/phy/bmc_decoded_message.cpp:229-317 | A completed message was on the wire with the very codes and bytes the decoder reports |
| CodecSoundness.QuietRunsAreBounded | firmware/lib/phy/bmc_decoded_message.cpp:60-102 | While an attempt runs every pulse is stored and no buffer overruns, so it completes within the pulse buffer's size plus one |
| CodecSoundness.RunReads | firmware/lib/phy/bmc_decoded_message.cpp:161-317 | After any run the decoder's codes, bytes and partial symbol are exactly the bits shown by the pulses so far |
| CodecHardReset.ResetsIffHardReset | firmware/lib/phy/bmc_decoded_message.cpp:229-255 | A hard reset is reported on the last pulse of a run if and only if the run is a preamble and four codes that read as hard reset |
| CodecHardReset.HardResetFramesAreReported | firmware/lib/phy/bmc_encoded_message.cpp:138-215 | A hard reset frame sent with tolerable jitter is reported at the end of its codes, whatever follows them |
| CodecRoundTrip.RoundTrip | firmware/lib/phy/bmc_encoded_message.cpp:161-215 | For any type but hard reset, any header and any body of up to 256 bytes, the encoder's bits sent as jittered pulses complete once, on the last pulse, with their own codes, header, body and CRC |
| CodecRoundTrip.RoundTripIffFits | firmware/lib/phy/bmc_decoded_message.cpp:292-300 | A frame sent within tolerance is decoded as a message if and only if it is not a hard reset and its body has at most 256 bytes |
| CodecRoundTrip.ThresholdSeparates | firmware/lib/phy/bmc_decoded_message.cpp:202-220 | The threshold learned from the weighted 96-pulse average lies above every short pulse and not above any long one whenever 17 * jitter + 12 <= 3 * half |
| CodecRoundTrip.FrameShows | firmware/lib/phy/bmc_decoded_message.cpp:161-227 | Every bit of a frame of any length sent within tolerance is recovered by comparison with the learned threshold |
| CodecRoundTrip.PacketFields | firmware/lib/phy/bmc_decoded_message.cpp:305-312 | The header and body read from the decoded bytes are the ones that were encoded |
| BmcDecoding.BMCDecodedMessage.FeedPulse | firmware/lib/phy/bmc_decoded_message.cpp:60-102 | One pulse takes the object's fields and buffers through exactly one step of the decoder, with its event; the result stays Incomplete exactly until a completing event |
| BmcDecoding.BMCDecodedMessage.ProcessBit | firmware/lib/phy/bmc_decoded_message.cpp:161-200 | A short pulse defers a one to the next pulse, a long one appends a zero; true exactly when a symbol is complete |
| BmcDecoding.BMCDecodedMessage.ProcessEdgeInPreambleState | firmware/lib/phy/bmc_decoded_message.cpp:202-227 | Preamble pulses accumulate with every third doubled; the 96th fixes the threshold |
| BmcDecoding.BMCDecodedMessage.StoreSOPCode | firmware/lib/phy/bmc_decoded_message.cpp:229-255 | The fourth code either ends a hard reset or opens the data |
| BmcDecoding.BMCDecodedMessage.ProcessDataCode | firmware/lib/phy/bmc_decoded_message.cpp:257-317 | EOP ends the message by its CRC, an invalid symbol fails it, a data symbol joins the bytes |
| BmcDecoding.BMCDecodedMessage.ValidateCRC | firmware/lib/phy/bmc_decoded_message.cpp:319-346 | The nested loop decides exactly whether the stored bytes are a payload of at least two bytes and its checksum |
| BmcDecoding.BMCDecodedMessage.Reset | firmware/lib/phy/bmc_decoded_message.cpp:26-58 | Whatever was received before, a reset object is in the start state |
| Crc.ValidatesIffResidue | firmware/lib/phy/bmc_decoded_message.cpp:319-346 | The check passes if and only if running the encoder's register over all bytes, CRC included, ends in one fixed residue |
| Crc.ChecksumValidates | firmware/lib/phy/bmc_encoded_message.cpp:196-204 | The four bytes the encoder appends make any payload of at least two bytes pass the check |
| Crc.NoUndetectedBurst | firmware/lib/phy/bmc_decoded_message.cpp:319-346 | Two messages of one length, however long, that both pass never differ only inside 32 consecutive bits, byte-aligned or not |
| Crc.StepInjective | firmware/lib/phy/bmc_encoded_message.cpp:217-227 | One step of the shift register loses no information |
| Crc.StepLinear | firmware/lib/phy/bmc_encoded_message.cpp:217-227 | One step of the shift register distributes over exclusive or |
| BmcEncoding.BMCEncodedMessage.Encoded | firmware/lib/phy/bmc_encoded_message.cpp:161-215 | The printed stream is preamble, start-of-packet codes, header, body, CRC-32 and EOP bit for bit, then zero padding, and its length is the exact bit count |
| BmcEncoding.BMCEncodedMessage.UpdateCRC | firmware/lib/phy/bmc_encoded_message.cpp:217-227 | Eight conditional shifts advance the register by one byte |
| BmcEncoding.BMCEncodedMessage.SetHeader | firmware/lib/phy/bmc_encoded_message.cpp:157-159 | Changing the header changes nothing else of the message |
| BitPacking.BitPacker.AddBits | firmware/lib/phy/bitpacker.cpp:18-47 | The stream grows by exactly the low-order bits of the word, least significant first, across any word boundaries |
| BitPacking.BitPacker.Flush | firmware/lib/phy/bitpacker.cpp:49-57 | Flushing adds fewer than 32 zeros and leaves the recorded length alone |
| BitPacking.BitPacker.Buffer | firmware/lib/phy/bitpacker.cpp:59-61 | The stored words unpack to the stream's whole words, and to all of them within capacity |
| BitPacking.UnpackInvertsPacks | firmware/lib/phy/bitpacker.cpp:59-61 | Reading packed words back gives exactly the bits packed |
| Symbols.TablesInvert | firmware/lib/phy/4b5b.cpp:10-62 | The two tables invert each other on all data symbols, and none of them is EOP |
| Symbols.ClassifyInvertsKCodes | firmware/lib/proto/pd_sop.cpp:24-109 | The codes sent for a type are read back as that type |
| Symbols.HardResetIffThreeAgree | firmware/lib/proto/pd_sop.cpp:90-125 | Four codes read as hard reset if and only if at least three of them stand in their places |
| IngressTimestamps.RingAnswersAsOwed | firmware/lib/phy/bmc_decoder.cpp:371-410 | In every interleaving and across any overflows the 15-entry ring with its drop count answers each marker as a model that keeps every timestamp |
| IngressTimestamps.MarkersGetTheirOwn | firmware/lib/phy/bmc_decoder.cpp:371-410 | If every interrupt precedes its marker, the k-th marker gets the k-th frame's timestamp or none, never another frame's |
| IngressTimestamps.MissingIffSixteenWait | firmware/lib/phy/bmc_decoder.cpp:376-383 | A marker goes without a timestamp exactly when sixteen or more frames wait |
| IngressTimestamps.StampIsOwnIffOrderly | firmware/lib/phy/bmc_decoder.cpp:371-410 | With a moving clock, a marker that gets a timestamp gets its own frame's if and only if no marker ran ahead of its frame before it |
| IngressTimestamps.EarlyMarkerMisleadsTheNext | firmware/lib/phy/bmc_decoder.cpp:399-403 | A marker ahead of its interrupt finds nothing, and the next marker gets that interrupt's timestamp |
| IngressTimestamps.EarlyMarkerShiftsForGood | firmware/lib/phy/bmc_decoder.cpp:399-403 | After one marker has run ahead of its interrupt, every timestamp given out is an earlier frame's |
| IngressTimestamps.RingTracks | firmware/lib/phy/bmc_decoder.cpp:371-410 | The tail's sequence number is always the frames answered for plus the missing answers pending |
| IngressTimestamps.CountersAddUp | firmware/lib/phy/bmc_decoder.cpp:374-402 | The diagnostics are exact: frame starts, unanswered markers, and drops as pending plus forgiven |
| IngressTimestamps.TimestampQueue.HandleFrameStartIRQ | firmware/lib/phy/bmc_decoder.cpp:371-387 | The interrupt appends a timestamp to the ring in place, dropping and counting the oldest when full |
| IngressTimestamps.TimestampQueue.ConsumeFrameStartTimestamp | firmware/lib/phy/bmc_decoder.cpp:389-410 | A marker takes a pending missing answer first, else the oldest timestamp, else none |
| ReceiveLoop.CompletedMessagesArePackets | firmware/lib/phy/bmc_decoder.cpp:297-350 | In every run, each message reported complete is a packet carried by its own stretch of pulses |
| ReceiveLoop.RunsAreSound | firmware/lib/phy/bmc_decoder.cpp:315-346 | The loop never feeds a completed message, and cuts the pulse stream into attempts without losing or repeating a pulse |
| ReceiveLoop.FramesAreDelivered | firmware/lib/phy/bmc_decoder.cpp:297-350 | From any state between attempts, a marker and a packet's pulses add exactly one complete message, with the packet's codes and bytes and the marker's timestamp, published and given to core 1 |
| ReceiveLoop.Resynchronises | firmware/lib/phy/bmc_decoder.cpp:315-346 | From every state one timeout, or any pulse on a full pulse buffer, ends the attempt and leaves the loop between attempts |
| ReceiveLoop.FrameAfterTimeoutIsDelivered | firmware/lib/phy/bmc_decoder.cpp:297-350 | After any run and then a timeout, a marker and a packet's pulses add exactly one delivered message with the packet's codes and bytes |
| ReceiveLoop.MessagesGetTheirOwnTimestamp | firmware/lib/phy/bmc_decoder.cpp:303-313 | However interrupts and reads interleave, a message's timestamp is the one latched for the frame of its last marker |
| ReceiveLoop.AttemptsAreBounded | firmware/lib/phy/bmc_decoder.cpp:315-346 | No attempt outgrows the pulse buffer |
| ReceiveLoop.PublishedMessagesStayIntactIff | firmware/lib/phy/bmc_decoder.cpp:323-369 | Over every run each published message is intact until core 0's callback for it has returned if and only if those waiting and the one in hand never come to ten |
| ReceiveLoop.MessageInHandIsReceivedOver | firmware/lib/phy/bmc_decoder.cpp:362-367 | Some run of frames and one message taken leaves core 0 reading the buffer core 1 is receiving into, with only nine waiting |
| ReceiveLoop.BMCDecoder.LoopCore1 | firmware/lib/phy/bmc_decoder.cpp:297-350 | One call reads exactly the unread words of the circular buffer, across the wrap, with the frame starts latched before each, rotating through the ten message buffers |
| ReceiveLoop.RunGoesOn | firmware/lib/phy/bmc_decoder.cpp:297-350 | Calls of the loop continue a run, so what holds over runs holds after any calls |
| ReceiveLoop.BMCDecoder.FinishMessage | firmware/lib/phy/bmc_decoder.cpp:323-345 | A completed attempt with a marker or data is queued if there is room and the next buffer is reset; any other is reset in place |
| ReceiveLoop.BMCDecoder.TakeNext | firmware/lib/phy/bmc_decoder.cpp:352-362 | Core 0 takes the oldest pointer and keeps it in hand, and any buffer but the one in use holds the message published from it |
| ReceiveLoop.BMCDecoder.PutDownMessage | firmware/lib/phy/bmc_decoder.cpp:364-367 | The callback's return gives up the message in hand and nothing else |
| MessageHandoff.IntactIffNeverTen | firmware/lib/phy/bmc_decoder.cpp:333-369 | Every message is intact from when it is queued until core 0 is done with it if and only if those waiting and the one in hand never come to ten |
| MessageHandoff.IntactIffRecent | firmware/lib/phy/bmc_decoder.cpp:333-369 | A pointer waiting or in hand leads to its own message if and only if fewer than ten have been published since, itself included |
| MessageHandoff.TenWaitingLoseTheFirst | firmware/lib/phy/bmc_decoder.cpp:338-344 | After ten publications with none taken, the first one queued is the buffer being received into |
| MessageHandoff.NineWaitingLoseTheOneInHand | firmware/lib/phy/bmc_decoder.cpp:362-367 | After one publication taken and nine more, the buffer in hand is the one being received into |
| CircularDma.ReadsAllIffNeverLapped | firmware/lib/phy/bmc_decoder.cpp:297-301 | The words read over any number of calls are the words written if and only if fewer than 2000 come between one call and the next |
| CircularDma.CallReadsAllIffNotLapped | firmware/lib/phy/bmc_decoder.cpp:297-301 | One call reads exactly the words written since the last one if and only if they are fewer than 2000 |
| CableTestHandshake.StopHoldsIffSafe | firmware/lib/logic/cable_test_controller.cpp:19-34 | A stop can return acknowledged with core 1 running if and only if it is counted while a request is set and core 1 is between finding none and reading the stop sequence |
| CableTestHandshake.AcknowledgedStopsHold | firmware/lib/logic/cable_test_controller.cpp:19-34 | In every interleaving whose stops are counted in safe states, from the return of a stop until the next start core 1 is not running, not powered and not requested |
| CableTestHandshake.RestMeansNoAction | firmware/lib/logic/cable_test_controller.cpp:113-143 | At rest no step of core 1 starts, powers, scans or receives anything |
| CableTestHandshake.RunsKeepInvariant | firmware/lib/logic/cable_test_controller.cpp:19-143 | Every interleaving keeps the handshake's invariant, concurrent lease expiry included |
| CableTestHandshake.UnsafeStatesArise | firmware/lib/logic/cable_test_controller.cpp:22-23 | An unsafe state is reachable from start-up |
| CableTestHandshake.DisciplinedStopsHold | firmware/lib/logic/cable_test_controller.cpp:19-46 | A caller that starts only after an acknowledged stop, and stops only when no start is outstanding or an outcome other than Disabled has been published since, has core 1 at rest after every acknowledged stop |
| CableTestHandshake.QuickRoleChangesAreUnsafe | firmware/lib/logic/cc_bus_controller.cpp:46-57 | The calls made by choosing the cable test role and at once another reach, from start-up, a stop that is not safe |
| CableTestHandshake.QuickRoleChangesBreak | firmware/lib/logic/cc_bus_controller.cpp:46-57 | With those calls and no others some interleaving returns the last stop acknowledged with core 1 not at rest |
| CableTestPolicy.LeaseFollowsElapsedTime | firmware/lib/logic/cable_test_policy.hpp:20-22 | For all times the lease is expired exactly when the elapsed time modulo 2^32 is over three seconds and below 2^31; within 2^31 ms that is true elapsed time, and a renewal newer than the clock sample never expires |
| CableTestPolicy.IdentitiesAreAcks | firmware/lib/logic/cable_test_policy.hpp:56-64 | Whatever passes as an identity is a structured PD SID Discover Identity ACK |
| CableTestDiscovery.RunsAreSafe | firmware/lib/logic/cable_test_controller.cpp:54-242 | Over every run from start-up VCONN is on at most one contact, the published one, with the DUT channel on the other, and only after ten scans in a row chose it; an Identity outcome carries a valid identity; from one power-on to the next there are at most six attempts, three as PD 3.x and then three as PD 2.0 |
| CableTestDiscovery.RunsKeepInvariant | firmware/lib/logic/cable_test_controller.cpp:54-242 | Every pass and every message keep all of that, from any state that has it |
| CableTestDiscovery.DiscoveryEnds | firmware/lib/logic/cable_test_controller.cpp:95-160 | Whatever the cable answers, repeated BUSY included, VCONN is off after at most 27 passed deadlines |
| CableTestDiscovery.OverdueProgress | firmware/lib/logic/cable_test_controller.cpp:144-160 | Each passed deadline brings the removal of VCONN strictly nearer |
| CableTestDiscovery.OtherwiseNoLonger | firmware/lib/logic/cable_test_controller.cpp:195-242 | Nothing else that can happen to a powered session puts the removal further off |
| CableTestDiscovery.PowerEndsWithVerdict | firmware/lib/logic/cable_test_controller.cpp:85-111 | VCONN goes off only with a diagnosis of the cable published (identity, no response, timeout, NAK, malformed or power fault) or a stop |
| CableTestTiming.VConnIsOffInTime | firmware/lib/logic/cable_test_controller.cpp:95-160 | Whatever the cable answers, with passes at most a gap apart VCONN is off within 768 ms of going on, and 33 times the lateness of a step and one gap |
| CableTestTraffic.RunsSendAtMost21 | firmware/lib/logic/cable_test_controller.cpp:65-111 | Over every run from start-up at most 21 identity requests go out from one power-on to the next, resends included |
| CableTestInsertion.InsertionPowersOnce | firmware/lib/logic/cable_test_controller.cpp:161-193 | As long as a published contact is not given up, by ten scans in a row that chose something else or by a stop, VCONN does not go on again, for it or the other |
| CableTestInsertion.SecondPowerOnNeedsRemoval | firmware/lib/logic/cable_test_controller.cpp:161-193 | Between two power-ons there is always a moment at which the first contact is given up |
| CableTestInsertion.InsertionAsksAtMost21 | firmware/lib/logic/cable_test_controller.cpp:65-111 | Over every run from start-up, everything asked and sent for one insertion is still counted: at most six attempts and 21 requests |
| CableTestLease.UnpolledSessionEnds | firmware/lib/logic/cable_test_controller.cpp:113-131 | A session the host neither polls nor restarts is over, with VCONN off, within 3.001 seconds of the last poll and the lateness of one pass, or twice that lateness if it exceeds the lease |
| CableTestLease.PolledSessionGoesOn | firmware/lib/logic/cable_test_controller.cpp:113-131 | A session polled at most three seconds before every pass is never ended by its lease |
| CableTestDiscovery.PowerFollowsLongEvidence | firmware/lib/logic/cable_test_controller.cpp:161-193 | VCONN goes on only at a scan that is the tenth in a row, over at least 90 ms, to choose the contact |
| CableTestDiscovery.RequestsWait | firmware/lib/logic/cable_test_controller.cpp:65-111 | An identity request goes out at least 60 ms after VCONN went on, and at least 50 ms after the last one |
| CableTestDiscovery.CableTestController.LoopCore1 | firmware/lib/logic/cable_test_controller.cpp:113-193 | One pass of core 1 takes the controller's fields, its outputs and what it gives the encoder through exactly one step of the session, for any request flag left by the lease check |
| CableTestDiscovery.CableTestController.MessageReceived | firmware/lib/logic/cable_test_controller.cpp:195-242 | A received message changes the controller exactly as the session says; only successful SOP' traffic of a cable is acknowledged, duplicates too |
| CableTestDiscovery.CableTestController.RetryDiscovery | firmware/lib/logic/cable_test_controller.cpp:95-111 | Giving up a request leads to another attempt, the older revision or the end |
| CableTestDiscovery.CableTestController.FinishDiscovery | firmware/lib/logic/cable_test_controller.cpp:85-93 | Finishing removes VCONN, forgets the request, restarts scanning and publishes the outcome |
| CableTestDiscovery.CableTestController.SendIdentityRequest | firmware/lib/logic/cable_test_controller.cpp:65-83 | An attempt sends a request with a fresh message ID in the revision in force, and sets each deadline by its own reading of the clock |
| CableTestDiscovery.CableTestController.ProbeContacts | firmware/lib/logic/cable_test_controller.cpp:54-63 | Both contacts are left under Rp with VCONN off and scanning restarted |
| CableTestDiscovery.CableTestController.SettleContact | firmware/lib/logic/cable_test_controller.cpp:170-193 | A settled scan publishes an absent or unsafe contact, leaves a known one alone, and powers a new one |
| CableTestDiscovery.CableTestController.PowerContact | firmware/lib/logic/cable_test_controller.cpp:180-193 | VCONN goes on the chosen contact with the DUT channel on the other and a fresh start to the attempts |
| CableTestDiscovery.CableTestController.VendorMessageReceived | firmware/lib/logic/cable_test_controller.cpp:216-242 | An answer is ignored unless it is to Discover Identity, retried if BUSY, and else judged and the request closed |
| CableTestDiscovery.CableTestController.PublishResult | firmware/lib/logic/cable_test_controller.cpp:48-52 | Publishing copies the result and nothing else |
| ChargeEnergy.CountersConserve | firmware/lib/phy/analog_monitor.cpp:95-143 | Over every run since a reset each counter is the smaller of 2^32 - 1 and the whole counts of the exact integral, with the rest as a residue below the denominator |
| ChargeEnergy.StepIsExactIff | firmware/lib/phy/analog_monitor.cpp:108-140 | One step keeps the exact total if and only if the counter was saturated, the 64-bit sum did not wrap, or it saturates even wrapped |
| ChargeEnergy.SplittingDoesNotMatter | firmware/lib/phy/analog_monitor.cpp:102-142 | Cutting an interval in two with the same readings changes neither integral |
| ChargeEnergy.PlausibleRunsFit | firmware/lib/phy/analog_monitor.cpp:103-126 | At up to 6 A and 70 V no interval up to 4 * 10^12 microseconds can overflow |
| ChargeEnergy.CentiAmpsBounded | firmware/lib/phy/analog_monitor.cpp:89-104 | Through any calibration table a reading is within 600 centiamperes, the same in both directions |
| ChargeEnergy.AnalogMonitor.ReadVBusValues | firmware/lib/phy/analog_monitor.cpp:57-146 | One pair of raw readings is calibrated, truncated and integrated in place |
| ChargeEnergy.AnalogMonitor.ResetAccumulatedMeasurements | firmware/lib/phy/analog_monitor.cpp:169-181 | A reset starts both counters and both residues over at the present time |
| ChargeEnergy.AnalogMonitor.ApplyVBusCurrentCalibration | firmware/lib/phy/analog_monitor.cpp:343-370 | The segment search computes the calibrated current, and its guard against an empty span is never needed |
| ChargeEnergy.AnalogMonitor.ApplyVBusVoltageCalibration | firmware/lib/phy/analog_monitor.cpp:316-341 | The interpolation computes the calibrated voltage |
| Calibration.CurrentKeepsSignAndOrder | firmware/lib/phy/analog_monitor.cpp:343-370 | For every 13-point table, sorted or not, the current is within 6 A, keeps its sign, is odd away from zero, and never falls as the raw one rises |
| Calibration.CurrentIsOddIff | firmware/lib/phy/analog_monitor.cpp:343-348 | The curve is odd everywhere, and reads nothing as nothing, if and only if the first entry is not negative |
| Calibration.CurrentIsMonotone | firmware/lib/phy/analog_monitor.cpp:343-370 | For every table the calibrated magnitude is bounded and nondecreasing |
| Calibration.PointsReadTrueIffRecord | firmware/lib/phy/analog_monitor.cpp:350-366 | A table point reads as its own current if and only if every earlier point is below it |
| Calibration.VoltageIsMonotoneIffGentle | firmware/lib/phy/analog_monitor.cpp:316-341 | From 1 V up the calibrated voltage never falls if and only if no correction from bucket 1 up falls by more than a volt to the next |
| Calibration.VoltageIsMonotoneEverywhereIff | firmware/lib/phy/analog_monitor.cpp:316-341 | Over the whole range it never falls if and only if, besides, the correction at 1 V is not negative |
| Calibration.WholeVoltsReadTheTable | firmware/lib/phy/analog_monitor.cpp:326-340 | At a whole volt the correction is exactly the table's |
| CaptureMerge.EventsAreConserved | firmware/lib/app/app.cpp:605-662 | In every run the events emitted, then the one kept aside, then the queue, are the events accepted, in order |
| CaptureMerge.TimelyRunsAreSorted | firmware/lib/app/app.cpp:512-523 | While time moves forward, every message has its time and messages do not overlap, the stream is sorted by start and event time, a message before an event of the same instant |
| CaptureMerge.UntimedReleasesAll | firmware/lib/app/app.cpp:613-643 | A message without a timestamp lets out every waiting event before it and leaves none |
| CaptureMerge.UntimedSortedIff | firmware/lib/phy/bmc_decoder.cpp:303-311 | After a timely run and a message without a timestamp the stream stays sorted if and only if every later message is without one too and none comes straight after a trigger |
| CaptureMerge.UntimedThenTimed | firmware/lib/phy/bmc_decoder.cpp:307-309 | A message without a timestamp and then one with it are out of order |
| CaptureMerge.CaptureMerger.MessageReceived | firmware/lib/app/app.cpp:490-524 | A captured message lets out the events before its start, takes its place with all its contents, and lets out those up to its end; the 250-record store holds exactly what was pushed, newest last; nothing happens with capture off |
| CaptureMerge.CaptureMerger.PublishDueEvents | firmware/lib/app/app.cpp:613-643 | Exactly the leading events before the limit are emitted, and the next one is kept aside |
| CaptureMerge.CaptureMerger.NextEvent | firmware/lib/app/app.cpp:645-658 | The event kept aside comes before the queue's |
| CaptureMerge.CaptureMerger.TriggerFired | firmware/lib/app/app.cpp:669-679 | A trigger is queued only with capture on and room in the queue |
| CaptureMerge.ReleaseUnfolds | firmware/lib/app/app.cpp:613-643 | Publishing one event after another while one is due publishes exactly the leading due events |
| CaptureMerge.CaptureMerger.SetCaptureEnabled | firmware/lib/app/app_scpi_bus.cpp:259-269 | Switching capture on drops what waits |
| CircularArrays.PushesKeepNewest | firmware/lib/util/circular_array.hpp:38-49 | After any pushes the store holds the newest items that fit, in order |
| CircularArrays.CircularArray.Push | firmware/lib/util/circular_array.hpp:38-49 | Pushing to a full store drops exactly the oldest item |
| CircularArrays.CircularArray.Pop | firmware/lib/util/circular_array.hpp:71-89 | Popping takes the oldest item and leaves the others |
| CaptureBlock.HostReadsBlocks | firmware/scripts/sink_epr_loop_check.py:288-315 | The host recovers timestamps, result, codes, pulse count and data of every record, and takes no block cut short for one |
| CaptureBlock.BlocksDetermineRecords | firmware/lib/app/app_scpi_bus.cpp:15-70 | No two records, messages or events, share a block, pulse widths included |
| CaptureBlock.PayloadHasItsSize | firmware/lib/app/app_scpi_bus.cpp:72-97 | The size announced ahead of a block is the size of the block |
| CaptureBlock.ByteVector.AppendCapturedMessagePayload | firmware/lib/app/app_scpi_bus.cpp:21-51 | The vector grows by exactly the message's block |
| CaptureBlock.ByteVector.AppendCapturedEventPayload | firmware/lib/app/app_scpi_bus.cpp:53-70 | The vector grows by exactly the event's block |
| CaptureBlock.ParseCapturedMessage | firmware/scripts/sink_epr_loop_check.py:288-315 | The parser with its moving offset reads what the block's layout says |
| WinUsbFraming.CutsDoNotMatterIff | firmware/lib/app/app.cpp:194-258 | All ways to cut a stream into transfers come to the same if and only if nothing in it clears the buffer before its end |
| WinUsbFraming.TransfersDoNotMatter | firmware/lib/app/app.cpp:59-62 | However such a stream is cut, the frames dispatched, the replies sent and the bytes left over are the same |
| WinUsbFraming.FramesDependOnStreamIff | firmware/lib/app/app.cpp:40-84 | Whoever owns the interpreter when bytes arrive, if no frame clears the buffer early, the frames dispatched and the bytes left over are at every moment those of the WinUSB bytes so far if and only if every USBTMC abort or clear comes between frames |
| WinUsbFraming.ClearSplitsAFrame | firmware/lib/app/app.cpp:130-146 | A query cut in two with a USBTMC clear in the middle is never dispatched |
| WinUsbFraming.StreamsDecode | firmware/lib/app/app.cpp:194-258 | Encoded frames, joined and cut anyhow, are dispatched in order with their type, tag and payload, and answered in order |
| WinUsbFraming.TakeInvertsEncode | firmware/lib/app/app.cpp:176-219 | Taking a frame off the front inverts the layout of the frame sender, whatever follows |
| WinUsbFraming.RepliesMatchRequests | firmware/lib/app/app.cpp:221-307 | Every reply bears its request's tag; every frame but a query gets exactly one; a query gets exactly one if and only if it made one data frame and no error, or no data frame |
| WinUsbFraming.CommandsAreAnsweredInOrder | firmware/lib/app/app.cpp:260-307 | A stream of commands is answered one for one, in order, tag for tag |
| WinUsbFraming.ResetsDependOnTransfers | firmware/lib/app/app.cpp:139-160 | A command joined to a session reset is lost, and one sent after it is not |
| WinUsbFraming.App.OnBulkDataReceived | firmware/lib/app/app.cpp:59-62 | One transfer takes the buffer, the history and the sent frames through the specified draining, and leaves the command owner as it was |
| WinUsbFraming.App.OnUSBTMCDataReceived | firmware/lib/app/app.cpp:40-57 | USBTMC data makes USBTMC the owner until its transfer is complete, forgets the request in progress, and leaves the WinUSB bytes alone |
| WinUsbFraming.App.ResetUSBTMCRequestStateIfOwned | firmware/lib/app/app.cpp:74-137 | A USBTMC abort or clear drops the collected WinUSB bytes and the owner, unless WinUSB owns the interpreter |
| WinUsbFraming.App.DrainRxBuffer | firmware/lib/app/app.cpp:194-258 | The drain loop terminates and dispatches every complete frame at the front |
| WinUsbFraming.App.ProcessRequest | firmware/lib/app/app.cpp:260-307 | What a request sends, and the error queue it leaves, for any outputs and errors of its handlers |
| WinUsbFraming.App.SendTextResponse | firmware/lib/app/app.cpp:86-108 | Text is held until its newline and then sent whole; in a command it is refused and noted |
| WinUsbFraming.App.SendBinaryResponse | firmware/lib/app/app.cpp:110-124 | Binary data is sent at once in a query, and refused and noted in a command |
| WinUsbFraming.App.ResetSession | firmware/lib/app/app.cpp:148-160 | A session reset clears the buffer and is acknowledged, or is refused while the other transport owns the interpreter |
| WinUsbFraming.App.DispatchFrame | firmware/lib/app/app.cpp:221-256 | Each kind of frame gets exactly the replies specified for it |
| WinUsbFraming.App.TryAcquireCommandOwner | firmware/lib/app/app.cpp:309-316 | The owner changes hands only when free or already the caller's |
| WinUsbFraming.App.ReleaseCommandOwner | firmware/lib/app/app.cpp:318-322 | Only the owner can give the interpreter up |
| WinUsbFraming.ReadLE32 | firmware/lib/app/app.cpp:169-174 | The shifts and ORs read the little-endian integer at an offset |
| WinUsbFraming.EncodeFrame | firmware/lib/app/app.cpp:176-192 | The bytes written one by one are the header with the little-endian length, then the payload |
| Octets.FieldReads | firmware/lib/app/app.cpp:169-188 | A little-endian integer written at an offset is read back from there, whatever is around it |
| Triggering.RunLaw | firmware/lib/logic/trigger_controller.cpp:206-314 | From arming on and below 2^32 accepted events, with filters set and cleared meanwhile, auto-repeat has fired once per full threshold and never shows Triggered, single-shot has fired once and shows it exactly if the threshold was reached, and the status is Idle exactly in mode Off |
| Triggering.RunFollowsCount | firmware/lib/logic/trigger_controller.cpp:295-307 | For any number of events and filter changes, count, firings and status follow from the accepted events alone |
| Triggering.SingleFirings | firmware/lib/logic/trigger_controller.cpp:297-307 | Single-shot fires again each time the counter has wrapped around to the threshold, and never otherwise |
| Triggering.StaysOnBeatIff | firmware/lib/logic/trigger_controller.cpp:295-297 | Auto-repeat fires once per full threshold for any number of events if and only if the threshold divides 2^32; otherwise it has fired once too often at the first wrap |
| Triggering.SettersKeepSlots | firmware/lib/logic/trigger_controller.cpp:105-142 | The setters keep the enabled filters pairwise different and the unused slots at their default, and setting succeeds exactly when that allows it |
| Triggering.ExportThenRestore | firmware/lib/logic/trigger_controller.cpp:168-204 | Exported settings are restored as they were if and only if the unused slots hold the default, which the setters maintain |
| Triggering.OwnConfigsStayDistinct | firmware/lib/logic/trigger_controller.cpp:168-204 | What is stored from settings with different filters restores to different filters |
| Triggering.ForeignConfigMayDuplicate | firmware/lib/logic/trigger_controller.cpp:168-187 | A stored configuration that no such settings export can restore one filter twice |
| Triggering.TriggerController.HandleTriggerEvent | firmware/lib/logic/trigger_controller.cpp:206-314 | An event is counted exactly if mode, sender filter and type filters accept it, and the sync output is pulsed exactly when a firing is counted |
| Triggering.TriggerController.SetMessageTypeFilter | firmware/lib/logic/trigger_controller.cpp:105-127 | The slot is set exactly if it exists, the type is in range and no other enabled slot holds the filter; else nothing changes |
| Triggering.TriggerController.ClearMessageTypeFilter | firmware/lib/logic/trigger_controller.cpp:129-137 | An existing slot goes back to its default; another changes nothing |
| Triggering.TriggerController.SetMode | firmware/lib/logic/trigger_controller.cpp:30-42 | Setting the mode clears the count and arms the trigger, or idles it in mode Off |
| Triggering.TriggerController.SetEventThreshold | firmware/lib/logic/trigger_controller.cpp:49-53 | A new threshold arms the trigger anew |
| Triggering.TriggerController.SetAutoRepeat | firmware/lib/logic/trigger_controller.cpp:65-69 | A new repeat setting arms the trigger anew |
| Triggering.TriggerController.SetSenderFilter | firmware/lib/logic/trigger_controller.cpp:96-99 | A new sender filter arms the trigger anew |
| Triggering.TriggerController.ApplyPersistentConfig | firmware/lib/logic/trigger_controller.cpp:168-187 | All settings and slots become the stored ones and the trigger is armed anew |
| Triggering.TriggerController.ExportPersistentConfig | firmware/lib/logic/trigger_controller.cpp:189-204 | The stored configuration holds every setting and slot |
| Triggering.TriggerController.MessageMatchesFilters | firmware/lib/logic/trigger_controller.cpp:370-388 | The loop finds a match exactly if some enabled slot equals the message's type |
| Triggering.TriggerController.HasMessageTypeFiltersConfigured | firmware/lib/logic/trigger_controller.cpp:390-395 | The loop finds whether any slot is enabled |
| CCBusRouting.RunsStayRouted | firmware/lib/logic/cc_bus_controller.cpp:46-85 | From start-up, over every run of ticks, role changes and cable-test actions, the mux is active exactly for an Observer past Unattached and then joins the source's channel to the sink's on the other port; VBUS passes for Observer and Sink only; sink engine and cable test never run together |
| CCBusRouting.AttachesAtEleventhSinkTick | firmware/lib/logic/cc_bus_controller.cpp:372-429 | Over every run from start-up, an Observer attaches exactly at the eleventh tick of the run, since its source was found, that shows a sink on the channel looked at, and lets go exactly at the eleventh tick in a row without |
| CCBusRouting.SteadyBusAttaches | firmware/lib/logic/cc_bus_controller.cpp:372-411 | With a steady source and a sink on one channel the Observer attaches to that channel at tick 21 or 22 and not before |
| CCBusRouting.SourceFoundIff | firmware/lib/logic/cc_bus_controller.cpp:333-370 | A source that lasts, on any wires, is found if and only if the count was not past ten and it lasts to the eleventh count |
| CCBusRouting.RoleChangeHidesSource | firmware/lib/logic/cc_bus_controller.cpp:46-50 | After a role change at the moment a source is found, a lasting source is not found again until the count wraps |
| CCBusRouting.SourceLossNoticedIff | firmware/lib/logic/cc_bus_controller.cpp:398-409 | A source gone from its wire before a sink is found, whatever else the bus shows, is noticed within eleven ticks if and only if the count was not past ten; otherwise the mux stays as it was, short of a wrap |
| CCBusRouting.FreshLossIsMissed | firmware/lib/logic/cc_bus_controller.cpp:345-364 | A source lost right after it was found leaves the mux active until the counter wraps |
| CCBusRouting.SinkAttachesAtEleventhTick | firmware/lib/logic/cc_bus_controller.cpp:433-470 | As Sink, a lasting source attaches on its own channel, CC1 first, at the eleventh tick and not before |
| CCBusRouting.SinkLetsGoAtEleventhTick | firmware/lib/logic/cc_bus_controller.cpp:472-483 | As Sink, a lost source is let go at the eleventh tick and not before |
| CCBusRouting.CCBusController.Loop | firmware/lib/logic/cc_bus_controller.cpp:294-322 | One tick takes the controller's fields and the mux through exactly one step of the router, in every role |
| CCBusRouting.CCBusController.LookForSource | firmware/lib/logic/cc_bus_controller.cpp:333-370 | The first wire with a source is taken and counted, and found at the limit |
| CCBusRouting.CCBusController.LookForSink | firmware/lib/logic/cc_bus_controller.cpp:372-411 | A sink is counted on the channel looked at, the other is looked at next, and the source is checked |
| CCBusRouting.CCBusController.WatchSink | firmware/lib/logic/cc_bus_controller.cpp:413-429 | An attached Observer counts the ticks without its sink |
| CCBusRouting.CCBusController.LoopSinkMode | firmware/lib/logic/cc_bus_controller.cpp:433-491 | As Sink the mux stays open and the own port is watched on both channels |
| CCBusRouting.CCBusController.ChangeRole | firmware/lib/logic/cc_bus_controller.cpp:46-85 | A role change stops the cable test, opens the mux, starts unattached, and asks for the role's terminations, VBUS paths, sink engine and cable test |

## Left out

- PIO programs, DMA, GPIO, ADC conversion, PWM, FreeRTOS tasks and USB: they appear as inputs or as recorded outputs.
- End timestamps of messages, computed from the captured pulse time or the clock: where they matter, in the capture stream, they are inputs.
- CircularDma.ReadsAllIffNeverLapped: words the DMA writes while a call is reading are not modelled; each call sees the buffer as it was when the call began.
- Shifts by 32 in `addBits` (`firmware/lib/phy/bitpacker.cpp:28` and `:35`), undefined in C++: the model takes the intended mask of all ones and zero remainder.
- Feeding a message that has completed: `FeedPulse` requires an Incomplete result, which the receive loop is proved to guarantee.
- BitPacking.BitPacker.Buffer: beyond 96 words the source drops words silently, and the contract then promises only a prefix of the stream.
- CableTestHandshake.RunsKeepInvariant: the stop sequence is unbounded; its wrap at 2^32 is not modelled, nor is a memory order weaker than the sequentially consistent default of the source's atomics.
- CableTestHandshake.StopHoldsIffSafe: `enabled` is modelled as atomic steps of a state machine, not as a method, because core 1 moves between its loads and stores; the panic after 100 ms is a step that may happen at any poll.
- CableTestDiscovery.CableTestController.LoopCore1: the role and header bits of the requests and acknowledgements handed to the encoder are not modelled, only their revision and message ID; nor are the callback registration and the routing of the bus at start.
- IngressTimestamps.TimestampQueue.HandleFrameStartIRQ: the diagnostics and the pending count are unbounded where the source has 32 bits.
- WinUsbFraming.StreamsDecode: excludes payloads whose frame length would wrap 32 bits, for which the source's behaviour is undefined; the model stops there.
- WinUsbFraming.App.ProcessRequest: what the SCPI interpreter sends and the error queue it leaves are parameters, the reboot after a firmware-update acknowledgement is not modelled, and the flag `_winusbResponseSent`, never read without the data flag that implies it, is not kept.
- Triggering.TriggerController.HandleTriggerEvent: auto-repeat with threshold zero, a division by zero in the source, is excluded.
- Calibration.CurrentKeepsSignAndOrder: float rounding and the sign of a zero reading are not modelled; the reals have one zero.
- CaptureMerge.CaptureMerger.MessageReceived: the other events that share the capture store, such as role and fault events, are not modelled; they are stamped when pushed and do not wait.
- CCBusRouting.CCBusController.ChangeRole: what the VBUS manager does with a request while it has a fault, and a role change on one task during a tick on another, are not modelled.
- CableTestLease.UnpolledSessionEnds: a pass is one step there; a poll or a call on core 0 in the middle of a pass is covered by the handshake alone, where expiry may happen at any pass.
- The lock around the published cable-test result: publishing and reading it are single steps.
- WinUsbFraming.App.OnUSBTMCDataReceived: where a response goes when USBTMC is the active transport is not modelled.
- The Sink policy engine, the SCPI parser and its handlers, status LED, hardware revision, flash storage, web application and calibration scripts: separate subsystems, which reach the modelled ones only through the calls and settings that appear here as parameters.

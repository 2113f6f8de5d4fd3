# PicoUart verification model

A Dafny model of the PicoUart firmware's two-core data and control path, of its diagnostics from the worker's
counters to the host's rates, and of four self-contained cores beside it: the persistent settings record, the UF2
release check, the lock-file filter and the PL011 divisor.

Verify with `dafny verify dfyconfig.toml`.

## What is modelled

- **Rings** (`Words`, `RingBuffers`): the power-of-two ring with wrapping 32-bit sequences as a class over a storage
  array, and the queue of bytes it stands for.
- **Receive** (`RxPath`, `PausedProgress`, `RxDrain`): DMA beats, the completion interrupt, the worker's single loads
  and stores, and live pause and restart are atomic steps of an environment; core 0's drain loop lets any number of
  them happen before each of its own shared loads. A pause settles only on the verdict of the sampler, which looks at
  the countdown one step at a time. Ghost history holds the received stream, the deliveries with their positions, and
  the true loss.
- **Transmit** (`TxPath`): core 0 fills the ring while launches, byte moves and completions happen at any point. DMA
  and the PIO FIFO are the same three steps: a span is taken, its bytes leave one by one, its count is committed.
- **Control plane** (`PortStatus`, `PortControl`, `ControlPlane`, `ControlSafety`, `ControlErrors`, `ControlRuns`,
  `ControlPending`, `ControlFormats`): each section under the status lock is one step (a function that gives every
  field of the new status, and a method that updates the firmware's own fields statement by statement); USB core,
  worker and receive DMA have explicit program counters and interleave freely. A queued byte carries the number of
  stops completed before it came in, which makes session isolation a statement about tags. `outcomes` records what
  became of each request generation and `asked` what the host asked for in it; the backend carries the format its
  driver has on record.
- **Diagnostics** (`Seqlock`, `HidPayloads`, `HidChannels`, `HostMonitor`): the statistics snapshot, lifetime
  accounting, payloads with the host's decoder, and the host's reconstruction of rates.
- **Lifetimes** (`Sessions`, `EndToEnd`): one port over any number of restarts, and the reports built from it and from
  any run of the control plane, up to the host's decoder.
- **Settings record** (`Crc32`, `BootConfig`), **UF2** (`Uf2`, `Uf2Writer`), **lock filter** (`LockFilter`), **divisor**
  (`BaudRate`).

Assumptions, all stated in the contracts: memory is sequentially consistent between the firmware's barriers; a DMA
beat writes its byte and decrements the countdown together; no beat retires between the sample of a settled countdown
and the restart of its channel (`RxPath.Stray`; `RxPath.PauseLosesTheStrays` says what happens otherwise); fewer bytes
than the countdown maximum arrive between two publications, and fewer than 2^32 between the consumer and the live
producer; fewer than 2^32 bytes pass between two accepted samples or two device reports; USB FIFO peaks stay within
the FIFOs, the clock does not run backwards, and the clocks behind the rates do not change, so programming a format
always achieves the same one; the host receives fewer than 65535 reports of one channel within a staleness window. The
board's initial settings are ones its backend accepts.

Where code and its documentation disagree, the model follows the code. The comment at
`firmware/src/uart/hw/hw_uart_driver.c:371-378` says that a lag of a full 32-bit wrap is caught by overflow recovery;
it is not, and `RxDrain.OverrunSeenExactly` says exactly which lags are. The comment at
`firmware/src/uart/hw/baud_rate.h:22-29` promises the nearest representable rate; the divisor is nearest, but the rate
is so only under the condition of `BaudRate.NearestRateExactly`, which `BaudRate.NearestRateMissed` breaks. A pending
stop does not imply CONTROL_PENDING, and READY does not imply a running backend: `ControlRuns` reaches both states,
`ControlPending.PendingUnderAStop` says exactly when the first implication holds, and
`ControlRuns.ReadyWithoutBackend` exactly when the second fails. The published settings are not always what the
backend achieves for them: a hardware apply programs the rate it has worked out and records what that achieves, so
`ControlFormats.ReadyPortRunsPublished` counts programmings, `ControlFormats.PublishedSettingsSettle` says when they
agree, and `BaudRate.RateReproduced` says exactly for which rates that is.

## Model

| member | source | states |
|---|---|---|
| RingBuffers.RingBuffer.constructor | firmware/src/uart/ring_buffer/ring_buffer.c:70-83 | a bound ring is an empty queue with all sequences at zero |
| RingBuffers.RingBuffer.Clear | firmware/src/uart/ring_buffer/ring_buffer.c:25-36 | the queue becomes empty while the lifetime peak and overflow counters survive |
| RingBuffers.RingBuffer.RecoverOverflow | firmware/src/uart/ring_buffer/ring_buffer.c:423-440 | skipping and counting the lapped bytes does not change the queue of newest bytes, and afterwards nothing is pending |
| RingBuffers.RingBuffer.Restart | firmware/src/uart/hw/hw_uart_driver.c:543-554 | a port restart empties the receive ring but leaves overflow plus pending overflow, as sampled, unchanged |
| RingBuffers.RecoverKeepsContents | firmware/src/uart/ring_buffer/ring_buffer.c:423-440 | recovery discards only bytes that the producer has already overwritten |
| RingBuffers.RingBuffer.ReadSpan | firmware/src/uart/ring_buffer/ring_buffer.c:154-182 | the offered span is a prefix of the queue, empty only for an empty queue, and shorter than the queue only at the storage's end |
| RingBuffers.SpanIsFront | firmware/src/uart/ring_buffer/ring_buffer.c:154-182 | storage from the consumer's slot on is the front of the queue, across sequence wrap |
| RingBuffers.RingBuffer.CommitConsumed | firmware/src/uart/ring_buffer/ring_buffer.c:235-269 | a commit within the reservation drops exactly that many bytes from the front and counts no loss; stale or oversized commits change nothing |
| RingBuffers.ConsumeDropsFront | firmware/src/uart/ring_buffer/ring_buffer.c:235-269 | advancing the consumer by a count is dropping that many bytes of the queue |
| RingBuffers.RingBuffer.WriteSpan | firmware/src/uart/ring_buffer/ring_buffer.c:184-208 | the offered window is free space at the producer, empty only when the ring is full |
| RingBuffers.RingBuffer.CommitProduced | firmware/src/uart/ring_buffer/ring_buffer.c:221-233 | succeeds exactly for a current reservation of at least that size |
| RingBuffers.ProduceAppends | firmware/src/uart/ring_buffer/ring_buffer.c:221-233 | bytes placed in the window and then published are appended to the queue, whatever the 32-bit position |
| RingBuffers.RingBuffer.Write | firmware/src/uart/ring_buffer/ring_buffer.c:329-354 | appends exactly min(length, free space) bytes, in order, across index and sequence wrap |
| RingBuffers.RingBuffer.WriteByteOverwrite | firmware/src/uart/ring_buffer/ring_buffer.c:356-367 | over a full queue one byte pushes out exactly the oldest one and leaves one byte pending as overflow |
| RingBuffers.OverwriteAppends | firmware/src/uart/ring_buffer/ring_buffer.c:356-367 | the same law on the ring's value: append, and drop the oldest byte only when full |
| RingBuffers.RingBuffer.Read | firmware/src/uart/ring_buffer/ring_buffer.c:369-394 | returns exactly min(length, occupancy) bytes from the front in order, and counts what had been overwritten before it started |
| RingBuffers.SelfCheck | firmware/src/uart/ring_buffer/ring_buffer.c:85-134 | the boot self-check returns true: overwrite accounting, reservation limits and the sequence wrap all pass |
| Words.SlotOfLow32 | firmware/src/uart/ring_buffer/ring_buffer.c:316-327 | masking a wrapped 32-bit sequence finds the slot of the unbounded position, because the size divides 2^32 |
| Words.PowerOfTwoIsRingSize | firmware/src/uart/ring_buffer/ring_buffer.c:20-23 | every power of two that fits 32 bits divides 2^32, so the size check admits only sizes whose slots survive the wrap |
| Words.SaturatedSum | firmware/src/uart/saturating.h:19-22 | saturating additions always show the saturated true total |
| RxPath.BytesProducedExact | firmware/src/uart/dma/progress_math.h:33-41 | the progress arithmetic is exact if and only if fewer than the countdown maximum arrived, or no re-arm lay in between |
| RxPath.WholeCountdownIsLost | firmware/src/uart/dma/progress_math.h:33-41 | a concrete failure: a whole countdown between two samples reads as no bytes |
| PausedProgress.StreakIsConstantTail | firmware/src/uart/dma/progress_math.h:91-106 | the stability count is reached exactly when that many latest samples, and the one before them, are equal |
| PausedProgress.FeedTracks | firmware/src/uart/dma/progress_math.h:91-106 | fed sample by sample, the two tracker words know the streak of everything sampled, and the verdict is exactly that the streak is long enough |
| PausedProgress.Tracker.Sample | firmware/src/uart/dma/progress_math.h:91-106 | reports stable exactly when the required number of consecutive repeats has been seen |
| RxPath.UnpublishedExact | firmware/src/uart/hw/hw_uart_driver.c:361-387 | in every reachable state progress register and remembered sample give the exact number of unpublished bytes, re-arms included |
| RxPath.WriteIndexTracksProducer | firmware/src/uart/hw/hw_uart_driver.c:157-183 | the DMA write index is the slot of producer plus unpublished progress: every received byte is published once, in order |
| RxPath.BeatKeeps | firmware/src/uart/hw/hw_uart_driver.c:94-111 | a DMA beat keeps the newest ring-size bytes each in the slot of its position |
| RxPath.PublicationKeeps | firmware/src/uart/hw/hw_uart_driver.c:361-387 | each load and store of a publication keeps byte counter, remembered progress and producer consistent with the received stream |
| RxPath.ChannelKeeps | firmware/src/uart/hw/hw_uart_driver.c:226-253 | re-arm by interrupt or poll, pause, resume, abort, restart, give-up and release keep exactly-once publication |
| RxPath.SettlingKeeps | firmware/src/uart/dma/progress.h:89-113 | a look at the paused countdown settles the channel exactly when the last three samples repeat the one before them, and keeps the receive invariant |
| RxPath.RearmOnlyWhenExhausted | firmware/src/uart/backend/policy.h:46-75 | outside a restart of the channel the countdown is loaded again only once it has run out |
| RxPath.PauseLosesTheStrays | firmware/src/uart/hw/hw_uart_driver.c:244-253 | a live restart loses exactly the beats that retire after the settled progress was sampled: that many received bytes are never published, and the invariant survives if and only if there is none |
| RxPath.RestartIsExact | firmware/src/uart/dma/progress.h:73-89 | the same from the sample on: exactly-once across pause, publish, abort and restart if and only if no beat retires in between |
| RxPath.StepKeeps | firmware/src/uart/hw/hw_uart_driver.c:405-428 | every interleaved step of DMA, interrupt and worker keeps the receive invariant and the facts a draining core relies on |
| RxDrain.OverrunSeenExactly | firmware/src/uart/hw/hw_uart_driver.c:371-381 | the 32-bit distance shows the true overrun if and only if the lag is below 2^32 bytes |
| RxDrain.RecoverExact | firmware/src/uart/ring_buffer/ring_buffer.c:423-440 | recovery on a producer loaded earlier skips exactly the positions lapped by then and counts them |
| RxDrain.CommitExact | firmware/src/uart/ring_buffer/ring_buffer.c:271-302 | a snapshot commit leaves the consumer at the further of accepted bytes and lapped bytes, and counts exactly the difference |
| RxDrain.LiveProducerExact | firmware/src/uart/hw/hw_uart_driver.c:278-295 | while the statistics sequence is even and unmoved, the live check sees the true number of received bytes |
| RxDrain.LiveCheckSound | firmware/src/uart/hw/hw_uart_driver.c:278-295 | the check's separate loads, spread over interference, are sound when the last load finds the sequence unmoved |
| RxDrain.RecoverKeepsBooks | firmware/src/uart/ring_buffer/ring_buffer.c:423-440 | recovery keeps consumed = delivered + lost and the saturated overflow counter |
| RxDrain.CommitKeepsBooks | firmware/src/uart/ring_buffer/ring_buffer.c:271-302 | so does a snapshot commit, even when the producer lapped the span after delivery |
| RxDrain.RxPort.CopySpan | firmware/src/uart/bridge.c:53-54 | a byte copied from the live ring is the received byte of its position unless the producer has lapped it by the end of the copy |
| RxDrain.RxPort.LiveProducer | firmware/src/uart/hw/hw_uart_driver.c:278-295 | the four loads of the live check, anything happening between them, give the true distance if the statistics sequence has not moved by the last of them |
| RxDrain.RxPort.Revalidate | firmware/src/uart/bridge.c:55-59 | passing all three checks proves that nothing in the copied span had been lapped when the copy ended, and they do pass when nothing has happened since the reservation and no overrun is in sight |
| RxDrain.RxPort.ReserveRead | firmware/src/uart/ring_buffer/ring_buffer.c:154-182 | while nothing arrives the reservation offers exactly the published bytes up to the storage's end, and none only of an empty ring |
| RxDrain.RxPort.TakeSnapshot | firmware/src/uart/bridge.c:47-59 | a stable snapshot is exactly the received bytes at the consumer: none torn, none overwritten |
| RxDrain.RxPort.Deliver | firmware/src/uart/bridge.c:61-69 | what USB takes is the front of the snapshot, in order, and exactly that joins the delivered stream at strictly increasing positions; the books stay balanced |
| RxDrain.RxPort.DrainPiece | firmware/src/uart/bridge.c:28-73 | one pass under interference keeps the accounting and never loses count of a byte |
| RxDrain.RxPort.DrainRx | firmware/src/uart/bridge.c:14-76 | under every interleaving USB takes, in this call, the received bytes of strictly increasing positions; consumed = delivered + lost, the result is the number of bytes USB took, within a capacity the loop ends at it, and the loss that a sample shows has not gone down; while nothing arrives it ends only at the capacity, on an empty ring, at a short USB transfer or on an overrun still to be published |
| RxDrain.RxPort.BridgePass | firmware/src/usb/usb_cdc.c:186-223 | a full USB FIFO only recovers overruns; in both cases the loss that a sample shows never goes down |
| RxDrain.SampleShowsLoss | firmware/src/uart/uart_driver.c:814-820 | overflow plus pending overflow, as sampled, is the saturated true loss |
| RxDrain.DrainedAccounting | tools/hil/src/hil_test_suite/workflows/recovery.py:157-170 | a corollary of the books: after a full drain, drops plus retained bytes equal the payload and the retained bytes are an ordered subsequence of it |
| RxDrain.ObservedLater | firmware/src/usb/usb_hid.c:176-188 | while worker and DMA run the sampled loss never decreases |
| RxDrain.RestartOpensBooks | firmware/src/uart/hw/hw_uart_driver.c:543-554 | a restart opens balanced books that carry over everything the last session lost, the lapped bytes included, and leaves byte counter and peak alone |
| RxDrain.RxPort.Restart | firmware/src/uart/hw/hw_uart_driver.c:528-554 | recovery, cleared ring and fresh countdown, step by step, are that new session |
| TxPath.TransferFitsBudget | firmware/src/uart/backend/policy.h:108-128 | a launch is empty only when a bound or a rate is zero, stays within occupancy and maximum, and beyond the one-frame floor is the longest that fits the wire-time budget |
| TxPath.NeverLapped | firmware/src/uart/ring_buffer/ring_buffer.c:423-440 | on the transmit side nothing is ever pending recovery |
| TxPath.CompleteCommits | firmware/src/uart/hw/hw_uart_driver.c:346-359 | the commit whose result both backends ignore always succeeds and counts no overflow |
| TxPath.StepKeeps | firmware/src/uart/pio/pio_uart_driver.c:523-609 | every launch, byte move and completion keeps the transmit invariant: a span in flight is never overwritten |
| TxPath.LosslessFifo | firmware/src/uart/hw/hw_uart_driver.c:310-359 | bytes sent followed by bytes in the ring are exactly the bytes read from USB; overflow has not moved and the byte counter is the retired count modulo 2^32 |
| TxPath.FreeStoreKeeps | firmware/src/uart/bridge.c:83-120 | a byte that core 0 stores into its window is in no queued slot, so in no span in flight |
| TxPath.TxPort.ReserveSpan | firmware/src/uart/ring_buffer/ring_buffer.c:184-208 | the window offered under interference is exactly the free space up to the storage's end, so it is empty only for a full ring |
| TxPath.TxPort.StoreWindow | firmware/src/uart/bridge.c:83-120 | storing byte by byte while the worker keeps sending leaves the queue and the spans in flight intact |
| TxPath.TxPort.CommitProduced | firmware/src/uart/ring_buffer/ring_buffer.c:221-233 | the commit of what was stored succeeds and appends exactly those bytes |
| TxPath.TxPort.FillTx | firmware/src/uart/bridge.c:83-120 | every byte the USB reader hands over is accepted, in order, within a capacity the loop ends at it, and it ends before only on a short USB transfer or a full ring |
| TxPath.RestartKeeps | firmware/src/uart/hw/hw_uart_driver.c:482-482 | a restart opens an empty queue and takes nothing back from the byte counter |
| TxPath.TxPort.Restart | firmware/src/uart/hw/hw_uart_driver.c:528-554 | the worker's restart, step by step, is that new session |
| Seqlock.StepKeeps | firmware/src/uart/uart_driver.c:115-125 | the sequence is even exactly while the worker's fields are those of the last completed update |
| Seqlock.StatsPort.Consume | firmware/src/uart/ring_buffer/ring_buffer.c:423-440 | between two samples the reading core moves consumer and overflow count, which a restart also writes, without disturbing the protocol |
| Seqlock.StatsPort.PendingOverflow | firmware/src/uart/ring_buffer/ring_buffer.c:49-59 | loads of producer, consumer and size that begin and end on one even sequence show one worker state's pending overflow |
| Seqlock.StatsPort.Collect | firmware/src/uart/uart_driver.c:814-825 | loads that begin and end on the same even sequence show one single worker state |
| Seqlock.StatsPort.LookOnce | firmware/src/uart/uart_driver.c:804-833 | one look succeeds exactly when the sequence was even and had not moved by its last load, and then shows one worker state |
| Seqlock.StatsPort.PortStatistics | firmware/src/uart/uart_driver.c:785-836 | success returns the statistics of one stable worker state, restarts included, no older than the call and with bound rings, under every interleaving; it succeeds whenever the sequence is even and does not move over the call and the rings are bound, and it fails only on unbound rings or after three looks that the worker disturbed; failure leaves the output untouched |
| PortControl.Mailbox.Publish | firmware/src/uart/control/mailbox.c:24-33 | the slot holds one request: a second is refused and changes nothing |
| PortControl.Mailbox.Take | firmware/src/uart/control/mailbox.c:35-44 | taking returns the published request and empties the slot |
| PortControl.Port.RequestChannelStop | firmware/src/uart/uart_driver.c:439-464 | a stop is pending with CONTROL_PENDING set and READY and CONTROL_ERROR clear, and the result tells whether this call queued it |
| PortControl.Port.QueueLineCoding | firmware/src/uart/uart_driver.c:594-636 | submission publishes exactly when the slot is free, and moves ownership from soft-pending to mailbox in one step; refused, it changes nothing |
| PortControl.Port.MarkControlPending | firmware/src/uart/uart_driver.c:702-719 | marking opens a new generation, with CONTROL_PENDING set and the error flag clear |
| PortControl.Port.ReportControlError | firmware/src/uart/uart_driver.c:654-667 | a rejection records its reason and sets CONTROL_ERROR under a generation of its own |
| PortControl.Port.ReportSoftPendingError | firmware/src/uart/uart_driver.c:669-689 | a soft-pending failure touches the error flag only for the newest generation and clears CONTROL_PENDING only without other owners |
| PortControl.Port.ResetSoftPending | firmware/src/uart/uart_driver.c:838-853 | dropping soft-pending clears CONTROL_PENDING only without other owners |
| PortControl.Port.TakeForService | firmware/src/uart/control/plane.c:286-305 | mailbox acknowledgement and worker ownership change in one step, on a ready port only |
| PortControl.Port.TakeForStart | firmware/src/uart/control/plane.c:343-363 | a start takes the staged request and its ownership in one step |
| PortControl.Port.FinishWorkerControl | firmware/src/uart/control/plane.c:60-84 | completion publishes settings or records the reason, drops ownership and classifies the error in one step; a stale one leaves CONTROL_ERROR alone, and CONTROL_PENDING stays exactly for a remaining owner; ControlFormats says which settings that must be |
| PortControl.Port.FinishMailboxControl | firmware/src/uart/control/plane.c:101-127 | a mailbox answer may also complete the cancelled deferred apply, in the same step |
| PortControl.Port.SetWorkerPending | firmware/src/uart/control/plane.c:129-141 | the deferred request takes over ownership and the newest generation's error is cleared |
| PortControl.Port.CompleteStop | firmware/src/uart/uart_driver.c:210-220 | a completed stop empties mailbox and worker record and keeps CONTROL_PENDING only for a staged request |
| PortControl.Port.PublishStart | firmware/src/uart/uart_driver.c:246-257 | a start that a stop or a newer start has overtaken publishes nothing |
| ControlSafety.UsbCallbackKeeps | firmware/src/usb/usb_cdc.c:357-422 | host open, close, reset and settings callbacks keep all safety invariants |
| ControlSafety.UsbStageKeeps | firmware/src/usb/usb_cdc.c:111-143 | staging hands the request over without a gap in ownership, and keeps all safety invariants |
| ControlSafety.UsbCloseKeeps | firmware/src/usb/usb_cdc.c:357-381 | a DTR close, and a poll that finds a stop pending, keep all safety invariants at each section |
| ControlSafety.UsbResetKeeps | firmware/src/usb/usb_cdc.c:245-263 | a USB reset keeps all safety invariants at each of its sections |
| ControlSafety.UsbBridgeKeepsBytes | firmware/src/usb/usb_cdc.c:151-223 | bridging a byte at a time keeps boundary, session isolation and settings |
| ControlSafety.WorkerBeginKeepsLife | firmware/src/uart/uart_driver.c:180-199 | the worker enters deinit only on a quiesced stop |
| ControlSafety.WorkerStopKeepsLife | firmware/src/uart/uart_driver.c:200-233 | deinit and stop completion keep lifecycle and ownership |
| ControlSafety.WorkerStartKeeps | firmware/src/uart/control/plane.c:343-374 | a start owns its request until it publishes or fails it, and keeps all safety invariants |
| ControlSafety.WorkerMailboxKeeps | firmware/src/uart/control/plane.c:215-270 | deciding on a taken request keeps all invariants |
| ControlSafety.WorkerApplyKeepsBytes | firmware/src/uart/control/plane.c:155-213 | the attempt to apply keeps boundary, isolation and settings: the ring is empty when the backend is called |
| ControlSafety.WorkerConcludeKeepsOwnership | firmware/src/uart/control/plane.c:186-213 | every conclusion of an apply releases its ownership, including a stopped backend |
| ControlErrors.UsbCallbackKeepsErrors | firmware/src/usb/usb_cdc.c:382-422 | marking and rejecting keep CONTROL_ERROR equal to the outcome of the newest generation |
| ControlErrors.WorkerAnswerKeepsErrors | firmware/src/uart/control/plane.c:101-127 | answers from the mailbox record first and final outcomes, also for a cancelled deferred apply |
| ControlErrors.WorkerConcludeKeepsErrors | firmware/src/uart/control/ownership.h:101-116 | a stale completion leaves the flag to the newer generation |
| ControlErrors.AnswerTells | firmware/src/uart/control/ownership.h:72-118 | a first outcome, told by the completion rule, keeps flag and reason in step with the outcomes, whichever generation it answers |
| ControlErrors.UsbStageKeepsErrors | firmware/src/uart/uart_driver.c:669-689 | giving up a staged request is the outcome of exactly its own generation |
| PortStatus.LineCodingError | firmware/src/uart/control/plane.c:26-47 | a format the port will not apply is reported for its framing exactly when its rate lies in the shared range and the port cannot frame bytes so, and for its rate otherwise |
| ControlRuns.StepKeepsInv | firmware/src/uart/uart_driver.c:180-259 | every step of either core or of receive DMA keeps all invariants, and no recorded outcome is rewritten |
| ControlRuns.RunKeepsInv | firmware/src/uart/uart_driver.c:180-259 | so does every finite run |
| ControlRuns.InitHasInv | firmware/src/uart/uart_driver.c:372-426 | the initialized firmware satisfies all invariants |
| ControlRuns.NoLifecycleWhileBridging | firmware/src/uart/uart_driver.c:180-259 | in no reachable state is the worker stopping or starting a port that core 0 is bridging |
| ControlRuns.StopBeatsStart | firmware/src/uart/uart_driver.c:439-539 | READY implies no stop pending, quiesced implies stop pending, and a pending stop implies no queued start, in every reachable state |
| ControlRuns.NoByteOutlivesItsSession | firmware/src/usb/usb_cdc.c:295-346 | no byte in a ring when a stop completes is delivered or transmitted later |
| ControlRuns.FormatChangesOnEmptyRing | firmware/src/uart/control/plane.c:155-213 | the backend's format call happens only with an empty transmit ring at the recorded boundary, and no byte is admitted while any request is owned |
| ControlRuns.NothingAdmittedWhilePending | firmware/src/uart/uart_driver.c:569-636 | along any run in which a request stays pending on a live port, the transmit producer does not move |
| ControlRuns.PendingHasAnOwner | firmware/src/uart/uart_driver.c:617-634 | without a stop, CONTROL_PENDING is set exactly while soft-pending, mailbox or worker owns a request; it covers every handoff |
| ControlRuns.ErrorReportsNewest | firmware/src/uart/control/ownership.h:72-118 | CONTROL_ERROR is set exactly when the newest generation was rejected or failed |
| ControlRuns.StaleCompletionsAreSilent | firmware/src/uart/control/ownership.h:101-116 | within a generation the flag changes only to set, and only with that generation's first and only outcome |
| ControlRuns.OutcomesAreFinal | firmware/src/uart/control/ownership.h:72-118 | an outcome, once recorded, is never rewritten in any run |
| ControlRuns.PublishedSettingsAcceptable | firmware/src/uart/control/plane.c:60-84 | the published settings are always ones the backend accepts |
| ControlRuns.ReadyWithoutBackend | firmware/src/uart/control/plane.c:189-201 | READY with a stopped backend occurs exactly in the window after a failed apply |
| ControlRuns.ExpiredStageFails | firmware/src/usb/usb_cdc.c:111-130 | a staged request whose deadline has passed ends as timed out, with its generation failed, without reaching the mailbox, and CONTROL_PENDING stays exactly for another owner |
| ControlRuns.ExpiredApplyFails | firmware/src/uart/control/plane.c:180-190 | an apply whose deadline has passed ends as timed out, with its generation failed, without touching backend or settings, whether the boundary has drained or not |
| ControlRuns.StopWithoutControlPending | firmware/src/usb/usb_cdc.c:249-261 | a host reset reaches a state with a stop pending and CONTROL_PENDING clear |
| ControlPending.StepMoves | firmware/src/uart/control/ownership.h:15-27 | under a pending stop a section takes the flag exactly when it drops an owner and leaves none, and sets it only for an owner |
| ControlPending.PendingLostExactly | firmware/src/usb/usb_cdc.c:249-261 | while a stop stays pending, a step loses CONTROL_PENDING if and only if it is a soft-pending reset or a worker completion and no owner is left |
| ControlPending.PendingUnderAStop | firmware/src/uart/uart_driver.c:439-464 | over every run: with a stop pending, CONTROL_PENDING is set if and only if an owner is left or nothing has been swept since the stop was asked for |
| ControlPending.CompletionSweepsToo | firmware/src/uart/control/plane.c:60-84 | on every board whose backend can run a format it is not programmed for, the worker's route is reachable as well: a completion clears the flag under a pending stop |
| ControlRuns.ReasonNamesAFailure | firmware/src/uart/control/plane.c:26-47 | the recorded reason is none exactly when no generation was rejected and none has failed |
| ControlRuns.ReasonStays | firmware/src/uart/control/plane.h:43-52 | once recorded, the reason never goes back to none in any run |
| ControlRuns.ReadyWithStoppedBackend | firmware/src/uart/control/plane.c:185-201 | on every board whose backend can run a format it is not programmed for, a run reaches READY with an uninitialized backend through a failed apply |
| ControlFormats.AskedByTheHost | firmware/src/uart/uart_driver.c:702-719 | the history of asked formats grows exactly when a host request that the backend can run is marked, under its new generation |
| ControlFormats.MatchedKeepsFormats | firmware/src/uart/control/plane.c:244-256 | a request answered as already matching leaves settings, history and programmed format in agreement, also when it completes a cancelled deferred apply |
| ControlFormats.AppliedKeepsFormats | firmware/src/uart/control/plane.c:60-84 | a successful apply leaves them in agreement: the settings become the deferred request's and its generation the newest applied one |
| ControlFormats.StartedKeepsFormats | firmware/src/uart/control/plane.c:364-373 | so does a successful start with staged settings |
| ControlFormats.StepKeepsFormats | firmware/src/uart/control/plane.c:155-270 | every step of either core keeps it: whoever holds a request holds what the host asked for in that generation, requests are applied in turn, the settings are those of the newest applied one, and a running backend was programmed for them |
| ControlFormats.NewestAppliedIsShown | firmware/src/uart/control/plane.c:67-73 | in every reachable state the published settings are those the host asked for in the newest generation that ended applied, or the board's while none has; only between the two sections of a matched request do they run ahead, to that request's |
| ControlFormats.AppliedInOrder | firmware/src/uart/control/plane.c:286-315 | along every run requests end applied in the order in which the host made them, so the newest applied is also the latest |
| ControlFormats.ReadyPortRunsPublished | firmware/src/uart/control/plane.c:185-212 | in every reachable state a ready port with no completion in progress runs, on an initialized backend, what was programmed for the published settings |
| ControlFormats.AppliedRunsRequest | firmware/src/uart/hw/hw_uart_driver.c:610-643 | between a successful apply and its publication the backend runs what the request of the deferred generation achieves, programmed twice, and that generation has no outcome yet |
| ControlFormats.PublishedSettingsSettle | firmware/src/uart/hw/hw_uart_backend.c:87-97 | where programming what the settings achieve achieves it again, the backend runs exactly what the published settings achieve, and asking for them again is answered without touching it |
| ControlFormats.RecordedSettingsRun | firmware/src/uart/pio/pio_uart_backend.c:71-77 | a driver that records the requested rate, as the PIO one does, runs exactly the published settings, and only they match |
| ControlFormats.AppliedSettingsAreProgrammedTwice | firmware/src/uart/hw/hw_uart_driver.c:610-620 | without that condition it does not: a run ends with a ready port that publishes settings its backend was programmed for twice |
| HidPayloads.ChannelRoundTrip | host/python/src/pico_uart/protocol.py:152-188 | the host accepts a channel payload exactly when its fields fit, and reads back every field |
| HidPayloads.DiagnosticRoundTrip | host/python/src/pico_uart/protocol.py:191-210 | the host accepts a diagnostic exactly when it fits, and reads back every field |
| HidChannels.Channel.AccountFault | firmware/src/usb/usb_hid.c:180-188 | a fault counter shows the saturated true count after every accepted sample |
| HidChannels.Channel.AccountBytes | firmware/src/usb/usb_hid.c:204-212 | a total follows the true byte count across counter wrap, and the peak is the largest seen |
| HidChannels.Channel.Capture | firmware/src/usb/usb_hid.c:166-214 | after every capture the totals are the true counts, the fault counters the saturated true counts, the latest fault the time of the newest sample that showed one or of the latest control error, peaks stay within capacity and an unavailable channel reads zero; EndToEnd.CaptureIsReady proves what it asks of every run |
| HidChannels.Channel.BuildChannel | firmware/src/usb/usb_hid.c:322-347 | a channel payload with acceptable settings is accepted by the host and decodes to the true counts modulo 2^32, the settings, a state that is 0 exactly for a closed CDC, then 4 exactly for a failed start or control error, 1 exactly without READY, 3 exactly with and 2 without CONTROL_PENDING, the next sequence only for a publication and the interval capped at 16 bits; EndToEnd.CaptureIsReady proves the settings acceptable in every run |
| HidChannels.Channel.BuildDiagnostic | firmware/src/usb/usb_hid.c:350-365 | every diagnostic is accepted by the host and decodes to the whole capture, with age 0 for a current measurement, 255 for one that is unavailable or too old, and whole tenths of a second between |
| HidChannels.Channel.Commit | firmware/src/usb/usb_hid.c:501-506 | only an accepted publication moves sequence and interval boundary |
| Sessions.MomentSamples | firmware/src/uart/uart_driver.c:785-836 | outside an update, the statistics of a port are a sample of its true lifetime counts, with peaks within the rings |
| Sessions.RestartKeepsTruth | firmware/src/uart/hw/hw_uart_driver.c:543-554 | a restart leaves every lifetime count where it was: bytes, loss and errors |
| Sessions.SessionConserves | firmware/src/usb/usb_cdc.c:151-223 | within a session no count goes down, and delivered plus lost bytes never exceed received ones |
| Sessions.LifeIsSound | firmware/src/uart/hw/hw_uart_driver.c:528-554 | at every moment of a port's life, over any number of restarts, the books balance: delivered plus dropped bytes are at most the received ones, and sent bytes at most the accepted ones |
| Sessions.LifeTakesNothingBack | firmware/src/usb/usb_hid.c:166-214 | no later moment shows less than an earlier one, restarts between them or not |
| Sessions.SamplesFollow | firmware/src/usb/usb_hid.c:166-214 | two samples from one session or from different ones each show the true counts of their moment, and the later follows the earlier |
| Sessions.LivePort.Receive | firmware/src/uart/hw/hw_uart_driver.c:405-434 | DMA and worker on the receive side are a move in that life |
| Sessions.LivePort.Transmit | firmware/src/uart/hw/hw_uart_driver.c:310-359 | worker and wire on the transmit side are a move in that life |
| Sessions.LivePort.Drain | firmware/src/usb/usb_cdc.c:186-223 | so is a bridge pass towards USB, and the CDC counter grows by what USB took |
| Sessions.LivePort.Fill | firmware/src/usb/usb_cdc.c:151-169 | so is a bridge pass towards the UART, and the CDC counter grows by what USB handed over |
| Sessions.LivePort.Restart | firmware/src/uart/uart_driver.c:228-244 | so is a restart of the stopped port, and it changes no true count |
| EndToEnd.SettingsAreReportable | firmware/src/uart/control/plane.c:60-84 | in every reachable state the published settings are ones a channel report can carry, 8N1 on a PIO port |
| EndToEnd.ToldStateMeans | firmware/src/usb/usb_hid.c:331-335 | in every reachable state an open port decodes to 4 exactly when its start failed or its newest generation was rejected or failed, else to 1 exactly while not ready, to 3 exactly while a ready port still owes an answer, and to 2 exactly when it owes none |
| EndToEnd.RefusalIsNamed | firmware/src/usb/usb_cdc.c:382-422 | in every reachable state a format that the backend will not take is refused at once, and the history code names framing exactly when the rate is in the shared range and the port cannot frame bytes so, and the rate otherwise |
| EndToEnd.ReasonIsNeverTakenBack | firmware/src/usb/usb_hid.c:197-199 | over every run a reported reason is never followed by none |
| EndToEnd.CaptureIsReady | firmware/src/usb/usb_hid.c:166-214 | after any run of the control plane and at any moment of any life of the port, everything capture and report ask of them holds |
| EndToEnd.Report | firmware/src/usb/usb_hid.c:322-365 | every channel report and diagnostic built after such a run is accepted by the host and decodes to settings and true counts, and to a state that means what EndToEnd.ToldStateMeans says of that run |
| HostMonitor.StepOfOne | host/python/src/pico_uart/client.py:341-355 | within 65535 reports a wrapped step of one is the next report, and a step of zero the same one |
| HostMonitor.StepAboveHalf | host/python/src/pico_uart/client.py:350-356 | within 65535 reports a wrapped step above half the range is exactly a report that is not newer than the baseline by up to half the range |
| HostMonitor.RatesExact | host/python/src/pico_uart/client.py:367-372 | wrapping subtraction of two neighbouring reports is the true byte count between them |
| HostMonitor.Monitor.Accept | host/python/src/pico_uart/client.py:356-393 | an accepted report shows rates only across a clean step, and UART rates only between current measurements |
| HostMonitor.Monitor.ApplyInput | host/python/src/pico_uart/client.py:336-393 | for any drops, repeats and reordering: a report within three seconds is applied exactly if it is newer, by true number, by at most half the sequence range; ahead of a gap it becomes the baseline and counts one gap; an older one is ignored and counts at most one; every rate shown is the true count between two consecutive device reports and the observed time is the sum of exactly the clean intervals |
| HostMonitor.Monitor.CompleteMeansWhole | host/python/src/pico_uart/client.py:375-376 | while nothing is marked incomplete, the observed time is the device's own time since the first report |
| Crc32.CrcByte | firmware/src/platform/boot_config.c:53-60 | eight masked shifts are one byte of polynomial division |
| Crc32.PolynomialIsGenerator | firmware/src/platform/boot_config.c:57 | the divisor word holds the exponents of the generator of section 8 of RFC 1952, least significant first |
| Crc32.CheckValue | firmware/src/platform/boot_config.c:63-70 | the checksum of one letter is the published value, which fixes initial word and final complement |
| Crc32.BootConfigCrc32 | firmware/src/platform/boot_config.c:63-70 | the loop computes the checksum of the whole message |
| Crc32.BitInjective | firmware/src/platform/boot_config.c:56-58 | a division step loses no information |
| Crc32.BitMixes | firmware/src/platform/boot_config.c:56-58 | a division step is linear over exclusive or |
| Crc32.TableOctetIsOctet | tools/firmware/config.py:56 | one table look-up of section 8 of RFC 1952 does the work of eight bit steps |
| Crc32.ZlibAgrees | tools/firmware/config.py:56 | the table-driven checksum equals the firmware's bit-serial one on every message |
| Crc32.FoldWindow | firmware/src/platform/boot_config.c:63-70 | up to four bytes that enter at once are divided like bytes that enter one by one |
| Crc32.WindowDetected | firmware/src/platform/boot_config.c:53-70 | two messages of any equal length that differ only inside four consecutive bytes never share a checksum |
| BootConfig.Encode | firmware/src/platform/boot_config.c:86-101 | the encoded page starts with the canonical record and the rest of the page is untouched |
| BootConfig.Decode | firmware/src/platform/boot_config.c:104-176 | the scan reaches the verdict of the format definition, with its recovery rule and RP2040 cap |
| BootConfig.JudgeTells | firmware/src/platform/boot_config.c:104-161 | each verdict is what the format says of the sector: erased, another version, a wrong checksum under a right header, a canonical sector of an unsupported profile, or of a supported one |
| BootConfig.StatusBoots | firmware/src/platform/boot_config.c:104-176 | what Decode returns boots the stored profile of a canonical sector, capped at 3 exactly for 4 on an RP2040 and at none exactly after a watchdog recovery, and the default of every other sector, with the reason for it |
| BootConfig.SkippingCrc | firmware/src/platform/boot_config.c:136-141 | stepping over the checksum field computes the checksum of the protected bytes |
| BootConfig.SectorIsAccepted | firmware/src/platform/boot_config.c:86-176 | decoding inverts encoding |
| BootConfig.AcceptedIsSector | firmware/src/platform/boot_config.c:104-176 | nothing but a canonical sector is accepted |
| BootConfig.StoredIffSector | firmware/src/platform/boot_config.c:104-176 | each profile has exactly one valid sector |
| BootConfig.SectorsFarApart | firmware/src/platform/boot_config.c:86-101 | the sectors of two profiles differ in the profile field and in the checksum |
| BootConfig.CorruptionRejected | firmware/src/platform/boot_config.c:136-161 | corrupting up to four consecutive bytes of a valid sector never yields another valid one |
| BootConfig.EncodeSector | tools/firmware/config.py:53-57 | the provisioner writes the firmware's canonical sector |
| BootConfig.DecodersAgree | tools/firmware/config.py:60-77 | provisioner and firmware accept exactly the same sectors and read the same profile |
| BootConfig.Settings.Load | firmware/src/platform/boot_config.c:179-185 | the cached setting is the stored profile even when a recovery boots without it |
| BootConfig.Settings.Save | firmware/src/platform/boot_config.c:234-257 | success means the sector is canonical for the requested profile, a verify failure means it is not, and a sector that already is canonical is left alone |
| Uf2.ReadBlocks | tools/release/verify-build.py:220-262 | the block scan accepts exactly well-formed files with one declared count and distinct numbers |
| Uf2.MarkBlock | tools/release/verify-build.py:293-305 | a block passes exactly when it equals the binary at its place, is zero beyond it, and overlaps nothing marked before |
| Uf2.CheckTiling | tools/release/verify-build.py:293-308 | passing means that every byte of the binary is in exactly one block |
| Uf2.VerifyUf2Payload | tools/release/verify-build.py:220-308 | the check accepts exactly the described files: numbers are 0 to n-1, blocks tile the binary, absolute-block rules hold |
| Uf2.ProgrammedBytes | tools/release/verify-build.py:293-308 | whatever was flashed before, a programmed address holds the binary's byte or zero |
| Uf2.FlashedImage | tools/release/verify-build.py:220-308 | flashing an accepted file in any block order onto any contents leaves exactly the binary, nothing changed below it and only zeros written beyond it |
| Uf2Writer.BlockIsWellFormed | tools/release/verify-build.py:220-262 | a block laid out byte by byte from the format is well formed and reads back address, payload, number, count and family |
| Uf2Writer.RawsRead | tools/release/verify-build.py:220-230 | such blocks one after the other read back as themselves |
| Uf2Writer.WrittenFileAccepted | tools/release/verify-build.py:220-308 | for every binary that fits the address space, the file of an independent block writer is accepted, for every family without an absolute block |
| LockFilter.Exclude | tools/validation/filter_lock_exclude.py:63-71 | the loop ends with the least set that contains the request and is closed under having only excluded parents |
| LockFilter.ClosureUnique | tools/validation/filter_lock_exclude.py:63-71 | that set is unique |
| LockFilter.ClosureIgnoresOrder | tools/validation/filter_lock_exclude.py:63-71 | it does not depend on the order of packages |
| LockFilter.ExcludedForCause | tools/validation/filter_lock_exclude.py:63-71 | every extra exclusion has a package entry whose parents are all excluded |
| LockFilter.FilterLock | tools/validation/filter_lock_exclude.py:30-82 | fails exactly for an empty lock or an unknown name; otherwise the output is the preamble followed by the lines at exactly those input positions, in order and each once, whose package is outside the closure and whose line names no parent in it |
| LockFilter.KeptSelects | tools/validation/filter_lock_exclude.py:73-81 | the kept lines are exactly those positions, so neither dropping nor keeping a block goes unnoticed |
| LockFilter.KeptParentSurvives | tools/validation/filter_lock_exclude.py:73-81 | a kept package with recorded parents keeps the line of a parent that is itself kept |
| LockFilter.KeptInOrder | tools/validation/filter_lock_exclude.py:73-81 | the output lines stand in input order |
| BaudRate.NothingTruncated | firmware/src/uart/hw/baud_rate.h:44-57 | for all 32-bit inputs neither narrowing cast loses bits and the 64-bit product does not overflow |
| BaudRate.ToleranceExact | firmware/src/uart/hw/baud_rate.h:64-70 | the rounded parts-per-million test accepts exactly errors with 2,000,000 times the distance below 40,001 times the rate |
| BaudRate.NearestDivisor | firmware/src/uart/hw/baud_rate.h:43-52 | no legal divisor is nearer to the quotient of clock and rate |
| BaudRate.NearestRateExactly | firmware/src/uart/hw/baud_rate.h:22-29 | the achieved rate is the nearest representable one, as the comment says, if and only if neither neighbouring divisor makes a nearer one |
| BaudRate.NearestRateMissed | firmware/src/uart/hw/baud_rate.h:22-29 | a rate for which it is not: 144 baud at 150 MHz is achieved as 143 although 144 is representable |
| BaudRate.RateReproduced | firmware/src/uart/hw/baud_rate.h:30-59 | recomputing from any achieved rate achieves it again if and only if the clock leaves a remainder below half the rate or, at the upper clamp, the rate is the one of the largest divisor |
| BaudRate.SmallDivisorsReproduced | firmware/src/uart/hw/hw_uart_driver.c:610-620 | with the squared divisor at most twice the clock the apply path's second calculation reproduces divisor and rate |
| BaudRate.LowRateDrifts | firmware/src/uart/hw/baud_rate.h:44-54 | a supported low rate that is not reproduced: 154 achieves 153, which achieves 152 |
| BaudRate.Calculate | firmware/src/uart/hw/baud_rate.h:30-59 | the outputs are the untruncated rate and error, for every non-zero input |
| BaudRate.Supported | firmware/src/uart/hw/baud_rate.h:64-70 | supported exactly within the exact tolerance |

## Left out

- RxDrain.RxPort.DrainRx: with capacity 0 the source's loop need not end against a live producer; everything but the end is stated for every finite number of its passes.
- TxPath.TxPort.FillTx: the same for capacity 0, which the bridge never passes.
- RxPath.SettlingKeeps: times are not modelled; the sampler may look any number of times and may give up after any look.
- RxDrain.RxPort.Deliver: the USB writer never reports more than it was offered, so the source's defensive return for that case is not modelled.
- HidChannels.Channel.Capture: the 64-bit totals are unbounded in the model; their own wrap at 2^64 bytes is not modelled.
- Seqlock.StatsPort.PortStatistics: the statistics sequence is unbounded; a reader stalled for exactly 2^32 updates is not modelled.
- ControlRuns.ErrorReportsNewest: generations are unbounded; a request outstanding over 2^32 newer ones is not modelled.
- HostMonitor.Monitor.ApplyInput: covers the counters, gaps and intervals of one channel; timestamps as text and the other copied fields are carried as one sample.
- Uf2Writer.WrittenFileAccepted: the writer lays out plain firmware blocks only, so files with the RP2350 absolute block are left to Uf2.VerifyUf2Payload.
- ControlFormats.ReadyPortRunsPublished: the framing the PIO driver does not record is 8N1 on every format it accepts, so one recorded format stands for both drivers.
- RxDrain.RxPort.ReserveRead: why a pass ends is stated for an environment that stands still; while bytes keep arriving, any pass may find its snapshot overtaken, as in the source.
- Uf2.VerifyUf2Payload: all error messages are one rejection, and blocks outside main flash are unchecked beyond their headers, as in the source.
- LockFilter.FilterLock: lines arrive parsed into package blocks with normalized names; the regular expressions are not modelled.
- BootConfig.Settings.Save: erase and program are one update that may fail or leave anything in the sector.
- BootConfig.Decode: the missing-sector pointer is not modelled, and the status after an unavailable clock is left out.
- HidPayloads.ChannelRoundTrip: the channel index and channel count checks, which depend only on the caller, are left out.
- PortControl.Port.ReportControlError: the time of the latest control error is left out of the status; its reason is in it.
- Bytes between two sessions: what a deinit aborts in flight or leaves in the ring is only shown never to be delivered or sent later.
- Ports: one port is modelled; the six share nothing but the lock and the service order.
- Deadlines: expiry is a free choice at each check, so the rule that an identical retry keeps its deadline is not needed and not modelled.
- Requests addressed to another port, null pointers and unbound backends: rejected before anything modelled here happens.
- Weak memory below the barriers, TinyUSB FIFO contents, PIO assembly, clock dividers, GPIO, RTS hysteresis, resource claims, temperature, LED, watchdog and service load.
- HID transport, commands and discovery, dashboards, hardware test runners, Intel HEX, ELF and USB descriptor checks, and command lines.

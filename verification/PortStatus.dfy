/**
 The lock-protected status of one logical UART port: lifecycle handshake, control ownership and health flags.

 Each function is one `spin_lock_blocking ... spin_unlock` section of the firmware, as a whole: which fields move,
 and to what. `PortControl` runs the sections statement by statement on the firmware's own fields.
 */
module PortStatus {
  import opened Words

  datatype LineCoding = LineCoding(baudRate: u32, dataBits: byte, stopBits: byte, parity: byte)

  /** The shared firmware bounds on a format. */
  predicate ValidLineCoding(l: LineCoding) {
    50 <= l.baudRate <= 3000000 && 5 <= l.dataBits <= 8 && 1 <= l.stopBits <= 2 && l.parity <= 2
  }

  predicate EightN1(l: LineCoding) {
    l.dataBits == 8 && l.stopBits == 1 && l.parity == 0
  }

  /** A PIO clock divider of `clocks` per bit can make this rate from the system clock. */
  predicate PioRateFeasible(baudRate: u32, sysHz: u32, clocks: nat) {
    baudRate != 0 && sysHz != 0 && clocks * baudRate <= sysHz < 65536 * (clocks * baudRate)
  }

  /** What a PIO port accepts: 8N1, at a rate that both its state machines can make. */
  predicate PioSupported(l: LineCoding, sysHz: u32) {
    ValidLineCoding(l) && EightN1(l) && PioRateFeasible(l.baudRate, sysHz, 8) && PioRateFeasible(l.baudRate, sysHz, 32)
  }

  /** Why the latest control request failed; nothing since power-up is `NoError`. */
  datatype ErrorReason = NoError | BadBaud | BadFraming | BackendFailed | TimedOut | OtherError

  /** The port can frame bytes in this way, at whatever rate. */
  predicate FramingFits(l: LineCoding, pio: bool) {
    5 <= l.dataBits <= 8 && 1 <= l.stopBits <= 2 && l.parity <= 2 && (pio ==> EightN1(l))
  }

  /**
   The reason recorded for a format that the port will not apply: the framing, when the rate is at least in the shared
   range and the framing does not fit the port, and the rate otherwise.
   */
  function LineCodingError(l: LineCoding, pio: bool): (reason: ErrorReason)
    ensures reason == BadFraming <==> 50 <= l.baudRate <= 3000000 && !FramingFits(l, pio)
    ensures reason != BadFraming ==> reason == BadBaud
  {
    if !(50 <= l.baudRate <= 3000000) then BadBaud
    else if !ValidLineCoding(l) then BadFraming
    else if pio && !EightN1(l) then BadFraming
    else BadBaud
  }

  /** A line-coding request on its way from the USB core to the worker. */
  datatype Request = Request(generation: nat, boundary: nat, lineCoding: LineCoding)

  /** The worker's deferred apply. */
  datatype Pending = Pending(pending: bool, generation: nat, boundary: nat, lineCoding: LineCoding)

  datatype Status = Status(
    ready: bool,
    initFailed: bool,
    controlError: bool,
    controlPending: bool,
    stopPending: bool,
    usbQuiesced: bool,
    startPending: bool,
    softPending: bool,
    generation: nat,
    mailbox: Option<Request>,
    pending: Pending,
    info: LineCoding,
    reason: ErrorReason)

  predicate PendingShouldClear(soft: bool, mailbox: bool, worker: bool) {
    !soft && !mailbox && !worker
  }

  // The USB core's sections.

  function RequestChannelStop(s: Status): Status {
    s.(startPending := false,
       generation := s.generation + 1,
       softPending := false,
       ready := false, initFailed := false, controlError := false,
       controlPending := true,
       stopPending := true,
       usbQuiesced := s.stopPending && s.usbQuiesced)
  }

  function RequestChannelStart(s: Status): Status {
    s.(startPending := true)
  }

  function StopUsbQuiesced(s: Status): Status {
    s.(usbQuiesced := s.usbQuiesced || s.stopPending)
  }

  predicate CanPublish(s: Status) {
    s.mailbox.None?
  }

  function QueueLineCoding(s: Status, lineCoding: LineCoding, generation: nat, producer: nat): Status {
    if !CanPublish(s) then s else
      s.(softPending := false, controlPending := true, mailbox := Some(Request(generation, producer, lineCoding)))
  }

  function MarkControlPending(s: Status): Status {
    s.(generation := s.generation + 1, softPending := true, controlPending := true, controlError := false)
  }

  function ReportControlError(s: Status, reason: ErrorReason): Status {
    s.(generation := s.generation + 1, controlError := true, reason := reason)
  }

  function ReportSoftPendingError(s: Status, generation: nat, reason: ErrorReason): Status {
    s.(softPending := false,
       reason := reason,
       controlError := s.controlError || generation == s.generation,
       controlPending := s.controlPending && !PendingShouldClear(false, s.mailbox.Some?, s.pending.pending))
  }

  function ResetSoftPending(s: Status): Status {
    s.(softPending := false,
       controlPending := s.controlPending && !PendingShouldClear(false, s.mailbox.Some?, s.pending.pending))
  }

  // The worker's sections.

  /** Acknowledge the mailbox and own the request in one step; the second result is the taken request. */
  function TakeForService(s: Status): (Status, Option<Request>) {
    if !s.ready || s.mailbox.None? then (s, None) else
      var request := s.mailbox.value;
      var pending := if s.pending.pending then s.pending else
        s.pending.(pending := true, generation := request.generation);
      (s.(mailbox := None, pending := pending), Some(request))
  }

  function TakeForStart(s: Status): (Status, Option<Request>) {
    if s.mailbox.None? then (s, None) else
      var request := s.mailbox.value;
      (s.(mailbox := None, pending := s.pending.(pending := true, generation := request.generation)), Some(request))
  }

  /** `error` is `NoError` for a request that applied the format `applied`. */
  function FinishWorkerControl(s: Status, generation: nat, error: ErrorReason, applied: LineCoding): Status {
    s.(info := if error.NoError? then applied else s.info,
       reason := if error.NoError? then s.reason else error,
       pending := s.pending.(pending := false),
       controlPending := s.controlPending && !PendingShouldClear(s.softPending, s.mailbox.Some?, false),
       controlError := if generation == s.generation then !error.NoError? else s.controlError)
  }

  function FinishMailboxControl(s: Status, generation: nat, error: ErrorReason, dropProvisional: bool,
                                workerGeneration: nat, completeWorker: bool): Status
  {
    var pending := s.pending.pending && !dropProvisional && !completeWorker;
    s.(reason := if error.NoError? then s.reason else error,
       pending := s.pending.(pending := pending),
       controlPending := s.controlPending && !PendingShouldClear(s.softPending, s.mailbox.Some?, pending),
       controlError :=
         if generation == s.generation then !error.NoError?
         else s.controlError && !(completeWorker && workerGeneration == s.generation))
  }

  function PublishInfo(s: Status, lineCoding: LineCoding): Status {
    s.(info := lineCoding)
  }

  function SetWorkerPending(s: Status, generation: nat): Status {
    s.(pending := s.pending.(pending := true, generation := generation),
       controlPending := true,
       controlError := s.controlError && generation != s.generation)
  }

  function MarkApplyFailed(s: Status): Status {
    s.(initFailed := true, ready := false)
  }

  function CompleteStop(s: Status): Status {
    s.(mailbox := None,
       pending := Pending(false, 0, 0, LineCoding(0, 0, 0, 0)),
       stopPending := false, usbQuiesced := false,
       ready := false, initFailed := false,
       controlPending := s.controlPending && s.softPending)
  }

  /** Consume a queued start, unless a stop has overtaken it. */
  function TakeStart(s: Status): (Status, bool) {
    if !s.startPending || s.stopPending then (s, false) else (s.(startPending := false), true)
  }

  function PublishStart(s: Status, ok: bool): Status {
    var current := !s.stopPending && !s.startPending;
    s.(initFailed := if current then !ok else s.initFailed, ready := if current then ok else s.ready)
  }
}

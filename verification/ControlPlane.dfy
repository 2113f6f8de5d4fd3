/**
 Two cores around one UART port: the USB core's session machine and the UART worker's lifecycle and control
 plane, as a state machine. Every locked section and every unlocked shared access is one step; both program
 counters are explicit, and any interleaving of the two cores and of the receive DMA is a run.
 */
module ControlPlane {
  import opened Words
  import opened PortStatus

  datatype Admission = StartPending | Starting | Running

  /** The USB core's private session state. */
  datatype Session = Session(isOpen: bool, admission: Admission, pending: bool, generation: nat, lineCoding: LineCoding)

  datatype UsbCore =
    | UsbIdle
    // DTR close
    | CloseResetSoft
    | CloseStop
    // USB reset
    | ResetStop
    | ResetCheckStop
    | ResetQuiesce
    | ResetSoft
    // one poll of the port
    | CheckQuiesced
    | MarkQuiesced
    | StageInitial
    | AskStart
    | CheckReady
    | CheckInitialized
    | StageLive
    | CheckStatus
    | CheckFill
    | CheckBlocked
    | Filling
    | CheckDrain
    | Draining

  datatype Worker =
    | WorkerIdle
    // lifecycle
    | Deiniting
    | CompletingStop
    | TakingStart
    | TakingInitial
    | StartingPort(taken: Option<Request>)
    | FinishingStart(request: Request, started: bool)
    | PublishingStart(started: bool)
    // mailbox service
    | Taken(request: Request, prior: bool)
    | Matching(request: Request, prior: bool)
    | FinishingMatch(request: Request, prior: bool)
    | RejectingMailbox(request: Request, prior: bool)
    | SettingPending(request: Request)
    // deferred apply
    | Servicing
    | Applying
    | MarkingFailed
    | FinishingApply(error: ErrorReason)
    // backend poll
    | Polling(launchAllowed: bool)

  /**
   The backend and its rings; a queued byte is represented by the number of stops completed before it came in, and
   `running` is the format the driver has on record as programmed.
   */
  datatype Backend = Backend(
    initialized: bool,
    txQueue: seq<nat>,
    rxQueue: seq<nat>,
    producer: nat,
    consumer: nat,
    inFlight: nat,
    running: LineCoding)

  /** What became of a request generation. */
  datatype Outcome = Rejected | Stopped | Applied | Failed

  /**
   `achieved` is what programming the hardware with a format puts on record. `live`, `stops`, `outcomes` and `asked`
   are history that no code reads: the port is live from a published start to the completion of its next stop, and
   `asked` holds the format of every marked request, with the board's settings as generation 0.
   */
  datatype State = State(
    status: Status,
    session: Session,
    usb: UsbCore,
    worker: Worker,
    backend: Backend,
    supported: LineCoding -> bool,
    achieved: LineCoding -> LineCoding,
    pio: bool,
    live: bool,
    stops: nat,
    outcomes: map<nat, Outcome>,
    asked: map<nat, LineCoding>)

  datatype UsbEvent =
    | PollPort
    | HostOpens
    | HostCloses
    | HostResets
    | HostSets(lineCoding: LineCoding)
    | HostSetsBad(badBaud: bool)  // does not parse as a format: the rate, or the framing, is out of range

  datatype WorkerTask = ServeLifecycle | ServeMailbox | ServePending | PollBackend

  datatype StartOutcome = NotStarted | ClearedNotStarted | Started

  datatype Step =
    | UsbStep(event: UsbEvent, expired: bool, cleared: bool, more: bool)
    | WorkerStep(task: WorkerTask, expired: bool, applied: bool, stopped: bool, fellBack: bool, outcome: StartOutcome,
                 launch: nat)
    | DmaReceive

  /** The port's backend can run this format. */
  predicate Acceptable(supported: LineCoding -> bool, lineCoding: LineCoding) {
    ValidLineCoding(lineCoding) && supported(lineCoding)
  }

  function Cleared(b: Backend): Backend {
    b.(txQueue := [], rxQueue := [], producer := 0, consumer := 0, inFlight := 0)
  }

  function Ended(success: bool): Outcome {
    if success then Applied else Failed
  }

  /** The staged request is given up: it expired, or the backend would never take it. */
  function GivenUp(s: State, reason: ErrorReason): State {
    s.(session := s.session.(pending := false),
       status := ReportSoftPendingError(s.status, s.session.generation, reason),
       outcomes := s.outcomes[s.session.generation := Failed])
  }

  /** The staged request enters the mailbox with the transmit boundary it must wait for. */
  function Queued(s: State): State {
    s.(session := s.session.(pending := false),
       status := QueueLineCoding(s.status, s.session.lineCoding, s.session.generation, s.backend.producer))
  }

  /** Staging of the pending request: give up, submit, or keep it for the next poll. */
  function Stage(s: State, expired: bool): State {
    if !s.session.pending then s
    else if expired then GivenUp(s, TimedOut)
    else if !Acceptable(s.supported, s.session.lineCoding) then GivenUp(s, OtherError)
    else if CanPublish(s.status) then Queued(s)
    else s
  }

  function Refused(s: State, reason: ErrorReason): State {
    s.(status := ReportControlError(s.status, reason), outcomes := s.outcomes[s.status.generation + 1 := Rejected])
  }

  function Marked(s: State, lineCoding: LineCoding): State {
    s.(session := s.session.(pending := true, lineCoding := lineCoding, generation := s.status.generation + 1),
       status := MarkControlPending(s.status),
       asked := s.asked[s.status.generation + 1 := lineCoding])
  }

  function StopRequested(s: State): State {
    s.(status := RequestChannelStop(s.status), outcomes := s.outcomes[s.status.generation + 1 := Stopped])
  }

  /** A host callback, from an idle core. */
  function UsbCallback(s: State, event: UsbEvent): State {
    match event
    case HostOpens =>
      s.(session := if s.session.isOpen then s.session else s.session.(isOpen := true, admission := StartPending))
    case HostCloses =>
      if !s.session.isOpen then s else
        s.(session := s.session.(admission := StartPending, pending := false), usb := CloseResetSoft)
    case HostResets => s.(usb := if s.session.isOpen then ResetStop else ResetCheckStop)
    case HostSets(lineCoding) =>
      if Acceptable(s.supported, lineCoding) then Marked(s, lineCoding)
      else Refused(s, LineCodingError(lineCoding, s.pio))
    case HostSetsBad(badBaud) => Refused(s, if badBaud then BadBaud else BadFraming)
    case PollPort => s
  }

  /** The start of a poll. */
  function UsbPoll(s: State): State {
    if s.status.stopPending then s.(usb := CheckQuiesced)
    else if !s.session.isOpen then s
    else s.(usb := if s.session.admission == StartPending then StageInitial else CheckReady)
  }

  /** The rest of a DTR close, and of a poll that finds a stop pending. */
  function UsbClose(s: State, cleared: bool): State {
    match s.usb
    case CloseResetSoft => s.(status := ResetSoftPending(s.status), usb := CloseStop)
    case CloseStop => StopRequested(s).(session := s.session.(isOpen := false), usb := UsbIdle)
    case CheckQuiesced =>
      if s.status.stopPending && s.status.usbQuiesced then s.(usb := UsbIdle)
      else s.(usb := if cleared then MarkQuiesced else UsbIdle)
    case MarkQuiesced => s.(status := StopUsbQuiesced(s.status), usb := UsbIdle)
    case _ => s
  }

  /** The rest of a USB reset. */
  function UsbReset(s: State): State {
    match s.usb
    case ResetStop => StopRequested(s).(usb := ResetCheckStop)
    case ResetCheckStop => s.(usb := if s.status.stopPending then ResetQuiesce else ResetSoft)
    case ResetQuiesce => s.(status := StopUsbQuiesced(s.status), usb := ResetSoft)
    case ResetSoft =>
      s.(session := s.session.(isOpen := false, admission := StartPending, pending := false),
         status := ResetSoftPending(s.status), usb := UsbIdle)
    case _ => s
  }

  /** Settings go to the mailbox before the start is asked for, and again once the port is live. */
  function UsbStage(s: State, expired: bool): State {
    var staged := Stage(s, expired);
    if s.usb.StageInitial? then staged.(usb := if staged.session.pending then UsbIdle else AskStart)
    else staged.(usb := if s.session.admission == Starting then CheckStatus else CheckFill)
  }

  /** Admission: ask for a start and wait for READY. */
  function UsbAdmit(s: State): State {
    match s.usb
    case AskStart =>
      s.(status := RequestChannelStart(s.status), session := s.session.(admission := Starting), usb := CheckReady)
    case CheckReady => s.(usb := if s.status.ready then CheckInitialized else UsbIdle)
    case CheckInitialized => s.(usb := if s.backend.initialized then StageLive else UsbIdle)
    case CheckStatus =>
      if s.status.controlPending || s.status.controlError || s.status.initFailed then s.(usb := UsbIdle)
      else s.(session := s.session.(admission := Running), usb := CheckFill)
    case _ => s
  }

  /** One bridge pass, byte by byte. */
  function UsbBridge(s: State, more: bool): State {
    match s.usb
    case CheckFill => s.(usb := if s.backend.initialized then CheckBlocked else CheckDrain)
    case CheckBlocked => s.(usb := if s.status.controlPending then CheckDrain else Filling)
    case Filling =>
      if !more then s.(usb := CheckDrain) else
        s.(backend := s.backend.(txQueue := s.backend.txQueue + [s.stops], producer := s.backend.producer + 1))
    case CheckDrain => s.(usb := if s.backend.initialized then Draining else UsbIdle)
    case Draining =>
      if !more || s.backend.rxQueue == [] then s.(usb := UsbIdle) else
        s.(backend := s.backend.(rxQueue := s.backend.rxQueue[1..]))
    case _ => s
  }

  /** The core is inside a bridge pass. */
  predicate Bridging(u: UsbCore) {
    u.CheckFill? || u.CheckBlocked? || u.Filling? || u.CheckDrain? || u.Draining?
  }

  predicate Staging(u: UsbCore) {
    u.StageInitial? || u.StageLive?
  }

  predicate Admitting(u: UsbCore) {
    u.AskStart? || u.CheckReady? || u.CheckInitialized? || u.CheckStatus?
  }

  predicate Closing(u: UsbCore) {
    u.CloseResetSoft? || u.CloseStop? || u.CheckQuiesced? || u.MarkQuiesced?
  }

  predicate Resetting(u: UsbCore) {
    u.ResetStop? || u.ResetCheckStop? || u.ResetQuiesce? || u.ResetSoft?
  }

  function UsbNext(s: State, event: UsbEvent, expired: bool, cleared: bool, more: bool): State {
    if s.usb.UsbIdle? then (if event.PollPort? then UsbPoll(s) else UsbCallback(s, event))
    else if Staging(s.usb) then UsbStage(s, expired)
    else if Admitting(s.usb) then UsbAdmit(s)
    else if Bridging(s.usb) then UsbBridge(s, more)
    else if Closing(s.usb) then UsbClose(s, cleared)
    else UsbReset(s)
  }

  /** Worker: the boundary of the deferred request has drained. */
  predicate Drained(s: State) {
    s.backend.consumer == s.status.pending.boundary
  }

  function WorkerBegin(s: State, task: WorkerTask): State {
    match task
    case ServeLifecycle =>
      if s.status.stopPending then s.(worker := if s.status.usbQuiesced then Deiniting else WorkerIdle)
      else s.(worker := if s.status.startPending then TakingStart else WorkerIdle)
    case ServeMailbox =>
      var (status, request) := TakeForService(s.status);
      if request.None? then s else
        s.(status := status, worker := Taken(request.value, s.status.pending.pending))
    case ServePending =>
      s.(worker := if s.status.pending.pending && s.status.ready then Servicing else WorkerIdle)
    case PollBackend =>
      if (s.status.stopPending && s.status.usbQuiesced) || !s.backend.initialized then s
      else s.(worker := Polling(!s.status.pending.pending || !Drained(s)))
  }

  predicate Stopping(w: Worker) {
    w.Deiniting? || w.CompletingStop? || w.TakingStart?
  }

  /** Stop a quiesced port, then look for a start. */
  function WorkerStop(s: State): State {
    match s.worker
    case Deiniting =>
      s.(backend := s.backend.(initialized := false, inFlight := 0), worker := CompletingStop)
    case CompletingStop =>
      s.(status := CompleteStop(s.status), live := false, stops := s.stops + 1, worker := TakingStart)
    case TakingStart =>
      var (status, taken) := TakeStart(s.status);
      s.(status := status, worker := if taken then TakingInitial else WorkerIdle)
    case _ => s
  }

  predicate BringingUp(w: Worker) {
    w.TakingInitial? || w.StartingPort? || w.FinishingStart? || w.PublishingStart?
  }

  /** Bring a stopped port up with its initial settings. */
  function WorkerStart(s: State, outcome: StartOutcome): State {
    match s.worker
    case TakingInitial =>
      var (status, request) := TakeForStart(s.status);
      s.(status := status, worker := StartingPort(request))
    case StartingPort(taken) =>
      var initial := if taken.Some? then taken.value.lineCoding else s.status.info;
      var started := outcome == Started && Acceptable(s.supported, initial);
      var backend :=
        if started then Cleared(s.backend).(initialized := true, running := s.achieved(initial))
        else if outcome == ClearedNotStarted && Acceptable(s.supported, initial) then
          Cleared(s.backend).(initialized := false)
        else s.backend;
      s.(backend := backend,
         worker := if taken.Some? then FinishingStart(taken.value, started) else PublishingStart(started))
    case FinishingStart(request, started) =>
      s.(status := FinishWorkerControl(s.status, request.generation, if started then NoError else BackendFailed,
                                       request.lineCoding),
         outcomes := s.outcomes[request.generation := Ended(started)],
         worker := PublishingStart(started))
    case PublishingStart(started) =>
      var status := PublishStart(s.status, started);
      s.(status := status, live := s.live || status.ready, worker := WorkerIdle)
    case _ => s
  }

  /** Programming the format would put on record what is on record already. */
  predicate Matches(s: State, lineCoding: LineCoding) {
    s.backend.initialized && Acceptable(s.supported, lineCoding) && s.achieved(lineCoding) == s.backend.running
  }

  /** What a taken request needs: an answer, or to become the deferred apply. */
  function Decide(s: State, request: Request, prior: bool): Worker {
    if !ValidLineCoding(request.lineCoding) then RejectingMailbox(request, prior)
    else if Matches(s, request.lineCoding) then Matching(request, prior)
    else if !Acceptable(s.supported, request.lineCoding) then RejectingMailbox(request, prior)
    else SettingPending(request)
  }

  /** The record of the deferred apply, in place of the one it cancels. */
  function RecordRequest(t: Status, request: Request): Status {
    t.(pending := t.pending.(lineCoding := request.lineCoding, boundary := request.boundary))
  }

  /** Decide about a taken request; one that changes the format becomes the deferred apply. */
  function WorkerMailbox(s: State): State {
    match s.worker
    case Taken(request, prior) =>
      var decision := Decide(s, request, prior);
      s.(status := if decision.SettingPending? then RecordRequest(s.status, request) else s.status,
         worker := decision)
    case SettingPending(request) =>
      s.(status := SetWorkerPending(s.status, request.generation), worker := WorkerIdle)
    case _ => s
  }

  /** Answer a request straight from the mailbox. */
  function WorkerAnswer(s: State): State {
    match s.worker
    case Matching(request, prior) =>
      s.(status := PublishInfo(s.status, request.lineCoding), worker := FinishingMatch(request, prior))
    case FinishingMatch(request, prior) =>
      s.(status := FinishMailboxControl(s.status, request.generation, NoError, !prior, s.status.pending.generation,
                                        prior),
         outcomes := (if prior then s.outcomes[s.status.pending.generation := Applied] else s.outcomes)
                     [request.generation := Applied],
         worker := WorkerIdle)
    case RejectingMailbox(request, prior) =>
      var reason := LineCodingError(request.lineCoding, s.pio);
      s.(status := FinishMailboxControl(s.status, request.generation, reason, !prior, 0, false),
         outcomes := s.outcomes[request.generation := Failed],
         worker := WorkerIdle)
    case _ => s
  }

  /**
   Attempt the deferred apply, once the bytes admitted before it have drained. A driver programs the rate it has
   worked out for the request; a failed attempt may have fallen back to programming the recorded rate again.
   */
  function WorkerApply(s: State, expired: bool, applied: bool, stopped: bool, fellBack: bool): State {
    match s.worker
    case Servicing =>
      if expired then s.(worker := FinishingApply(TimedOut))
      else s.(worker := if Drained(s) then Applying else WorkerIdle)
    case Applying =>
      if applied && s.backend.inFlight == 0 then
        s.(backend := s.backend.(running := s.achieved(s.achieved(s.status.pending.lineCoding))),
           worker := FinishingApply(NoError))
      else if stopped then s.(backend := s.backend.(initialized := false), worker := MarkingFailed)
      else
        s.(backend := s.backend.(running := if fellBack then s.achieved(s.backend.running) else s.backend.running),
           worker := if expired then FinishingApply(TimedOut) else WorkerIdle)
    case _ => s
  }

  /** Record the outcome of an apply. */
  function WorkerConclude(s: State): State {
    match s.worker
    case MarkingFailed => s.(status := MarkApplyFailed(s.status), worker := FinishingApply(BackendFailed))
    case FinishingApply(error) =>
      s.(status := FinishWorkerControl(s.status, s.status.pending.generation, error, s.status.pending.lineCoding),
         outcomes := s.outcomes[s.status.pending.generation := Ended(error.NoError?)],
         worker := WorkerIdle)
    case _ => s
  }

  /** Retire what is in flight, launch more, or end the poll. */
  function WorkerPoll(s: State, launchAllowed: bool, completed: bool, launch: nat): State {
    var b := s.backend;
    if 0 < b.inFlight <= |b.txQueue| && completed then
      s.(backend := b.(txQueue := b.txQueue[b.inFlight..], consumer := b.consumer + b.inFlight, inFlight := 0))
    else if b.inFlight == 0 && launchAllowed && 0 < launch <= |b.txQueue| then s.(backend := b.(inFlight := launch))
    else s.(worker := WorkerIdle)
  }

  predicate Deciding(w: Worker) {
    w.Taken? || w.SettingPending?
  }

  predicate Answering(w: Worker) {
    w.Matching? || w.FinishingMatch? || w.RejectingMailbox?
  }

  /** The worker holds a request it took from the mailbox. */
  predicate Carries(w: Worker) {
    Deciding(w) || Answering(w)
  }

  predicate Attempting(w: Worker) {
    w.Servicing? || w.Applying?
  }

  predicate Concluding(w: Worker) {
    w.MarkingFailed? || w.FinishingApply?
  }

  /** The worker serves a deferred apply. */
  predicate InApply(w: Worker) {
    Attempting(w) || Concluding(w)
  }

  function WorkerNext(s: State, task: WorkerTask, expired: bool, applied: bool, stopped: bool, fellBack: bool,
                      outcome: StartOutcome, launch: nat): State
  {
    if s.worker.WorkerIdle? then WorkerBegin(s, task)
    else if Deciding(s.worker) then WorkerMailbox(s)
    else if Answering(s.worker) then WorkerAnswer(s)
    else if Attempting(s.worker) then WorkerApply(s, expired, applied, stopped, fellBack)
    else if Concluding(s.worker) then WorkerConclude(s)
    else if s.worker.Polling? then WorkerPoll(s, s.worker.launchAllowed, applied, launch)
    else if Stopping(s.worker) then WorkerStop(s)
    else WorkerStart(s, outcome)
  }

  function DmaNext(s: State): State {
    if !s.backend.initialized then s else s.(backend := s.backend.(rxQueue := s.backend.rxQueue + [s.stops]))
  }

  function Next(s: State, step: Step): State {
    match step
    case UsbStep(event, expired, cleared, more) => UsbNext(s, event, expired, cleared, more)
    case WorkerStep(task, expired, applied, stopped, fellBack, outcome, launch) =>
      WorkerNext(s, task, expired, applied, stopped, fellBack, outcome, launch)
    case DmaReceive => DmaNext(s)
  }
}

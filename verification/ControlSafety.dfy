/** What every reachable state of the two cores keeps, and the safety properties that follow. */
module ControlSafety {
  import opened Words
  import opened PortStatus
  import opened ControlPlane

  // ---- Lifecycle -------------------------------------------------------------------------------------------

  predicate InStop(w: Worker) {
    w.Deiniting? || w.CompletingStop?
  }

  /** The start in progress has succeeded. */
  predicate HasStarted(w: Worker) {
    (w.FinishingStart? && w.started) || (w.PublishingStart? && w.started)
  }

  /** The USB core is past the stop check of its poll. */
  predicate InPoll(u: UsbCore) {
    u.StageInitial? || u.AskStart? || u.CheckReady? || PastReady(u)
  }

  /** The USB core has seen READY in this poll. */
  predicate PastReady(u: UsbCore) {
    u.CheckInitialized? || u.StageLive? || u.CheckStatus? || Bridging(u)
  }

  predicate InReset(u: UsbCore) {
    u.ResetCheckStop? || u.ResetQuiesce? || u.ResetSoft?
  }

  /** The USB core has finished with the previous session. */
  predicate SessionOver(s: State) {
    InReset(s.usb) ||
    (s.session.admission == StartPending && !s.usb.CloseResetSoft? && !s.usb.CloseStop? && !s.usb.ResetStop?)
  }

  ghost predicate Life(s: State) {
    && (s.status.usbQuiesced ==> s.status.stopPending)
    && (s.status.stopPending ==> !s.status.startPending && !s.status.ready)
    && (InStop(s.worker) ==> s.status.stopPending && s.status.usbQuiesced)
    && (SessionOver(s) && !s.status.stopPending ==> !s.live && !s.status.startPending && !BringingUp(s.worker))
    && (InPoll(s.usb) ==> !s.status.stopPending && s.session.isOpen)
    && (s.usb.StageInitial? || s.usb.AskStart? ==> s.session.admission == StartPending)
    && (s.usb.CheckReady? || PastReady(s.usb) ==> s.session.admission != StartPending)
    && (Bridging(s.usb) ==> s.session.admission == Running)
    && (s.status.ready ==> s.live)
    && (s.status.startPending || BringingUp(s.worker) ==> !s.live)
    && (BringingUp(s.worker) ==> !s.status.startPending)
    && (PastReady(s.usb) ==> s.live)
    && (s.usb.CloseResetSoft? || s.usb.CloseStop? ==> s.session.admission == StartPending)
    && (!s.session.isOpen ==> s.session.admission == StartPending && !s.usb.ResetStop?)
    && (s.backend.initialized ==> s.live || s.status.stopPending || HasStarted(s.worker))
    && (HasStarted(s.worker) ==> s.backend.initialized)
    && (s.worker.CompletingStop? || s.worker.MarkingFailed? ==> !s.backend.initialized)
    && (s.status.ready && !s.worker.MarkingFailed? ==> s.backend.initialized)
    && (s.worker.Polling? ==> s.backend.initialized)
  }

  // ---- Pending ownership -----------------------------------------------------------------------------------

  predicate StartOwns(w: Worker) {
    (w.StartingPort? && w.taken.Some?) || w.FinishingStart?
  }

  /** Some owner holds a request. */
  predicate Owned(t: Status) {
    t.softPending || t.mailbox.Some? || t.pending.pending
  }

  ghost predicate Ownership(s: State) {
    && (Owned(s.status) ==> s.status.controlPending)
    && (s.status.controlPending ==> Owned(s.status) || s.status.stopPending)
    && (Carries(s.worker) || InApply(s.worker) || StartOwns(s.worker) ==> s.status.pending.pending)
    && (Carries(s.worker) || InApply(s.worker) ==> s.live)
    && (!s.live && s.status.pending.pending ==> StartOwns(s.worker))
    && (s.worker.StartingPort? || s.worker.FinishingStart? || s.worker.PublishingStart? ==> s.status.mailbox.None?)
  }

  // ---- Format boundary -------------------------------------------------------------------------------------

  /** The worker owns the pending record for a request it has not recorded yet. */
  predicate Provisional(w: Worker) {
    (w.Taken? && !w.prior) || (w.Matching? && !w.prior) || (w.FinishingMatch? && !w.prior)
    || (w.RejectingMailbox? && !w.prior)
  }

  ghost predicate Boundary(s: State) {
    && s.backend.producer == s.backend.consumer + |s.backend.txQueue|
    && s.backend.inFlight <= |s.backend.txQueue|
    && (s.live && s.status.mailbox.Some? ==> s.status.mailbox.value.boundary == s.backend.producer)
    && (s.live && s.status.pending.pending && !Provisional(s.worker) ==>
      s.status.pending.boundary == s.backend.producer)
    && (Carries(s.worker) ==> s.worker.request.boundary == s.backend.producer)
    && (s.usb.Filling? ==> !s.status.controlPending)
    && (s.worker.Applying? ==> s.backend.txQueue == [])
  }

  // ---- Session isolation -----------------------------------------------------------------------------------

  ghost predicate AllFrom(queue: seq<nat>, stops: nat) {
    forall i :: 0 <= i < |queue| ==> queue[i] == stops
  }

  ghost predicate Isolation(s: State) {
    s.backend.initialized || s.live ==> AllFrom(s.backend.txQueue, s.stops) && AllFrom(s.backend.rxQueue, s.stops)
  }

  // ---- Applied settings ------------------------------------------------------------------------------------

  ghost predicate Settings(s: State) {
    && Acceptable(s.supported, s.status.info)
    && (s.session.pending ==> Acceptable(s.supported, s.session.lineCoding))
    && (s.status.mailbox.Some? ==> Acceptable(s.supported, s.status.mailbox.value.lineCoding))
    && (Carries(s.worker) ==> Acceptable(s.supported, s.worker.request.lineCoding))
    && (s.worker.StartingPort? && s.worker.taken.Some? ==> Acceptable(s.supported, s.worker.taken.value.lineCoding))
    && (s.worker.FinishingStart? ==> Acceptable(s.supported, s.worker.request.lineCoding))
    && (s.live && s.status.pending.pending && !Provisional(s.worker) ==>
      Acceptable(s.supported, s.status.pending.lineCoding))
  }

  /** Everything but error reporting. */
  ghost predicate Sound(s: State) {
    Life(s) && Ownership(s) && Boundary(s) && Isolation(s) && Settings(s)
  }

  /** The sections that touch only flags leave the lifecycle and the worker's records alone. */
  predicate SameWork(t: Status, u: Status) {
    && t.ready == u.ready && t.pending == u.pending && t.info == u.info
    && t.stopPending == u.stopPending && t.usbQuiesced == u.usbQuiesced && t.startPending == u.startPending
  }

  ghost predicate SameCores(s: State, next: State) {
    && next.usb == s.usb && next.worker == s.worker && next.backend == s.backend && next.live == s.live
    && next.stops == s.stops && next.supported == s.supported
    && next.session.isOpen == s.session.isOpen && next.session.admission == s.session.admission
  }

  lemma FlagsKeepLife(s: State, next: State)
    requires Life(s) && SameCores(s, next) && SameWork(s.status, next.status)
    ensures Life(next)
  {
  }

  predicate Sets(event: UsbEvent) {
    event.HostSets? || event.HostSetsBad?
  }

  lemma MarkedKeeps(s: State, lineCoding: LineCoding)
    requires Sound(s) && s.usb.UsbIdle? && Acceptable(s.supported, lineCoding)
    ensures Sound(Marked(s, lineCoding))
  {
    var next := Marked(s, lineCoding);
    assert SameCores(s, next) && SameWork(s.status, next.status) && next.status.mailbox == s.status.mailbox;
    FlagsKeepLife(s, next);
  }

  lemma RefusedKeeps(s: State, reason: ErrorReason)
    requires Sound(s)
    ensures Sound(Refused(s, reason))
  {
    var next := Refused(s, reason);
    assert SameCores(s, next) && SameWork(s.status, next.status) && next.status.mailbox == s.status.mailbox;
    FlagsKeepLife(s, next);
  }

  lemma UsbSetKeeps(s: State, event: UsbEvent)
    requires Sound(s) && s.usb.UsbIdle? && Sets(event)
    ensures Sound(UsbCallback(s, event))
  {
    if event.HostSets? && Acceptable(s.supported, event.lineCoding) {
      MarkedKeeps(s, event.lineCoding);
      assert UsbCallback(s, event) == Marked(s, event.lineCoding);
    } else {
      var reason := UsbCallback(s, event).status.reason;
      RefusedKeeps(s, reason);
      assert UsbCallback(s, event) == Refused(s, reason);
    }
  }

  /** Any other callback moves only the session and the core's program counter. */
  lemma MoveTouches(s: State, event: UsbEvent)
    requires s.usb.UsbIdle? && !Sets(event)
    ensures var next := UsbCallback(s, event);
      && next == s.(session := next.session, usb := next.usb)
      && !Bridging(next.usb) && (next.session.pending ==> s.session.pending)
      && next.session.lineCoding == s.session.lineCoding
  {
  }

  lemma UsbMoveKeepsLife(s: State, event: UsbEvent)
    requires Life(s) && s.usb.UsbIdle? && !Sets(event)
    ensures Life(UsbCallback(s, event))
  {
    MoveTouches(s, event);
  }

  lemma UsbMoveKeepsRest(s: State, event: UsbEvent)
    requires Sound(s) && s.usb.UsbIdle? && !Sets(event)
    ensures var next := UsbCallback(s, event); Ownership(next) && Boundary(next) && Isolation(next) && Settings(next)
  {
    MoveTouches(s, event);
  }

  lemma UsbCallbackKeeps(s: State, event: UsbEvent)
    requires Sound(s) && s.usb.UsbIdle?
    ensures Sound(UsbCallback(s, event))
  {
    if Sets(event) {
      UsbSetKeeps(s, event);
    } else {
      UsbMoveKeepsLife(s, event);
      UsbMoveKeepsRest(s, event);
    }
  }

  lemma UsbPollKeeps(s: State)
    requires Sound(s) && s.usb.UsbIdle?
    ensures Sound(UsbPoll(s))
  {
  }

  /** A stop may be asked for anywhere outside a poll. */
  lemma StopRequestedKeeps(s: State)
    requires Sound(s) && !InPoll(s.usb)
    ensures Sound(StopRequested(s))
  {
  }

  lemma SoftResetKeeps(s: State)
    requires Sound(s) && !s.usb.Filling?
    ensures Sound(s.(status := ResetSoftPending(s.status)))
  {
    var next := s.(status := ResetSoftPending(s.status));
    assert SameWork(s.status, next.status);
    FlagsKeepLife(s, next);
  }

  lemma QuiescedKeeps(s: State)
    requires Sound(s)
    ensures Sound(s.(status := StopUsbQuiesced(s.status)))
  {
  }

  lemma CloseStopKeeps(s: State, cleared: bool)
    requires Sound(s) && (s.usb.CloseResetSoft? || s.usb.CloseStop?)
    ensures Sound(UsbClose(s, cleared))
  {
    var next := UsbClose(s, cleared);
    if s.usb.CloseResetSoft? {
      SoftResetKeeps(s);
      assert next == s.(status := ResetSoftPending(s.status)).(usb := CloseStop);
    } else {
      StopRequestedKeeps(s);
      assert next == StopRequested(s).(session := s.session.(isOpen := false), usb := UsbIdle);
    }
  }

  lemma CheckQuiescedKeeps(s: State, cleared: bool)
    requires Sound(s) && s.usb.CheckQuiesced?
    ensures Sound(UsbClose(s, cleared))
  {
    assert UsbClose(s, cleared) == s.(usb := UsbClose(s, cleared).usb);
  }

  lemma MarkQuiescedKeeps(s: State, cleared: bool)
    requires Sound(s) && s.usb.MarkQuiesced?
    ensures Sound(UsbClose(s, cleared))
  {
    QuiescedKeeps(s);
    assert UsbClose(s, cleared) == s.(status := StopUsbQuiesced(s.status)).(usb := UsbIdle);
  }

  lemma UsbCloseKeeps(s: State, cleared: bool)
    requires Sound(s) && Closing(s.usb)
    ensures Sound(UsbClose(s, cleared))
  {
    match s.usb
    case CheckQuiesced => CheckQuiescedKeeps(s, cleared);
    case MarkQuiesced => MarkQuiescedKeeps(s, cleared);
    case _ => CloseStopKeeps(s, cleared);
  }

  lemma ResetStopKeeps(s: State)
    requires Sound(s) && (s.usb.ResetStop? || s.usb.ResetCheckStop?)
    ensures Sound(UsbReset(s))
  {
    if s.usb.ResetStop? {
      StopRequestedKeeps(s);
      assert UsbReset(s) == StopRequested(s).(usb := ResetCheckStop);
    } else {
      assert UsbReset(s) == s.(usb := UsbReset(s).usb);
    }
  }

  lemma ResetSoftKeeps(s: State)
    requires Sound(s) && (s.usb.ResetQuiesce? || s.usb.ResetSoft?)
    ensures Sound(UsbReset(s))
  {
    if s.usb.ResetQuiesce? {
      QuiescedKeeps(s);
      assert UsbReset(s) == s.(status := StopUsbQuiesced(s.status)).(usb := ResetSoft);
    } else {
      SoftResetKeeps(s);
      assert UsbReset(s) == s.(status := ResetSoftPending(s.status)).(
                               session := s.session.(isOpen := false, admission := StartPending, pending := false),
                               usb := UsbIdle);
    }
  }

  lemma UsbResetKeeps(s: State)
    requires Sound(s) && Resetting(s.usb)
    ensures Sound(UsbReset(s))
  {
    if s.usb.ResetStop? || s.usb.ResetCheckStop? {
      ResetStopKeeps(s);
    } else {
      ResetSoftKeeps(s);
    }
  }

  lemma GivenUpKeeps(s: State, reason: ErrorReason)
    requires Sound(s) && Staging(s.usb)
    ensures Sound(GivenUp(s, reason))
  {
    var next := GivenUp(s, reason);
    assert SameCores(s, next) && SameWork(s.status, next.status) && next.status.mailbox == s.status.mailbox;
    FlagsKeepLife(s, next);
  }

  lemma QueuedKeeps(s: State)
    requires Sound(s) && Staging(s.usb) && s.session.pending && CanPublish(s.status)
    ensures Sound(Queued(s))
  {
    var next := Queued(s);
    assert SameCores(s, next) && SameWork(s.status, next.status);
    assert next.status.mailbox ==
        Some(Request(s.session.generation, s.backend.producer, s.session.lineCoding));
    FlagsKeepLife(s, next);
  }

  lemma StageKeeps(s: State, expired: bool)
    requires Sound(s) && Staging(s.usb)
    ensures var next := Stage(s, expired); Sound(next) && SameCores(s, next)
  {
    GivenUpKeeps(s, TimedOut);
    GivenUpKeeps(s, OtherError);
    if s.session.pending && CanPublish(s.status) {
      QueuedKeeps(s);
    }
  }

  lemma UsbStageKeeps(s: State, expired: bool)
    requires Sound(s) && Staging(s.usb)
    ensures Sound(UsbStage(s, expired))
  {
    StageKeeps(s, expired);
  }

  lemma UsbAdmitKeepsLife(s: State)
    requires Life(s) && Admitting(s.usb)
    ensures Life(UsbAdmit(s))
  {
  }

  lemma UsbAdmitKeepsRest(s: State)
    requires Sound(s) && Admitting(s.usb)
    ensures var next := UsbAdmit(s); Ownership(next) && Boundary(next) && Isolation(next) && Settings(next)
  {
    var next := UsbAdmit(s);
    if s.usb.AskStart? {
      assert next.status == RequestChannelStart(s.status);
    } else {
      assert next == s.(session := next.session, usb := next.usb);
    }
  }

  lemma UsbBridgeKeepsLife(s: State, more: bool)
    requires Life(s) && Ownership(s) && Bridging(s.usb)
    ensures var next := UsbBridge(s, more); Life(next) && Ownership(next)
  {
  }

  lemma UsbBridgeKeepsBytes(s: State, more: bool)
    requires Sound(s) && Bridging(s.usb)
    ensures var next := UsbBridge(s, more); Boundary(next) && Isolation(next) && Settings(next)
  {
  }

  lemma WorkerBeginKeepsLife(s: State, task: WorkerTask)
    requires Life(s) && Ownership(s) && s.worker.WorkerIdle?
    ensures var next := WorkerBegin(s, task); Life(next) && Ownership(next)
  {
  }

  lemma WorkerBeginKeepsBytes(s: State, task: WorkerTask)
    requires Life(s) && Ownership(s) && Boundary(s) && Isolation(s) && s.worker.WorkerIdle?
    ensures var next := WorkerBegin(s, task); Boundary(next) && Isolation(next)
  {
  }

  lemma WorkerBeginKeepsSettings(s: State, task: WorkerTask)
    requires Life(s) && Ownership(s) && Settings(s) && s.worker.WorkerIdle?
    ensures Settings(WorkerBegin(s, task))
  {
  }

  lemma CompletingStopKeepsLife(s: State)
    requires Life(s) && Ownership(s) && s.worker.CompletingStop?
    ensures var next := WorkerStop(s); Life(next) && Ownership(next)
  {
  }

  lemma WorkerStopKeepsLife(s: State)
    requires Life(s) && Ownership(s) && Stopping(s.worker)
    ensures var next := WorkerStop(s); Life(next) && Ownership(next)
  {
    if s.worker.CompletingStop? {
      CompletingStopKeepsLife(s);
    }
  }

  lemma WorkerStopKeepsBytes(s: State)
    requires Sound(s) && Stopping(s.worker)
    ensures var next := WorkerStop(s); Boundary(next) && Isolation(next) && Settings(next)
  {
  }

  lemma TakingInitialKeeps(s: State)
    requires Sound(s) && s.worker.TakingInitial?
    ensures Sound(WorkerStart(s, NotStarted))
  {
  }

  lemma StartingPortKeepsLife(s: State, outcome: StartOutcome)
    requires Life(s) && Ownership(s) && s.worker.StartingPort?
    ensures var next := WorkerStart(s, outcome); Life(next) && Ownership(next)
  {
    var next := WorkerStart(s, outcome);
    assert next == s.(backend := next.backend, worker := next.worker);
  }

  lemma StartingPortKeepsBytes(s: State, outcome: StartOutcome)
    requires Sound(s) && s.worker.StartingPort?
    ensures var next := WorkerStart(s, outcome); Boundary(next) && Isolation(next) && Settings(next)
  {
    var next := WorkerStart(s, outcome);
    assert next == s.(backend := next.backend, worker := next.worker);
  }

  lemma FinishingStartKeeps(s: State)
    requires Sound(s) && s.worker.FinishingStart?
    ensures Sound(WorkerStart(s, NotStarted))
  {
  }

  lemma PublishingStartKeeps(s: State)
    requires Sound(s) && s.worker.PublishingStart?
    ensures Sound(WorkerStart(s, NotStarted))
  {
  }

  lemma WorkerStartKeeps(s: State, outcome: StartOutcome)
    requires Sound(s) && BringingUp(s.worker)
    ensures Sound(WorkerStart(s, outcome))
  {
    match s.worker
    case TakingInitial => TakingInitialKeeps(s);
    case StartingPort(_) =>
      StartingPortKeepsLife(s, outcome);
      StartingPortKeepsBytes(s, outcome);
    case FinishingStart(_, _) => FinishingStartKeeps(s);
    case PublishingStart(_) => PublishingStartKeeps(s);
  }


  predicate SameLifecycle(t: Status, u: Status) {
    && t.ready == u.ready && t.stopPending == u.stopPending && t.usbQuiesced == u.usbQuiesced
    && t.startPending == u.startPending
  }

  /** Work on a request moves no part of the lifecycle. */
  lemma RequestKeepsLife(s: State, next: State)
    requires Life(s) && (Carries(next.worker) || next.worker.WorkerIdle? || next.worker.FinishingApply?)
    requires !s.worker.MarkingFailed? && !HasStarted(s.worker)
    requires next.usb == s.usb && next.session == s.session && next.backend == s.backend && next.live == s.live
    requires SameLifecycle(s.status, next.status)
    ensures Life(next)
  {
  }

  lemma WorkerMailboxKeepsLife(s: State)
    requires Life(s) && Ownership(s) && Deciding(s.worker)
    ensures Life(WorkerMailbox(s)) && Ownership(WorkerMailbox(s))
  {
    RequestKeepsLife(s, WorkerMailbox(s));
  }

  lemma WorkerMailboxKeepsBytes(s: State)
    requires Life(s) && Ownership(s) && Boundary(s) && Isolation(s) && Settings(s) && Deciding(s.worker)
    ensures var next := WorkerMailbox(s); Boundary(next) && Isolation(next) && Settings(next)
  {
  }

  lemma WorkerMailboxKeeps(s: State)
    requires Sound(s) && Deciding(s.worker)
    ensures Sound(WorkerMailbox(s))
  {
    WorkerMailboxKeepsLife(s);
    WorkerMailboxKeepsBytes(s);
  }

  lemma WorkerAnswerKeepsLife(s: State)
    requires Life(s) && Ownership(s) && Answering(s.worker)
    ensures Life(WorkerAnswer(s))
  {
    RequestKeepsLife(s, WorkerAnswer(s));
  }

  lemma WorkerAnswerKeepsOwnership(s: State)
    requires Life(s) && Ownership(s) && Answering(s.worker)
    ensures Ownership(WorkerAnswer(s))
  {
  }

  lemma WorkerMatchKeepsBytes(s: State)
    requires Life(s) && Ownership(s) && Boundary(s) && Isolation(s) && s.worker.FinishingMatch?
    ensures var next := WorkerAnswer(s); Boundary(next) && Isolation(next)
  {
  }

  lemma WorkerAnswerKeepsBytes(s: State)
    requires Life(s) && Ownership(s) && Boundary(s) && Isolation(s) && Answering(s.worker)
    ensures var next := WorkerAnswer(s); Boundary(next) && Isolation(next)
  {
    if s.worker.FinishingMatch? {
      WorkerMatchKeepsBytes(s);
    }
  }

  lemma WorkerMatchKeepsSettings(s: State)
    requires Life(s) && Ownership(s) && Settings(s) && s.worker.Matching?
    ensures Settings(WorkerAnswer(s))
  {
  }

  lemma WorkerAnswerKeepsSettings(s: State)
    requires Life(s) && Ownership(s) && Settings(s) && Answering(s.worker)
    ensures Settings(WorkerAnswer(s))
  {
    if s.worker.Matching? {
      WorkerMatchKeepsSettings(s);
    }
  }

  lemma WorkerApplyKeepsLife(s: State, expired: bool, applied: bool, stopped: bool, fellBack: bool)
    requires Life(s) && Ownership(s) && Attempting(s.worker)
    ensures var next := WorkerApply(s, expired, applied, stopped, fellBack); Life(next) && Ownership(next)
  {
    var next := WorkerApply(s, expired, applied, stopped, fellBack);
    if s.worker.Servicing? {
      assert next == s.(worker := next.worker);
    } else {
      assert next == s.(backend := next.backend, worker := next.worker);
    }
  }

  lemma WorkerApplyKeepsBytes(s: State, expired: bool, applied: bool, stopped: bool, fellBack: bool)
    requires Sound(s) && Attempting(s.worker)
    ensures var next := WorkerApply(s, expired, applied, stopped, fellBack);
      Boundary(next) && Isolation(next) && Settings(next)
  {
    var next := WorkerApply(s, expired, applied, stopped, fellBack);
    assert next == s.(backend := next.backend, worker := next.worker);
  }

  lemma WorkerConcludeKeepsLife(s: State)
    requires Life(s) && Ownership(s) && Concluding(s.worker)
    ensures Life(WorkerConclude(s))
  {
  }

  lemma WorkerConcludeKeepsOwnership(s: State)
    requires Life(s) && Ownership(s) && Concluding(s.worker)
    ensures Ownership(WorkerConclude(s))
  {
  }

  lemma WorkerConcludeKeepsBytes(s: State)
    requires Life(s) && Ownership(s) && Boundary(s) && Isolation(s) && Concluding(s.worker)
    ensures var next := WorkerConclude(s); Boundary(next) && Isolation(next)
  {
  }

  lemma WorkerConcludeKeepsSettings(s: State)
    requires Life(s) && Ownership(s) && Settings(s) && Concluding(s.worker)
    ensures Settings(WorkerConclude(s))
  {
  }

  lemma WorkerPollKeepsLife(s: State, completed: bool, launch: nat)
    requires Life(s) && Ownership(s) && s.worker.Polling?
    ensures var next := WorkerPoll(s, s.worker.launchAllowed, completed, launch); Life(next) && Ownership(next)
  {
    var next := WorkerPoll(s, s.worker.launchAllowed, completed, launch);
    assert next == s.(backend := next.backend, worker := next.worker);
    assert next.backend.initialized;
  }

  lemma WorkerPollKeepsBytes(s: State, completed: bool, launch: nat)
    requires Sound(s) && s.worker.Polling?
    ensures var next := WorkerPoll(s, s.worker.launchAllowed, completed, launch);
      Boundary(next) && Isolation(next) && Settings(next)
  {
    var next := WorkerPoll(s, s.worker.launchAllowed, completed, launch);
    assert next == s.(backend := next.backend, worker := next.worker);
  }

  lemma DmaNextKeeps(s: State)
    requires Sound(s)
    ensures Sound(DmaNext(s))
  {
  }
}

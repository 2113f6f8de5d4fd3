/** Safety of the two cores over whole runs: every interleaving from power-up keeps the invariants. */
module ControlRuns {
  import opened Words
  import opened PortStatus
  import opened ControlPlane
  import opened ControlSafety
  import opened ControlErrors

  /** The state the firmware initializer leaves: every backend stopped, nothing requested, no session. */
  ghost predicate Init(s: State) {
    && s.status == Status(false, false, false, false, false, false, false, false, 0, None,
                          Pending(false, 0, 0, s.status.info), s.status.info, NoError)
    && Acceptable(s.supported, s.status.info)
    && !s.session.isOpen && s.session.admission == StartPending && !s.session.pending
    && s.usb == UsbIdle && s.worker == WorkerIdle
    && s.backend == Backend(false, [], [], 0, 0, 0, s.status.info)
    && !s.live && s.outcomes == map[] && s.asked == map[0 := s.status.info]
  }

  ghost predicate Inv(s: State) {
    Sound(s) && Errors(s)
  }

  function Run(s: State, steps: seq<Step>): State
    decreases |steps|
  {
    if steps == [] then s else Run(Next(s, steps[0]), steps[1..])
  }

  lemma UsbKeepsInv(s: State, event: UsbEvent, expired: bool, cleared: bool, more: bool)
    requires Inv(s)
    ensures var next := UsbNext(s, event, expired, cleared, more); Inv(next) && Stand(s.outcomes, next.outcomes)
  {
    if s.usb.UsbIdle? {
      UsbIdleKeepsInv(s, event);
    } else if Staging(s.usb) {
      UsbStageKeeps(s, expired);
      UsbStageKeepsErrors(s, expired);
    } else if Admitting(s.usb) {
      UsbAdmitKeepsLife(s);
      UsbAdmitKeepsRest(s);
      UsbAdmitKeepsErrors(s);
    } else if Bridging(s.usb) {
      UsbBridgeKeepsLife(s, more);
      UsbBridgeKeepsBytes(s, more);
      UsbBridgeKeepsErrors(s, more);
    } else if Closing(s.usb) {
      UsbCloseKeeps(s, cleared);
      UsbCloseKeepsErrors(s, cleared);
    } else {
      UsbResetKeeps(s);
      UsbResetKeepsErrors(s);
    }
  }

  lemma UsbIdleKeepsInv(s: State, event: UsbEvent)
    requires Inv(s) && s.usb.UsbIdle?
    ensures Inv(UsbPoll(s)) && UsbPoll(s).outcomes == s.outcomes
    ensures Inv(UsbCallback(s, event)) && Stand(s.outcomes, UsbCallback(s, event).outcomes)
  {
    UsbPollKeeps(s);
    UsbPollKeepsErrors(s);
    UsbCallbackKeeps(s, event);
    UsbCallbackKeepsErrors(s, event);
  }

  lemma WorkerKeepsInv(s: State, task: WorkerTask, expired: bool, applied: bool, stopped: bool, fellBack: bool,
                       outcome: StartOutcome, launch: nat)
    requires Inv(s)
    ensures var next := WorkerNext(s, task, expired, applied, stopped, fellBack, outcome, launch);
      Inv(next) && Stand(s.outcomes, next.outcomes)
  {
    if s.worker.WorkerIdle? {
      WorkerBeginKeepsLife(s, task);
      WorkerBeginKeepsBytes(s, task);
      WorkerBeginKeepsSettings(s, task);
      WorkerBeginKeepsErrors(s, task);
    } else if Carries(s.worker) || Concluding(s.worker) {
      WorkerRequestKeepsInv(s);
    } else if Attempting(s.worker) {
      WorkerApplyKeepsLife(s, expired, applied, stopped, fellBack);
      WorkerApplyKeepsBytes(s, expired, applied, stopped, fellBack);
      WorkerApplyKeepsErrors(s, expired, applied, stopped, fellBack);
    } else if s.worker.Polling? {
      WorkerPollKeepsLife(s, applied, launch);
      WorkerPollKeepsBytes(s, applied, launch);
      WorkerPollKeepsErrors(s, applied, launch);
    } else {
      WorkerLifecycleKeepsInv(s, outcome);
    }
  }

  lemma WorkerRequestKeepsInv(s: State)
    requires Inv(s)
    ensures Deciding(s.worker) ==>
      Inv(WorkerMailbox(s)) && Stand(s.outcomes, WorkerMailbox(s).outcomes)
    ensures Answering(s.worker) ==> Inv(WorkerAnswer(s)) && Stand(s.outcomes, WorkerAnswer(s).outcomes)
    ensures Concluding(s.worker) ==> Inv(WorkerConclude(s)) && Stand(s.outcomes, WorkerConclude(s).outcomes)
  {
    if Deciding(s.worker) {
      WorkerMailboxKeeps(s);
      WorkerMailboxKeepsErrors(s);
    } else if Answering(s.worker) {
      WorkerAnswerKeepsLife(s);
      WorkerAnswerKeepsOwnership(s);
      WorkerAnswerKeepsBytes(s);
      WorkerAnswerKeepsSettings(s);
      WorkerAnswerKeepsErrors(s);
    } else if Concluding(s.worker) {
      WorkerConcludeKeepsLife(s);
      WorkerConcludeKeepsOwnership(s);
      WorkerConcludeKeepsBytes(s);
      WorkerConcludeKeepsSettings(s);
      WorkerConcludeKeepsErrors(s);
    }
  }

  lemma WorkerLifecycleKeepsInv(s: State, outcome: StartOutcome)
    requires Inv(s)
    ensures Stopping(s.worker) ==> Inv(WorkerStop(s)) && Stand(s.outcomes, WorkerStop(s).outcomes)
    ensures BringingUp(s.worker) ==> Inv(WorkerStart(s, outcome)) && Stand(s.outcomes, WorkerStart(s, outcome).outcomes)
  {
    if Stopping(s.worker) {
      WorkerStopKeepsLife(s);
      WorkerStopKeepsBytes(s);
      WorkerStopKeepsErrors(s);
    } else if BringingUp(s.worker) {
      WorkerStartKeeps(s, outcome);
      WorkerStartKeepsErrors(s, outcome);
    }
  }

  /** Every step of either core, or of the receive DMA, keeps the invariants, and no outcome is ever rewritten. */
  lemma StepKeepsInv(s: State, step: Step)
    requires Inv(s)
    ensures Inv(Next(s, step)) && Stand(s.outcomes, Next(s, step).outcomes)
  {
    match step
    case UsbStep(event, expired, cleared, more) => UsbKeepsInv(s, event, expired, cleared, more);
    case WorkerStep(task, expired, applied, stopped, fellBack, outcome, launch) =>
      WorkerKeepsInv(s, task, expired, applied, stopped, fellBack, outcome, launch);
    case DmaReceive =>
      DmaNextKeeps(s);
      DmaNextKeepsErrors(s);
  }

  lemma {:induction false} RunKeepsInv(s: State, steps: seq<Step>)
    requires Inv(s)
    ensures Inv(Run(s, steps)) && Stand(s.outcomes, Run(s, steps).outcomes)
    decreases |steps|
  {
    if steps != [] {
      StepKeepsInv(s, steps[0]);
      RunKeepsInv(Next(s, steps[0]), steps[1..]);
    }
  }

  lemma InitHasInv(s: State)
    requires Init(s)
    ensures Inv(s)
  {
  }

  /** A state that some interleaving reaches from power-up. */
  ghost predicate Reachable(s: State) {
    exists start, steps :: Init(start) && s == Run(start, steps)
  }

  lemma ReachableHasInv(s: State)
    requires Reachable(s)
    ensures Inv(s)
  {
    var start, steps :| Init(start) && s == Run(start, steps);
    InitHasInv(start);
    RunKeepsInv(start, steps);
  }

  // ---- What the invariants mean ----------------------------------------------------------------------------

  /** The worker never stops or starts a port that the USB core is bridging. */
  lemma NoLifecycleWhileBridging(s: State)
    requires Reachable(s)
    ensures Bridging(s.usb) ==> !InStop(s.worker) && !BringingUp(s.worker) && s.live
  {
    ReachableHasInv(s);
  }

  /** A stop beats any start in flight: whatever the worker is doing, READY never coexists with a pending stop. */
  lemma StopBeatsStart(s: State)
    requires Reachable(s)
    ensures s.status.ready ==> !s.status.stopPending && s.live
    ensures s.status.usbQuiesced ==> s.status.stopPending
    ensures s.status.stopPending ==> !s.status.startPending
    ensures InStop(s.worker) ==> s.status.stopPending && s.status.usbQuiesced
  {
    ReachableHasInv(s);
  }

  /** Every byte the USB core delivers and every byte the worker may transmit came in after the latest stop. */
  lemma NoByteOutlivesItsSession(s: State)
    requires Reachable(s)
    ensures s.usb.Draining? ==> AllFrom(s.backend.rxQueue, s.stops)
    ensures s.worker.Polling? ==> AllFrom(s.backend.txQueue, s.stops)
    ensures s.status.ready ==> AllFrom(s.backend.rxQueue, s.stops) && AllFrom(s.backend.txQueue, s.stops)
  {
    ReachableHasInv(s);
  }

  /** The backend changes format only when every byte admitted under the old one has left the ring. */
  lemma FormatChangesOnEmptyRing(s: State)
    requires Reachable(s)
    ensures s.worker.Applying? ==>
      && s.backend.txQueue == [] && s.backend.inFlight == 0
      && s.backend.consumer == s.backend.producer == s.status.pending.boundary
    ensures s.live && s.status.mailbox.Some? ==> s.status.mailbox.value.boundary == s.backend.producer
    ensures s.usb.Filling? ==> !s.status.controlPending && !Owned(s.status)
  {
    ReachableHasInv(s);
  }

  lemma UsbBridgeStill(s: State, more: bool)
    requires !s.usb.Filling?
    ensures UsbBridge(s, more).backend.producer == s.backend.producer
  {
  }

  lemma UsbIdleStill(s: State, event: UsbEvent)
    ensures UsbPoll(s).backend == s.backend && UsbCallback(s, event).backend == s.backend
  {
  }

  lemma UsbStageStill(s: State, expired: bool)
    ensures UsbStage(s, expired).backend == s.backend
  {
    assert Stage(s, expired).backend == s.backend;
  }

  lemma UsbCloseStill(s: State, cleared: bool)
    ensures UsbClose(s, cleared).backend == s.backend
  {
  }

  lemma UsbResetStill(s: State)
    ensures UsbReset(s).backend == s.backend && UsbAdmit(s).backend == s.backend
  {
  }

  lemma UsbStill(s: State, event: UsbEvent, expired: bool, cleared: bool, more: bool)
    requires !Bridging(s.usb)
    ensures UsbNext(s, event, expired, cleared, more).backend == s.backend
  {
    UsbIdleStill(s, event);
    UsbStageStill(s, expired);
    UsbCloseStill(s, cleared);
    UsbResetStill(s);
  }

  lemma WorkerBeginStill(s: State, task: WorkerTask)
    ensures WorkerBegin(s, task).backend == s.backend
  {
  }

  lemma WorkerRequestStill(s: State)
    ensures WorkerMailbox(s).backend == s.backend && WorkerAnswer(s).backend == s.backend
    ensures WorkerConclude(s).backend == s.backend
  {
  }

  lemma WorkerBackendStill(s: State, expired: bool, applied: bool, stopped: bool, fellBack: bool, launch: nat)
    ensures WorkerApply(s, expired, applied, stopped, fellBack).backend.producer == s.backend.producer
    ensures s.worker.Polling? ==>
      WorkerPoll(s, s.worker.launchAllowed, applied, launch).backend.producer == s.backend.producer
    ensures WorkerStop(s).backend.producer == s.backend.producer
  {
  }

  lemma BlockedStep(s: State, step: Step)
    requires Life(s) && Boundary(s) && s.live && s.status.controlPending
    ensures Next(s, step).backend.producer == s.backend.producer
  {
    match step
    case UsbStep(event, expired, cleared, more) =>
      if Bridging(s.usb) {
        UsbBridgeStill(s, more);
      } else {
        UsbStill(s, event, expired, cleared, more);
      }
    case WorkerStep(task, expired, applied, stopped, fellBack, outcome, launch) =>
      WorkerBeginStill(s, task);
      WorkerRequestStill(s);
      WorkerBackendStill(s, expired, applied, stopped, fellBack, launch);
    case DmaReceive =>
  }

  /** From the marking of a request until it completes or is cancelled, no byte is admitted to a live port. */
  lemma {:induction false} NothingAdmittedWhilePending(s: State, steps: seq<Step>)
    requires Inv(s)
    requires forall k :: 0 <= k <= |steps| ==>
      Run(s, steps[..k]).live && Run(s, steps[..k]).status.controlPending
    ensures Run(s, steps).backend.producer == s.backend.producer
    decreases |steps|
  {
    assert Run(s, steps[..0]) == s;
    if steps != [] {
      var next, rest := Next(s, steps[0]), steps[1..];
      BlockedStep(s, steps[0]);
      StepKeepsInv(s, steps[0]);
      forall k | 0 <= k <= |rest|
        ensures Run(next, rest[..k]).live && Run(next, rest[..k]).status.controlPending
      {
        assert steps[..k + 1][1..] == rest[..k];
        assert Run(s, steps[..k + 1]) == Run(next, rest[..k]);
      }
      NothingAdmittedWhilePending(next, rest);
    }
  }

  /** CONTROL_PENDING covers every owner without a gap, and is never left behind without one. */
  lemma PendingHasAnOwner(s: State)
    requires Reachable(s)
    ensures Owned(s.status) ==> s.status.controlPending
    ensures !s.status.stopPending ==> (s.status.controlPending <==> Owned(s.status))
    ensures Carries(s.worker) || InApply(s.worker) || StartOwns(s.worker) ==> s.status.controlPending
  {
    ReachableHasInv(s);
  }

  /** CONTROL_ERROR is set exactly when the newest generation was rejected or has failed. */
  lemma ErrorReportsNewest(s: State)
    requires Reachable(s)
    ensures s.status.controlError <==> HasFailed(s.outcomes, s.status.generation)
    ensures forall g :: g in s.outcomes ==> g <= s.status.generation
  {
    ReachableHasInv(s);
  }

  /** The flag moves only with the first and only outcome of the newest generation, or with a newer generation. */
  lemma StaleCompletionsAreSilent(s: State, step: Step)
    requires Reachable(s)
    ensures var next := Next(s, step);
      next.status.generation == s.status.generation && next.status.controlError != s.status.controlError ==>
      next.status.controlError && s.status.generation !in s.outcomes && s.status.generation in next.outcomes
  {
    ReachableHasInv(s);
    StepKeepsInv(s, step);
  }

  /** An outcome, once recorded, is what every later state of the run shows. */
  lemma OutcomesAreFinal(s: State, steps: seq<Step>)
    requires Reachable(s)
    ensures Stand(s.outcomes, Run(s, steps).outcomes)
  {
    ReachableHasInv(s);
    RunKeepsInv(s, steps);
  }

  /** The recorded error reason is none exactly when nothing was ever rejected and nothing has failed. */
  lemma ReasonNamesAFailure(s: State)
    requires Reachable(s)
    ensures !s.status.reason.NoError? <==> exists g :: g in s.outcomes && HasFailed(s.outcomes, g)
  {
    ReachableHasInv(s);
  }

  /** Once a reason is recorded, no later state of the run shows none. */
  lemma ReasonStays(s: State, steps: seq<Step>)
    requires Reachable(s) && !s.status.reason.NoError?
    ensures !Run(s, steps).status.reason.NoError?
  {
    ReachableHasInv(s);
    RunKeepsInv(s, steps);
    var g :| g in s.outcomes && HasFailed(s.outcomes, g);
    assert g in Run(s, steps).outcomes && HasFailed(Run(s, steps).outcomes, g);
  }

  /** The published settings are always ones the backend can run. */
  lemma PublishedSettingsAcceptable(s: State)
    requires Reachable(s)
    ensures Acceptable(s.supported, s.status.info)
    ensures s.worker.Applying? ==> Acceptable(s.supported, s.status.pending.lineCoding)
  {
    ReachableHasInv(s);
  }

  /** READY without a live backend happens exactly in the window after a failed apply. */
  lemma ReadyWithoutBackend(s: State)
    requires Reachable(s)
    ensures s.status.ready ==> (!s.backend.initialized <==> s.worker.MarkingFailed?)
  {
    ReachableHasInv(s);
  }

  /** A staged request whose deadline has passed fails as timed out and never reaches the mailbox. */
  lemma ExpiredStageFails(s: State, step: Step)
    requires Reachable(s) && Staging(s.usb) && s.session.pending && step.UsbStep? && step.expired
    ensures var t := Next(s, step);
      && !t.session.pending && t.status.mailbox == s.status.mailbox && t.status.info == s.status.info
      && t.outcomes == s.outcomes[s.session.generation := Failed] && t.status.reason.TimedOut?
      && (t.status.controlError <==> s.status.controlError || s.session.generation == s.status.generation)
      && (t.status.controlPending <==> s.status.mailbox.Some? || s.status.pending.pending)
  {
    ReachableHasInv(s);
    assert Stage(s, true) == GivenUp(s, TimedOut);
  }

  /** An apply whose deadline has passed fails as timed out without a call into the backend, drained or not. */
  lemma ExpiredApplyFails(s: State, first: Step, second: Step)
    requires Reachable(s) && s.worker.Servicing?
    requires first.WorkerStep? && first.expired && second.WorkerStep?
    ensures var t := Next(Next(s, first), second);
      && t.worker.WorkerIdle? && t.backend == s.backend && t.status.info == s.status.info
      && t.outcomes == s.outcomes[s.status.pending.generation := Failed] && t.status.reason.TimedOut?
      && (t.status.controlError <==>
        s.status.controlError || s.status.pending.generation == s.status.generation)
  {
    var waiting := s.(worker := FinishingApply(TimedOut));
    assert Next(s, first) == waiting;
    assert Next(waiting, second) == WorkerConclude(waiting);
  }

  // ---- What does not hold ----------------------------------------------------------------------------------

  function Usb(event: UsbEvent): Step {
    UsbStep(event, false, false, false)
  }

  lemma {:induction false} OneMoreStep(s: State, steps: seq<Step>, step: Step)
    ensures Run(s, steps + [step]) == Next(Run(s, steps), step)
    decreases |steps|
  {
    if steps == [] {
      assert (steps + [step])[1..] == [];
    } else {
      assert (steps + [step])[1..] == steps[1..] + [step];
      OneMoreStep(Next(s, steps[0]), steps[1..], step);
    }
  }

  lemma Reaches(s: State, step: Step, next: State)
    requires Reachable(s) && Next(s, step) == next
    ensures Reachable(next)
  {
    var start, steps :| Init(start) && s == Run(start, steps);
    OneMoreStep(start, steps, step);
  }

  /** A run from a reachable state ends in one. */
  lemma {:induction false} RunReaches(s: State, steps: seq<Step>)
    requires Reachable(s)
    ensures Reachable(Run(s, steps))
    decreases |steps|
  {
    if steps != [] {
      Reaches(s, steps[0], Next(s, steps[0]));
      RunReaches(Next(s, steps[0]), steps[1..]);
    }
  }

  function Work(task: WorkerTask, stopped: bool): Step {
    WorkerStep(task, false, false, stopped, false, Started, 0)
  }

  lemma PowerUpIsReachable(s: State)
    requires Init(s)
    ensures Reachable(s)
  {
    assert Run(s, []) == s;
  }

  /** A host reset of an open session asks for a stop. */
  lemma ResetIsAsked(s: State) returns (r: State)
    requires Init(s)
    ensures Reachable(r) && r == StopRequested(s.(session := s.session.(isOpen := true))).(usb := ResetCheckStop)
  {
    PowerUpIsReachable(s);
    var s1 := s.(session := s.session.(isOpen := true));
    Reaches(s, Usb(HostOpens), s1);
    var s2 := s1.(usb := ResetStop);
    Reaches(s1, Usb(HostResets), s2);
    r := StopRequested(s1).(usb := ResetCheckStop);
    Reaches(s2, Usb(PollPort), r);
  }

  /** Its last section clears the flag while the stop is still to come. */
  lemma ResetFinishes(s: State) returns (r: State)
    requires Reachable(s) && s.usb.ResetCheckStop? && s.status.stopPending && !Owned(s.status)
    ensures Reachable(r) && r.status.stopPending && !r.status.controlPending
  {
    var s1 := s.(usb := ResetQuiesce);
    Reaches(s, Usb(PollPort), s1);
    var s2 := ResetQuiesces(s1);
    r := ResetSoftClears(s2);
  }

  lemma ResetQuiesces(s: State) returns (r: State)
    requires Reachable(s) && s.usb.ResetQuiesce? && s.status.stopPending
    ensures Reachable(r) && r == s.(usb := ResetSoft, status := s.status.(usbQuiesced := true))
  {
    r := s.(usb := ResetSoft, status := s.status.(usbQuiesced := true));
    Reaches(s, Usb(PollPort), r);
  }

  lemma ResetSoftClears(s: State) returns (r: State)
    requires Reachable(s) && s.usb.ResetSoft? && s.status.stopPending && !Owned(s.status)
    ensures Reachable(r) && r.status.stopPending && !r.status.controlPending
  {
    r := UsbReset(s);
    Reaches(s, Usb(PollPort), r);
  }

  /** A host reset leaves a stop pending with CONTROL_PENDING already cleared. */
  lemma StopWithoutControlPending(s: State)
    requires Init(s)
    ensures exists r :: Reachable(r) && r.status.stopPending && !r.status.controlPending
  {
    var asked := ResetIsAsked(s);
    var r := ResetFinishes(asked);
  }

  /** The first open asks for a start. */
  lemma StartIsAsked(s: State) returns (r: State)
    requires Init(s)
    ensures Reachable(r)
    ensures r == s.(session := s.session.(isOpen := true, admission := Starting),
                    status := s.status.(startPending := true))
  {
    PowerUpIsReachable(s);
    var s1 := s.(session := s.session.(isOpen := true));
    Reaches(s, Usb(HostOpens), s1);
    var s2 := s1.(usb := StageInitial);
    Reaches(s1, Usb(PollPort), s2);
    r := AskFollows(s2);
  }

  lemma AskFollows(s: State) returns (r: State)
    requires Reachable(s) && s.usb.StageInitial? && !s.session.pending && !s.status.ready
    ensures Reachable(r)
    ensures r == s.(usb := UsbIdle, session := s.session.(admission := Starting),
                    status := s.status.(startPending := true))
  {
    var s1 := s.(usb := AskStart);
    assert Stage(s, false) == s;
    Reaches(s, Usb(PollPort), s1);
    r := AdmissionFollows(s1);
  }

  lemma AdmissionFollows(s: State) returns (r: State)
    requires Reachable(s) && s.usb.AskStart? && !s.status.ready
    ensures Reachable(r)
    ensures r == s.(usb := UsbIdle, session := s.session.(admission := Starting),
                    status := s.status.(startPending := true))
  {
    var s1 := s.(usb := CheckReady, session := s.session.(admission := Starting),
                 status := s.status.(startPending := true));
    Reaches(s, Usb(PollPort), s1);
    r := s1.(usb := UsbIdle);
    Reaches(s1, Usb(PollPort), r);
  }

  /** The backend that a start with the published settings leaves. */
  function FreshBackend(s: State): Backend {
    Backend(true, [], [], 0, 0, 0, s.achieved(s.status.info))
  }

  /** The worker serves it: a port can reach READY. */
  lemma ReadyIsReachable(s: State) returns (r: State)
    requires Init(s)
    ensures Reachable(r)
    ensures r == s.(session := s.session.(isOpen := true, admission := Starting), live := true,
                    status := s.status.(ready := true), backend := FreshBackend(s))
  {
    var lifecycle := Work(ServeLifecycle, false);
    var s0 := StartIsAsked(s);
    var s1 := s0.(worker := TakingStart);
    Reaches(s0, lifecycle, s1);
    var s2 := s0.(worker := TakingInitial, status := s.status);
    Reaches(s1, lifecycle, s2);
    r := StartFollows(s2);
  }

  lemma StartFollows(s: State) returns (r: State)
    requires Reachable(s) && s.worker.TakingInitial? && s.status.mailbox.None? && Acceptable(s.supported, s.status.info)
    requires !s.status.stopPending && !s.status.startPending && !s.status.initFailed
    ensures Reachable(r)
    ensures r == s.(worker := WorkerIdle, live := true, status := s.status.(ready := true),
                    backend := FreshBackend(s))
  {
    var lifecycle := Work(ServeLifecycle, false);
    var s1 := s.(worker := StartingPort(None));
    Reaches(s, lifecycle, s1);
    var s2 := BackendFollows(s1);
    r := PublishFollows(s2);
  }

  lemma BackendFollows(s: State) returns (r: State)
    requires Reachable(s) && s.worker == StartingPort(None) && Acceptable(s.supported, s.status.info)
    ensures Reachable(r) && r == s.(worker := PublishingStart(true), backend := FreshBackend(s))
  {
    r := s.(worker := PublishingStart(true), backend := FreshBackend(s));
    assert WorkerStart(s, Started) == r;
    Reaches(s, Work(ServeLifecycle, false), r);
  }

  lemma PublishFollows(s: State) returns (r: State)
    requires Reachable(s) && s.worker == PublishingStart(true)
    requires !s.status.stopPending && !s.status.startPending && !s.status.initFailed
    ensures Reachable(r) && r == s.(worker := WorkerIdle, live := true, status := s.status.(ready := true))
  {
    r := s.(worker := WorkerIdle, live := true, status := s.status.(ready := true));
    Reaches(s, Work(ServeLifecycle, false), r);
  }

  /** A format that the backend can run, and that is not programmed as the published one is. */
  predicate Differs(s: State, other: LineCoding) {
    Acceptable(s.supported, other) && s.achieved(other) != s.achieved(s.status.info)
  }

  /** The USB core is about to end its poll, with nothing staged, queued or in flight. */
  predicate ApplyWaits(s: State) {
    && s.usb.CheckStatus? && s.session.isOpen && s.backend.inFlight == 0
    && s.status.mailbox.None? && !s.status.softPending && s.status.controlPending
  }

  /** The host asks for settings that need new programming, and the live port takes them as its deferred apply. */
  lemma ApplyIsReachable(s: State, other: LineCoding) returns (r: State)
    requires Init(s) && Differs(s, other)
    ensures Reachable(r) && r.worker.Applying? && r.status.ready && r.backend.initialized
    ensures ApplyWaits(r) && r.status.pending.lineCoding == other && r.achieved == s.achieved
  {
    var s0 := ReadyIsReachable(s);
    var s1 := s0.(session := Session(true, Starting, true, 1, other), asked := s0.asked[1 := other],
                  status := s0.status.(generation := 1, softPending := true, controlPending := true));
    Reaches(s0, Usb(HostSets(other)), s1);
    var s2 := StagingFollows(s1);
    r := ApplyFollows(s2, Request(1, 0, other));
  }

  /** A live port submits its marked request to the mailbox. */
  lemma StagingFollows(s: State) returns (r: State)
    requires Reachable(s) && s.usb.UsbIdle? && s.session.isOpen && s.session.admission == Starting && s.session.pending
    requires s.status.ready && !s.status.stopPending && s.backend.initialized && s.status.mailbox.None?
    requires Acceptable(s.supported, s.session.lineCoding)
    ensures Reachable(r) && r == Queued(s).(usb := CheckStatus)
  {
    var s1 := s.(usb := CheckReady);
    Reaches(s, Usb(PollPort), s1);
    var s2 := s.(usb := CheckInitialized);
    Reaches(s1, Usb(PollPort), s2);
    r := SubmissionFollows(s2);
  }

  lemma SubmissionFollows(s: State) returns (r: State)
    requires Reachable(s) && s.usb.CheckInitialized? && s.session.pending && s.session.admission == Starting
    requires s.status.mailbox.None? && s.backend.initialized && Acceptable(s.supported, s.session.lineCoding)
    ensures Reachable(r) && r == Queued(s).(usb := CheckStatus)
  {
    var s1 := s.(usb := StageLive);
    Reaches(s, Usb(PollPort), s1);
    r := Queued(s).(usb := CheckStatus);
    assert Stage(s1, false) == Queued(s1);
    Reaches(s1, Usb(PollPort), r);
  }

  /** A request in the mailbox of an idle, drained live port is taken and attempted. */
  lemma ApplyFollows(s: State, request: Request) returns (r: State)
    requires Reachable(s) && s.worker.WorkerIdle? && s.status.ready && s.backend.initialized
    requires s.status.mailbox == Some(request) && !s.status.pending.pending && request.boundary == s.backend.consumer
    requires Acceptable(s.supported, request.lineCoding) && !Matches(s, request.lineCoding)
    requires s.usb.CheckStatus? && s.session.isOpen && s.backend.inFlight == 0 && !s.status.softPending
    ensures Reachable(r) && r.worker.Applying? && r.status.ready && r.backend.initialized
    ensures ApplyWaits(r) && r.status.pending.lineCoding == request.lineCoding && r.achieved == s.achieved
  {
    var mailbox := Work(ServeMailbox, false);
    var owned := s.status.pending.(pending := true, generation := request.generation);
    var s1 := s.(worker := Taken(request, false), status := s.status.(mailbox := None, pending := owned));
    Reaches(s, mailbox, s1);
    var recorded := owned.(lineCoding := request.lineCoding, boundary := request.boundary);
    var s2 := s1.(worker := SettingPending(request), status := s1.status.(pending := recorded));
    Reaches(s1, mailbox, s2);
    var s3 := s2.(worker := WorkerIdle, status := SetWorkerPending(s2.status, request.generation));
    Reaches(s2, mailbox, s3);
    r := AttemptFollows(s3);
  }

  lemma AttemptFollows(s: State) returns (r: State)
    requires Reachable(s) && s.worker.WorkerIdle? && s.status.ready && s.backend.initialized
    requires s.status.pending.pending && s.status.pending.boundary == s.backend.consumer && ApplyWaits(s)
    ensures Reachable(r) && r.worker.Applying? && r.status == s.status && r.backend == s.backend
    ensures ApplyWaits(r) && r.achieved == s.achieved
  {
    var pending := Work(ServePending, false);
    var s1 := s.(worker := Servicing);
    Reaches(s, pending, s1);
    r := s.(worker := Applying);
    Reaches(s1, pending, r);
  }

  /** A failed apply leaves READY set on a stopped backend until the worker's next section. */
  lemma ReadyWithStoppedBackend(s: State, other: LineCoding)
    requires Init(s) && Differs(s, other)
    ensures exists r :: Reachable(r) && r.status.ready && !r.backend.initialized
  {
    var applying := ApplyIsReachable(s, other);
    var r := Next(applying, Work(ServePending, true));
    Reaches(applying, Work(ServePending, true), r);
    assert r.status.ready && !r.backend.initialized;
  }
}

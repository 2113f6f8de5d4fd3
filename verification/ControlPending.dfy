/** CONTROL_PENDING while a stop is pending: exactly when the flag survives, over every run. */
module ControlPending {
  import opened Words
  import opened PortStatus
  import opened ControlPlane
  import opened ControlSafety
  import opened ControlErrors
  import opened ControlRuns

  /** The section asks for a stop. */
  predicate Asks(s: State, step: Step) {
    step.UsbStep? && (s.usb.CloseStop? || s.usb.ResetStop?)
  }

  /** The section drops an owner, and then clears the flag when no owner is left. */
  predicate Drops(s: State, step: Step) {
    || (step.UsbStep? && (s.usb.CloseResetSoft? || s.usb.ResetSoft?))
    || (step.WorkerStep? &&
        (s.worker.FinishingStart? || s.worker.FinishingMatch? || s.worker.RejectingMailbox? ||
         s.worker.FinishingApply?))
  }

  /** What one section may do to the flag and its owners. */
  predicate Moves(t: Status, u: Status, drops: bool) {
    && u.stopPending == t.stopPending
    && (t.controlPending && !u.controlPending <==> t.controlPending && drops && !Owned(u))
    && (!t.controlPending && u.controlPending ==> Owned(u))
    && (Owned(t) && !Owned(u) ==> drops)
  }

  lemma UsbIdleMoves(s: State, event: UsbEvent)
    requires Inv(s) && s.usb.UsbIdle?
    ensures Moves(s.status, UsbPoll(s).status, false) && Moves(s.status, UsbCallback(s, event).status, false)
  {
    var next := UsbCallback(s, event);
    if event.HostSets? && Acceptable(s.supported, event.lineCoding) {
      assert next == Marked(s, event.lineCoding);
    } else if Sets(event) {
      assert next == Refused(s, next.status.reason);
    } else {
      MoveTouches(s, event);
    }
  }

  lemma UsbCloseMoves(s: State, cleared: bool)
    requires Inv(s) && Closing(s.usb) && !s.usb.CloseStop?
    ensures Moves(s.status, UsbClose(s, cleared).status, s.usb.CloseResetSoft?)
  {
  }

  lemma UsbResetMoves(s: State)
    requires Inv(s) && Resetting(s.usb) && !s.usb.ResetStop?
    ensures Moves(s.status, UsbReset(s).status, s.usb.ResetSoft?)
  {
  }

  lemma UsbMoves(s: State, step: Step)
    requires Inv(s) && step.UsbStep? && !Asks(s, step) && (s.usb.UsbIdle? || Closing(s.usb) || Resetting(s.usb))
    ensures Moves(s.status, Next(s, step).status, Drops(s, step))
  {
    if s.usb.UsbIdle? {
      UsbIdleMoves(s, step.event);
    } else if Closing(s.usb) {
      UsbCloseMoves(s, step.cleared);
    } else {
      UsbResetMoves(s);
    }
  }

  lemma WorkerBeginMoves(s: State, task: WorkerTask)
    requires Inv(s) && s.worker.WorkerIdle?
    ensures Moves(s.status, WorkerBegin(s, task).status, false)
  {
  }

  lemma WorkerMailboxMoves(s: State)
    requires Inv(s) && Deciding(s.worker)
    ensures Moves(s.status, WorkerMailbox(s).status, false)
  {
  }

  lemma WorkerAnswerMoves(s: State)
    requires Inv(s) && Answering(s.worker)
    ensures Moves(s.status, WorkerAnswer(s).status, !s.worker.Matching?)
  {
  }

  lemma WorkerConcludeMoves(s: State)
    requires Inv(s) && Concluding(s.worker)
    ensures Moves(s.status, WorkerConclude(s).status, s.worker.FinishingApply?)
  {
  }

  lemma WorkerStopMoves(s: State)
    requires Inv(s) && Stopping(s.worker) && WorkerStop(s).status.stopPending
    ensures Moves(s.status, WorkerStop(s).status, false)
  {
  }

  lemma WorkerStartMoves(s: State, outcome: StartOutcome)
    requires Inv(s) && BringingUp(s.worker)
    ensures Moves(s.status, WorkerStart(s, outcome).status, s.worker.FinishingStart?)
  {
  }

  lemma WorkerLifecycleMoves(s: State, step: Step)
    requires Inv(s) && step.WorkerStep? && (Stopping(s.worker) || BringingUp(s.worker))
    requires Next(s, step).status.stopPending
    ensures Moves(s.status, Next(s, step).status, Drops(s, step))
  {
    if Stopping(s.worker) {
      WorkerStopMoves(s);
    } else {
      WorkerStartMoves(s, step.outcome);
    }
  }

  lemma WorkerRequestMoves(s: State, step: Step)
    requires Inv(s) && step.WorkerStep? && (Carries(s.worker) || Concluding(s.worker))
    ensures Moves(s.status, Next(s, step).status, Drops(s, step))
  {
    if Deciding(s.worker) {
      WorkerMailboxMoves(s);
    } else if Answering(s.worker) {
      WorkerAnswerMoves(s);
    } else {
      WorkerConcludeMoves(s);
    }
  }

  lemma ApplyKeepsStatus(s: State, expired: bool, applied: bool, stopped: bool, fellBack: bool)
    ensures WorkerApply(s, expired, applied, stopped, fellBack).status == s.status
  {
  }

  lemma WorkerBackendStill(s: State, step: Step)
    requires step.WorkerStep? && (Attempting(s.worker) || s.worker.Polling?)
    ensures Next(s, step).status == s.status
  {
    if Attempting(s.worker) {
      ApplyKeepsStatus(s, step.expired, step.applied, step.stopped, step.fellBack);
      assert Next(s, step) == WorkerApply(s, step.expired, step.applied, step.stopped, step.fellBack);
    } else {
      assert Next(s, step) == WorkerPoll(s, s.worker.launchAllowed, step.applied, step.launch);
    }
  }

  lemma WorkerMoves(s: State, step: Step)
    requires Inv(s) && step.WorkerStep? && Next(s, step).status.stopPending
    ensures Moves(s.status, Next(s, step).status, Drops(s, step))
  {
    if s.worker.WorkerIdle? {
      WorkerBeginMoves(s, step.task);
    } else if Carries(s.worker) || Concluding(s.worker) {
      WorkerRequestMoves(s, step);
    } else if Stopping(s.worker) || BringingUp(s.worker) {
      WorkerLifecycleMoves(s, step);
    } else {
      WorkerBackendStill(s, step);
    }
  }

  lemma StepMoves(s: State, step: Step)
    requires Inv(s) && s.status.stopPending && Next(s, step).status.stopPending && !Asks(s, step)
    ensures Moves(s.status, Next(s, step).status, Drops(s, step))
  {
    match step
    case UsbStep(_, _, _, _) =>
      assert !InPoll(s.usb);
      UsbMoves(s, step);
    case WorkerStep(_, _, _, _, _, _, _) => WorkerMoves(s, step);
    case DmaReceive =>
  }

  lemma AdmitKeepsStop(s: State)
    requires Admitting(s.usb)
    ensures UsbAdmit(s).status.stopPending == s.status.stopPending
  {
    if s.usb.AskStart? {
      assert UsbAdmit(s).status == RequestChannelStart(s.status);
    } else {
      assert UsbAdmit(s).status == s.status;
    }
  }

  lemma BridgeKeepsStatus(s: State, more: bool)
    requires Bridging(s.usb)
    ensures UsbBridge(s, more).status == s.status
  {
  }

  lemma UsbAsksForStop(s: State, step: Step)
    requires Inv(s) && step.UsbStep? && !Asks(s, step) && Next(s, step).status.stopPending
    ensures s.status.stopPending
  {
    if Staging(s.usb) {
      StageKeepsStop(s, step.expired);
    } else if s.usb.UsbIdle? || Closing(s.usb) || Resetting(s.usb) {
      UsbMoves(s, step);
    } else if Admitting(s.usb) {
      AdmitKeepsStop(s);
    } else {
      BridgeKeepsStatus(s, step.more);
    }
  }

  /** A stop is asked for, and nothing else makes one pending; asking always leaves the flag set. */
  lemma StopIsAsked(s: State, step: Step)
    requires Inv(s)
    ensures Asks(s, step) ==> Next(s, step).status.stopPending && Next(s, step).status.controlPending
    ensures !s.status.stopPending && Next(s, step).status.stopPending ==> Asks(s, step)
  {
    match step
    case UsbStep(_, _, _, _) =>
      if Asks(s, step) {
        AskingSetsTheFlag(s, step);
      } else if Next(s, step).status.stopPending {
        UsbAsksForStop(s, step);
      }
    case WorkerStep(_, _, _, _, _, _, _) =>
      if Next(s, step).status.stopPending {
        WorkerMoves(s, step);
      }
    case DmaReceive =>
  }

  lemma StageKeepsStop(s: State, expired: bool)
    ensures Stage(s, expired).status.stopPending == s.status.stopPending
  {
    assert GivenUp(s, TimedOut).status.stopPending == s.status.stopPending;
    assert GivenUp(s, OtherError).status.stopPending == s.status.stopPending;
    assert Queued(s).status.stopPending == s.status.stopPending;
  }

  lemma AskingSetsTheFlag(s: State, step: Step)
    requires Asks(s, step)
    ensures Next(s, step).status == RequestChannelStop(s.status)
  {
  }

  // ---- The exact condition ---------------------------------------------------------------------------------

  /**
   While a stop stays pending, a step loses CONTROL_PENDING exactly when it drops an owner and leaves none; the USB
   core's soft-pending resets and the worker's completions both do.
   */
  lemma PendingLostExactly(s: State, step: Step)
    requires Reachable(s) && s.status.stopPending && s.status.controlPending && Next(s, step).status.stopPending
    ensures !Next(s, step).status.controlPending <==> Drops(s, step) && !Owned(Next(s, step).status)
  {
    ReachableHasInv(s);
    if Asks(s, step) {
      StopIsAsked(s, step);
    } else {
      StepMoves(s, step);
    }
  }

  /** Since the latest stop was asked for, some section has dropped an owner and left none. */
  ghost predicate Swept(s: State, steps: seq<Step>)
    decreases |steps|
  {
    steps != [] &&
    var front, last := steps[..|steps| - 1], steps[|steps| - 1];
    var before := Run(s, front);
    !Asks(before, last) && (Swept(s, front) || (Drops(before, last) && !Owned(Next(before, last).status)))
  }

  /** Whether the flag is set is known from its owners and from what happened since the stop was asked for. */
  ghost predicate FlagTold(t: Status, swept: bool) {
    t.stopPending ==> (t.controlPending <==> Owned(t) || !swept)
  }

  lemma StepTold(s: State, step: Step, swept: bool)
    requires Inv(s) && FlagTold(s.status, swept)
    ensures var u := Next(s, step).status;
      FlagTold(u, !Asks(s, step) && (swept || (Drops(s, step) && !Owned(u))))
  {
    StopIsAsked(s, step);
    StepKeepsInv(s, step);
    if Next(s, step).status.stopPending && !Asks(s, step) {
      StepMoves(s, step);
    }
  }

  /**
   "A pending stop implies CONTROL_PENDING" holds of a state exactly when some owner is left, or nothing has been
   swept since the stop was asked for.
   */
  lemma {:induction false} PendingUnderAStop(s: State, steps: seq<Step>)
    requires Init(s)
    ensures var t := Run(s, steps).status;
      t.stopPending ==> (t.controlPending <==> Owned(t) || !Swept(s, steps))
    decreases |steps|
  {
    InitHasInv(s);
    if steps != [] {
      var front, last := steps[..|steps| - 1], steps[|steps| - 1];
      PendingUnderAStop(s, front);
      RunKeepsInv(s, front);
      assert steps == front + [last];
      OneMoreStep(s, front, last);
      StepTold(Run(s, front), last, Swept(s, front));
    }
  }

  // ---- Both routes are taken -------------------------------------------------------------------------------

  function Finish(applied: bool): Step {
    WorkerStep(ServePending, false, applied, false, false, NotStarted, 0)
  }

  /** The host closes the port while an apply waits for the worker. */
  lemma CloseDuringApply(s: State) returns (r: State)
    requires Reachable(s) && s.worker.Applying? && ApplyWaits(s)
    ensures Reachable(r) && r.usb.CloseStop? && r.worker == s.worker && r.backend == s.backend
    ensures r.status.mailbox.None?
  {
    var s1 := s.(usb := UsbIdle);
    Reaches(s, Usb(PollPort), s1);
    r := CloseFollows(s1);
  }

  lemma CloseFollows(s: State) returns (r: State)
    requires Reachable(s) && s.usb.UsbIdle? && s.session.isOpen && s.status.mailbox.None?
    ensures Reachable(r) && r.usb.CloseStop? && r.worker == s.worker && r.backend == s.backend
    ensures r.status.mailbox.None?
  {
    var s1 := s.(session := s.session.(admission := StartPending, pending := false), usb := CloseResetSoft);
    Reaches(s, Usb(HostCloses), s1);
    r := UsbClose(s1, false);
    Reaches(s1, Usb(PollPort), r);
  }

  lemma ClosingStops(s: State) returns (r: State)
    requires Reachable(s) && s.usb.CloseStop?
    ensures Reachable(r) && r.status == RequestChannelStop(s.status) && r.worker == s.worker && r.backend == s.backend
  {
    r := UsbClose(s, false);
    Reaches(s, Usb(PollPort), r);
  }

  lemma ApplyEnds(s: State) returns (r: State)
    requires Reachable(s) && s.worker.Applying? && s.backend.inFlight == 0
    ensures Reachable(r) && r.status == s.status && r.worker.FinishingApply?
  {
    r := WorkerApply(s, false, true, false, false);
    Reaches(s, Finish(true), r);
  }

  lemma CompletionSweeps(s: State)
    requires Inv(s) && s.worker.FinishingApply? && s.status.stopPending
    requires s.status.mailbox.None? && !s.status.softPending
    ensures Next(s, Finish(true)).status.stopPending && !Next(s, Finish(true)).status.controlPending
  {
    assert Next(s, Finish(true)) == WorkerConclude(s);
  }

  /** A worker completion loses the flag of a pending stop, as the host reset of `StopWithoutControlPending` does. */
  lemma CompletionSweepsToo(s: State, other: LineCoding)
    requires Init(s) && Differs(s, other)
    ensures exists r: State, step: Step ::
      && Reachable(r) && r.status.stopPending && r.status.controlPending && step.WorkerStep?
      && Next(r, step).status.stopPending && !Next(r, step).status.controlPending
  {
    var applying := ApplyIsReachable(s, other);
    var closing := CloseDuringApply(applying);
    var closed := ClosingStops(closing);
    var r := ApplyEnds(closed);
    ReachableHasInv(r);
    CompletionSweeps(r);
    assert r.status.controlPending && Finish(true).WorkerStep?;
  }
}

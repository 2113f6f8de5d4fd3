/** CONTROL_ERROR along every run: it reports the outcome of exactly the newest generation. */
module ControlErrors {
  import opened Words
  import opened PortStatus
  import opened ControlPlane
  import opened ControlSafety

  predicate IsFailure(outcome: Outcome) {
    outcome.Rejected? || outcome.Failed?
  }

  /** The generation was rejected, or its completion failed. */
  predicate HasFailed(outcomes: map<nat, Outcome>, generation: nat) {
    generation in outcomes && IsFailure(outcomes[generation])
  }

  ghost predicate NoneFailed(outcomes: map<nat, Outcome>) {
    forall g :: g in outcomes ==> !HasFailed(outcomes, g)
  }

  /** The USB core holds a request for the mailbox. */
  predicate Staged(s: State) {
    s.session.pending && !InReset(s.usb)
  }

  /** A request in hand has no outcome yet, and is older than any request staged behind it. */
  ghost predicate InHand(s: State, generation: nat) {
    && generation <= s.status.generation && generation !in s.outcomes
    && (Staged(s) ==> generation < s.session.generation)
  }

  /** The flag and the reason tell of the outcomes; no outcome belongs to a generation newer than the newest. */
  ghost predicate Tells(error: bool, reason: ErrorReason, newest: nat, outcomes: map<nat, Outcome>) {
    && (forall g :: g in outcomes ==> g <= newest)
    && (error <==> HasFailed(outcomes, newest))
    && (reason.NoError? <==> NoneFailed(outcomes))
  }

  ghost predicate Told(s: State) {
    Tells(s.status.controlError, s.status.reason, s.status.generation, s.outcomes)
  }

  /** Whoever holds a request holds one that is still to be answered, the newest of them last in line. */
  ghost predicate Held(s: State) {
    var t := s.status;
    && (Staged(s) ==> s.session.generation <= t.generation && s.session.generation !in s.outcomes)
    && (t.mailbox.Some? ==> InHand(s, t.mailbox.value.generation))
    && (t.pending.pending ==>
      InHand(s, t.pending.generation) && (t.mailbox.Some? ==> t.pending.generation < t.mailbox.value.generation))
    && (StartOwns(s.worker) ==>
      t.pending.generation == (if s.worker.StartingPort? then s.worker.taken.value else s.worker.request).generation)
  }

  /** A request the worker carries was taken after the one it may already be serving. */
  ghost predicate Carried(s: State) {
    Carries(s.worker) ==>
      && InHand(s, s.worker.request.generation)
      && (s.status.mailbox.Some? ==> s.worker.request.generation < s.status.mailbox.value.generation)
      && s.status.pending.generation <= s.worker.request.generation
      && (!s.worker.SettingPending? ==>
        (s.status.pending.generation == s.worker.request.generation <==> Provisional(s.worker)))
  }

  ghost predicate Errors(s: State) {
    Told(s) && Held(s) && Carried(s)
  }

  /** Recorded outcomes are final. */
  ghost predicate Stand(before: map<nat, Outcome>, after: map<nat, Outcome>) {
    forall g :: g in before ==> g in after && after[g] == before[g]
  }

  /** A first outcome is kept beside the others, and is the only news. */
  lemma Recorded(outcomes: map<nat, Outcome>, generation: nat, outcome: Outcome)
    requires generation !in outcomes
    ensures var after := outcomes[generation := outcome];
      && Stand(outcomes, after)
      && (NoneFailed(after) <==> NoneFailed(outcomes) && !IsFailure(outcome))
  {
    var after := outcomes[generation := outcome];
    if NoneFailed(after) {
      forall g | g in outcomes ensures !HasFailed(outcomes, g) {
        assert g in after && !HasFailed(after, g);
      }
      assert !HasFailed(after, generation);
    }
  }

  /** An outcome of generation `g`, the newest or an older one, is told by the completion rule for the flag. */
  lemma AnswerTells(error: bool, reason: ErrorReason, newest: nat, outcomes: map<nat, Outcome>, g: nat,
                    outcome: Outcome, nextReason: ErrorReason)
    requires Tells(error, reason, newest, outcomes)
    requires g <= newest && g !in outcomes
    requires if IsFailure(outcome) then !nextReason.NoError? else nextReason == reason
    ensures Tells(if g == newest then IsFailure(outcome) else error, nextReason, newest, outcomes[g := outcome])
    ensures Stand(outcomes, outcomes[g := outcome])
  {
    Recorded(outcomes, g, outcome);
  }

  lemma MarkedKeepsErrors(s: State, lineCoding: LineCoding)
    requires Ownership(s) && Errors(s)
    ensures Errors(Marked(s, lineCoding))
  {
  }

  lemma RefusedKeepsErrors(s: State, reason: ErrorReason)
    requires Ownership(s) && Errors(s) && !reason.NoError?
    ensures var next := Refused(s, reason); Errors(next) && Stand(s.outcomes, next.outcomes)
  {
    Recorded(s.outcomes, s.status.generation + 1, Rejected);
  }

  lemma StopRequestedKeepsErrors(s: State)
    requires Ownership(s) && Errors(s)
    ensures var next := StopRequested(s); Errors(next) && Stand(s.outcomes, next.outcomes)
  {
    Recorded(s.outcomes, s.status.generation + 1, Stopped);
  }

  lemma GivenUpKeepsErrors(s: State, reason: ErrorReason)
    requires Ownership(s) && Errors(s) && s.session.pending && Staging(s.usb) && !reason.NoError?
    ensures var next := GivenUp(s, reason); Errors(next) && Stand(s.outcomes, next.outcomes)
  {
    Recorded(s.outcomes, s.session.generation, Failed);
  }

  lemma QueuedKeepsErrors(s: State)
    requires Ownership(s) && Errors(s) && s.session.pending && Staging(s.usb) && CanPublish(s.status)
    ensures Errors(Queued(s))
  {
  }

  lemma MatchTells(s: State)
    requires Ownership(s) && Errors(s) && s.worker.FinishingMatch?
    ensures var next := WorkerAnswer(s); Told(next) && Stand(s.outcomes, next.outcomes)
  {
    var t, request := s.status, s.worker.request.generation;
    var g := t.pending.generation;
    if s.worker.prior {
      AnswerTells(t.controlError, t.reason, t.generation, s.outcomes, g, Applied, t.reason);
      var error := t.controlError && g != t.generation;
      AnswerTells(error, t.reason, t.generation, s.outcomes[g := Applied], request, Applied, t.reason);
    } else {
      AnswerTells(t.controlError, t.reason, t.generation, s.outcomes, request, Applied, t.reason);
    }
  }

  lemma MatchHolds(s: State)
    requires Ownership(s) && Errors(s) && s.worker.FinishingMatch?
    ensures var next := WorkerAnswer(s); Held(next) && Carried(next)
  {
  }

  lemma RejectionKeepsErrors(s: State)
    requires Ownership(s) && Errors(s) && s.worker.RejectingMailbox?
    ensures var next := WorkerAnswer(s); Errors(next) && Stand(s.outcomes, next.outcomes)
  {
    Recorded(s.outcomes, s.worker.request.generation, Failed);
  }

  /** A step with no news: no outcome, no new holder, and flags and names as before. */
  ghost predicate NoNews(s: State, next: State) {
    var t, u := s.status, next.status;
    && next.outcomes == s.outcomes
    && u.generation == t.generation && u.controlError == t.controlError && u.reason == t.reason
    && (u.mailbox.Some? ==> u.mailbox == t.mailbox)
    && (u.pending.pending ==> u.pending == t.pending)
    && (Carries(next.worker) || StartOwns(next.worker) ==> next.worker == s.worker && u.pending == t.pending)
    && next.session.generation == s.session.generation && (Staged(next) ==> Staged(s))
  }

  lemma NoNewsKeepsErrors(s: State, next: State)
    requires Errors(s) && NoNews(s, next)
    ensures Errors(next) && Stand(s.outcomes, next.outcomes)
  {
  }

  lemma StageKeepsErrors(s: State, expired: bool)
    requires Ownership(s) && Errors(s) && Staging(s.usb)
    ensures var next := Stage(s, expired); Errors(next) && next.usb == s.usb && Stand(s.outcomes, next.outcomes)
  {
    if s.session.pending {
      GivenUpKeepsErrors(s, TimedOut);
      GivenUpKeepsErrors(s, OtherError);
      if CanPublish(s.status) {
        QueuedKeepsErrors(s);
      }
    }
  }

  lemma StartedTells(s: State)
    requires Ownership(s) && Errors(s) && s.worker.FinishingStart?
    ensures var next := WorkerStart(s, NotStarted); Told(next) && Stand(s.outcomes, next.outcomes)
  {
    AnswerTells(s.status.controlError, s.status.reason, s.status.generation, s.outcomes,
                s.worker.request.generation, Ended(s.worker.started), WorkerStart(s, NotStarted).status.reason);
  }

  lemma StartedHolds(s: State)
    requires Ownership(s) && Errors(s) && s.worker.FinishingStart?
    ensures var next := WorkerStart(s, NotStarted); Held(next) && Carried(next)
  {
    var next := WorkerStart(s, NotStarted);
    assert next.session == s.session && next.usb == s.usb && next.status.mailbox == s.status.mailbox;
  }

  lemma ConclusionTells(s: State)
    requires Ownership(s) && Errors(s) && s.worker.FinishingApply?
    ensures var next := WorkerConclude(s); Told(next) && Stand(s.outcomes, next.outcomes)
  {
    AnswerTells(s.status.controlError, s.status.reason, s.status.generation, s.outcomes,
                s.status.pending.generation, Ended(s.worker.error.NoError?), WorkerConclude(s).status.reason);
  }

  lemma ConclusionHolds(s: State)
    requires Ownership(s) && Errors(s) && s.worker.FinishingApply?
    ensures var next := WorkerConclude(s); Held(next) && Carried(next)
  {
    var next := WorkerConclude(s);
    assert next.session == s.session && next.usb == s.usb && next.status.mailbox == s.status.mailbox;
  }

  lemma UsbCallbackKeepsErrors(s: State, event: UsbEvent)
    requires Ownership(s) && Errors(s) && s.usb.UsbIdle?
    ensures var next := UsbCallback(s, event); Errors(next) && Stand(s.outcomes, next.outcomes)
  {
    var next := UsbCallback(s, event);
    match event
    case HostSets(lineCoding) =>
      if Acceptable(s.supported, lineCoding) {
        MarkedKeepsErrors(s, lineCoding);
        assert next == Marked(s, lineCoding);
      } else {
        RefusedKeepsErrors(s, LineCodingError(lineCoding, s.pio));
        assert next == Refused(s, LineCodingError(lineCoding, s.pio));
      }
    case HostSetsBad(badBaud) => RefusedKeepsErrors(s, if badBaud then BadBaud else BadFraming);
    case _ =>
      MoveTouches(s, event);
      NoNewsKeepsErrors(s, next);
  }

  lemma UsbPollKeepsErrors(s: State)
    requires Errors(s) && s.usb.UsbIdle?
    ensures var next := UsbPoll(s); Errors(next) && Stand(s.outcomes, next.outcomes)
  {
    NoNewsKeepsErrors(s, UsbPoll(s));
  }

  lemma CloseStopKeepsErrors(s: State)
    requires Ownership(s) && Errors(s) && s.usb.CloseStop?
    ensures var next := UsbClose(s, false); Errors(next) && Stand(s.outcomes, next.outcomes)
  {
    var stopped := StopRequested(s);
    StopRequestedKeepsErrors(s);
    assert UsbClose(s, false) == stopped.(session := stopped.session.(isOpen := false), usb := UsbIdle);
    NoNewsKeepsErrors(stopped, UsbClose(s, false));
  }

  lemma QuiesceKeepsErrors(s: State, cleared: bool)
    requires Errors(s) && (s.usb.CheckQuiesced? || s.usb.MarkQuiesced?)
    ensures var next := UsbClose(s, cleared); Errors(next) && next.outcomes == s.outcomes
  {
    var next := UsbClose(s, cleared);
    if s.usb.CheckQuiesced? {
      assert next == s.(usb := next.usb);
    } else {
      assert next == s.(usb := UsbIdle, status := StopUsbQuiesced(s.status));
    }
    NoNewsKeepsErrors(s, next);
  }

  lemma UsbCloseKeepsErrors(s: State, cleared: bool)
    requires Ownership(s) && Errors(s) && Closing(s.usb)
    ensures var next := UsbClose(s, cleared); Errors(next) && Stand(s.outcomes, next.outcomes)
  {
    match s.usb
    case CloseStop => CloseStopKeepsErrors(s);
    case CloseResetSoft => NoNewsKeepsErrors(s, UsbClose(s, cleared));
    case _ => QuiesceKeepsErrors(s, cleared);
  }

  lemma UsbResetKeepsErrors(s: State)
    requires Ownership(s) && Errors(s) && Resetting(s.usb)
    ensures var next := UsbReset(s); Errors(next) && Stand(s.outcomes, next.outcomes)
  {
    if s.usb.ResetStop? {
      StopRequestedKeepsErrors(s);
      NoNewsKeepsErrors(StopRequested(s), UsbReset(s));
    } else {
      NoNewsKeepsErrors(s, UsbReset(s));
    }
  }

  lemma UsbStageKeepsErrors(s: State, expired: bool)
    requires Ownership(s) && Errors(s) && Staging(s.usb)
    ensures var next := UsbStage(s, expired); Errors(next) && Stand(s.outcomes, next.outcomes)
  {
    StageKeepsErrors(s, expired);
    NoNewsKeepsErrors(Stage(s, expired), UsbStage(s, expired));
  }

  lemma UsbAdmitKeepsErrors(s: State)
    requires Errors(s) && Admitting(s.usb)
    ensures var next := UsbAdmit(s); Errors(next) && Stand(s.outcomes, next.outcomes)
  {
    NoNewsKeepsErrors(s, UsbAdmit(s));
  }

  lemma UsbBridgeKeepsErrors(s: State, more: bool)
    requires Errors(s) && Bridging(s.usb)
    ensures var next := UsbBridge(s, more); Errors(next) && Stand(s.outcomes, next.outcomes)
  {
    var next := UsbBridge(s, more);
    assert next == s.(backend := next.backend, usb := next.usb);
    NoNewsKeepsErrors(s, next);
  }

  lemma ServiceKeepsErrors(s: State)
    requires Ownership(s) && Errors(s) && s.worker.WorkerIdle?
    ensures var next := WorkerBegin(s, ServeMailbox); Errors(next) && next.outcomes == s.outcomes
  {
    var next := WorkerBegin(s, ServeMailbox);
    assert next.session == s.session && next.usb == s.usb && next.outcomes == s.outcomes;
    assert next.status == TakeForService(s.status).0;
  }

  lemma WorkerBeginKeepsErrors(s: State, task: WorkerTask)
    requires Ownership(s) && Errors(s) && s.worker.WorkerIdle?
    ensures var next := WorkerBegin(s, task); Errors(next) && Stand(s.outcomes, next.outcomes)
  {
    if task.ServeMailbox? {
      ServiceKeepsErrors(s);
    } else {
      NoNewsKeepsErrors(s, WorkerBegin(s, task));
    }
  }

  lemma WorkerStopKeepsErrors(s: State)
    requires Errors(s) && Stopping(s.worker)
    ensures var next := WorkerStop(s); Errors(next) && Stand(s.outcomes, next.outcomes)
  {
    NoNewsKeepsErrors(s, WorkerStop(s));
  }

  lemma TakingInitialKeepsErrors(s: State)
    requires Ownership(s) && Errors(s) && s.worker.TakingInitial?
    ensures var next := WorkerStart(s, NotStarted); Errors(next) && next.outcomes == s.outcomes
  {
  }

  lemma StartingPortKeepsErrors(s: State, outcome: StartOutcome)
    requires Errors(s) && s.worker.StartingPort?
    ensures var next := WorkerStart(s, outcome); Errors(next) && next.outcomes == s.outcomes
  {
    var next := WorkerStart(s, outcome);
    assert next == s.(backend := next.backend, worker := next.worker);
    assert StartOwns(next.worker) ==> next.worker.request == s.worker.taken.value;
  }

  lemma WorkerStartKeepsErrors(s: State, outcome: StartOutcome)
    requires Ownership(s) && Errors(s) && BringingUp(s.worker)
    ensures var next := WorkerStart(s, outcome); Errors(next) && Stand(s.outcomes, next.outcomes)
  {
    match s.worker
    case TakingInitial => TakingInitialKeepsErrors(s);
    case StartingPort(_) => StartingPortKeepsErrors(s, outcome);
    case FinishingStart(_, _) =>
      StartedTells(s);
      StartedHolds(s);
    case PublishingStart(_) => NoNewsKeepsErrors(s, WorkerStart(s, outcome));
  }

  lemma TakenRequestKeepsErrors(s: State, next: State)
    requires Errors(s) && s.worker.Taken? && (next.worker.RejectingMailbox? || next.worker.Matching?)
    requires next == s.(worker := next.worker)
    requires next.worker.request == s.worker.request && next.worker.prior == s.worker.prior
    ensures Errors(next)
  {
  }

  lemma RecordedRequestKeepsErrors(s: State)
    requires Errors(s) && s.worker.Taken?
    ensures Errors(s.(worker := SettingPending(s.worker.request), status := RecordRequest(s.status, s.worker.request)))
  {
  }

  lemma TakenKeepsErrors(s: State)
    requires Errors(s) && s.worker.Taken?
    ensures var next := WorkerMailbox(s); Errors(next) && next.outcomes == s.outcomes
  {
    if Decide(s, s.worker.request, s.worker.prior).SettingPending? {
      RecordedRequestKeepsErrors(s);
    } else {
      TakenRequestKeepsErrors(s, WorkerMailbox(s));
    }
  }

  lemma SettingPendingKeepsErrors(s: State)
    requires Errors(s) && s.worker.SettingPending?
    ensures var next := WorkerMailbox(s); Errors(next) && next.outcomes == s.outcomes
  {
  }

  lemma WorkerMailboxKeepsErrors(s: State)
    requires Errors(s) && Deciding(s.worker)
    ensures var next := WorkerMailbox(s); Errors(next) && next.outcomes == s.outcomes
  {
    if s.worker.Taken? {
      TakenKeepsErrors(s);
    } else {
      SettingPendingKeepsErrors(s);
    }
  }

  lemma WorkerAnswerKeepsErrors(s: State)
    requires Ownership(s) && Errors(s) && Answering(s.worker)
    ensures var next := WorkerAnswer(s); Errors(next) && Stand(s.outcomes, next.outcomes)
  {
    match s.worker
    case Matching(_, _) =>
    case FinishingMatch(_, _) =>
      MatchTells(s);
      MatchHolds(s);
    case RejectingMailbox(_, _) => RejectionKeepsErrors(s);
  }

  lemma WorkerApplyKeepsErrors(s: State, expired: bool, applied: bool, stopped: bool, fellBack: bool)
    requires Errors(s) && Attempting(s.worker)
    ensures var next := WorkerApply(s, expired, applied, stopped, fellBack);
      Errors(next) && Stand(s.outcomes, next.outcomes)
  {
    var next := WorkerApply(s, expired, applied, stopped, fellBack);
    assert next.status == s.status && next.outcomes == s.outcomes && next.session == s.session && next.usb == s.usb;
    assert !Carries(next.worker) && !StartOwns(next.worker);
    NoNewsKeepsErrors(s, next);
  }

  lemma WorkerConcludeKeepsErrors(s: State)
    requires Ownership(s) && Errors(s) && Concluding(s.worker)
    ensures var next := WorkerConclude(s); Errors(next) && Stand(s.outcomes, next.outcomes)
  {
    if s.worker.FinishingApply? {
      ConclusionTells(s);
      ConclusionHolds(s);
    } else {
      NoNewsKeepsErrors(s, WorkerConclude(s));
    }
  }

  lemma WorkerPollKeepsErrors(s: State, completed: bool, launch: nat)
    requires Errors(s) && s.worker.Polling?
    ensures var next := WorkerPoll(s, s.worker.launchAllowed, completed, launch);
      Errors(next) && Stand(s.outcomes, next.outcomes)
  {
    NoNewsKeepsErrors(s, WorkerPoll(s, s.worker.launchAllowed, completed, launch));
  }

  lemma DmaNextKeepsErrors(s: State)
    requires Errors(s)
    ensures var next := DmaNext(s); Errors(next) && Stand(s.outcomes, next.outcomes)
  {
    NoNewsKeepsErrors(s, DmaNext(s));
  }
}

/** Which format is in force: the published settings, the newest applied request and the programmed backend agree. */
module ControlFormats {
  import opened Words
  import opened PortStatus
  import opened ControlPlane
  import opened ControlSafety
  import opened ControlErrors
  import opened ControlRuns

  /** What the driver has on record after programming `l`, and then what is on record again, `times` times in all. */
  function Programmed(achieved: LineCoding -> LineCoding, times: nat, l: LineCoding): LineCoding {
    if times == 0 then l else achieved(Programmed(achieved, times - 1, l))
  }

  /** The host asked for this format in this generation. */
  predicate IsAsked(asked: map<nat, LineCoding>, generation: nat, l: LineCoding) {
    generation in asked && asked[generation] == l
  }

  predicate Asks(asked: map<nat, LineCoding>, request: Request) {
    IsAsked(asked, request.generation, request.lineCoding)
  }

  /** The deferred apply is recorded in full. */
  predicate Deferred(s: State) {
    s.live && s.status.pending.pending && !Provisional(s.worker) && !s.worker.SettingPending?
  }

  /** Whoever holds a request holds what the host asked for. */
  ghost predicate Named(s: State) {
    var t, w := s.status, s.worker;
    && 0 in s.asked && (forall g :: g in s.asked ==> g <= t.generation)
    && (Staged(s) ==> IsAsked(s.asked, s.session.generation, s.session.lineCoding))
    && (t.mailbox.Some? ==> Asks(s.asked, t.mailbox.value))
    && (Carries(w) || w.FinishingStart? ==> Asks(s.asked, w.request))
    && (w.StartingPort? && w.taken.Some? ==> Asks(s.asked, w.taken.value))
    && (Deferred(s) ==> IsAsked(s.asked, t.pending.generation, t.pending.lineCoding))
    && (w.SettingPending? ==> t.pending.lineCoding == w.request.lineCoding)
  }

  predicate HasApplied(outcomes: map<nat, Outcome>, generation: nat) {
    generation in outcomes && outcomes[generation].Applied?
  }

  /** Every applied generation is older. */
  ghost predicate After(outcomes: map<nat, Outcome>, generation: nat) {
    forall g: nat :: HasApplied(outcomes, g) ==> g < generation
  }

  /** Requests are applied in the order they were made: what is still held is newer than all that was applied. */
  ghost predicate InTurn(s: State) {
    && (Staged(s) ==> After(s.outcomes, s.session.generation))
    && (s.status.mailbox.Some? ==> After(s.outcomes, s.status.mailbox.value.generation))
    && (s.status.pending.pending ==> After(s.outcomes, s.status.pending.generation))
  }

  /** The newest generation that ended applied. */
  ghost predicate LastApplied(outcomes: map<nat, Outcome>, generation: nat) {
    HasApplied(outcomes, generation) && forall g: nat :: HasApplied(outcomes, g) ==> g <= generation
  }

  /** The settings are those of the newest applied generation, or the board's while none has been applied. */
  ghost predicate Shows(asked: map<nat, LineCoding>, outcomes: map<nat, Outcome>, info: LineCoding) {
    && (forall g: nat :: LastApplied(outcomes, g) ==> IsAsked(asked, g, info))
    && ((forall g: nat :: !HasApplied(outcomes, g)) ==> IsAsked(asked, 0, info))
  }

  /** A matched request is published one section before it completes. */
  ghost predicate Shown(s: State) {
    if s.worker.FinishingMatch? then s.status.info == s.worker.request.lineCoding
    else Shows(s.asked, s.outcomes, s.status.info)
  }

  /** The driver was programmed with this format. */
  ghost predicate ProgrammedFrom(achieved: LineCoding -> LineCoding, running: LineCoding, l: LineCoding) {
    exists times: nat :: 0 < times && running == Programmed(achieved, times, l)
  }

  /** The backend has taken a new format that is still to be published. */
  predicate Unpublished(w: Worker) {
    (w.FinishingStart? && w.started) || (w.FinishingApply? && w.error.NoError?)
  }

  /** A running backend was programmed with the published settings, or with the ones about to be published. */
  ghost predicate Runs(s: State) {
    var b, w := s.backend, s.worker;
    && (w.FinishingStart? && w.started ==> b.running == s.achieved(w.request.lineCoding))
    && (w.FinishingApply? && w.error.NoError? ==>
      b.running == s.achieved(s.achieved(s.status.pending.lineCoding)))
    && (w.Matching? ==> b.running == s.achieved(w.request.lineCoding))
    && (b.initialized && !Unpublished(w) ==> ProgrammedFrom(s.achieved, b.running, s.status.info))
  }

  ghost predicate Formats(s: State) {
    Named(s) && InTurn(s) && Shown(s) && Runs(s)
  }

  // ---- Sections that leave formats alone -------------------------------------------------------------------

  ghost predicate SameApplied(before: map<nat, Outcome>, after: map<nat, Outcome>) {
    forall g: nat :: HasApplied(before, g) <==> HasApplied(after, g)
  }

  /** The worker's program counter says what the published settings and the record hold. */
  predicate Telling(w: Worker) {
    Carries(w) || StartOwns(w) || Unpublished(w)
  }

  /** The worker stays where it is, or leaves a request behind that applies nothing. */
  predicate SamePlace(s: State, next: State) {
    if Telling(next.worker) then
      next.worker == s.worker && next.status.pending.lineCoding == s.status.pending.lineCoding
    else
      next.worker == s.worker ||
      (!s.worker.FinishingMatch? && !Unpublished(s.worker) &&
       (next.status.pending.pending ==> !Provisional(s.worker) && !s.worker.SettingPending?))
  }

  predicate SameBackend(b: Backend, c: Backend) {
    c.running == b.running && (c.initialized ==> b.initialized)
  }

  ghost predicate SameRequests(s: State, next: State) {
    && next.asked == s.asked && SameApplied(s.outcomes, next.outcomes)
    && next.status.generation >= s.status.generation && next.status.info == s.status.info
    && (next.status.mailbox.Some? ==> next.status.mailbox == s.status.mailbox)
    && (next.status.pending.pending ==> next.status.pending == s.status.pending && (next.live ==> s.live))
    && next.session.generation == s.session.generation && next.session.lineCoding == s.session.lineCoding
    && (Staged(next) ==> Staged(s))
  }

  lemma SameShows(asked: map<nat, LineCoding>, before: map<nat, Outcome>, after: map<nat, Outcome>, info: LineCoding)
    requires Shows(asked, before, info) && SameApplied(before, after)
    ensures Shows(asked, after, info)
  {
    forall g: nat | LastApplied(after, g) ensures IsAsked(asked, g, info) {
      assert HasApplied(before, g);
      assert forall h: nat :: HasApplied(before, h) ==> HasApplied(after, h);
    }
  }

  lemma StillNamed(s: State, next: State)
    requires Named(s) && SameRequests(s, next) && SamePlace(s, next)
    ensures Named(next)
  {
  }

  lemma StillInTurn(s: State, next: State)
    requires InTurn(s) && SameRequests(s, next)
    ensures InTurn(next)
  {
  }

  lemma StillRuns(s: State, next: State)
    requires Runs(s) && SamePlace(s, next) && SameBackend(s.backend, next.backend) && next.achieved == s.achieved
    requires next.status.info == s.status.info
    ensures Runs(next)
  {
  }

  ghost predicate Quiet(s: State, next: State) {
    && SameRequests(s, next) && SamePlace(s, next) && SameBackend(s.backend, next.backend)
    && next.achieved == s.achieved
  }

  lemma QuietKeepsFormats(s: State, next: State)
    requires Formats(s) && Quiet(s, next)
    ensures Formats(next)
  {
    StillNamed(s, next);
    StillInTurn(s, next);
    if !s.worker.FinishingMatch? {
      SameShows(s.asked, s.outcomes, next.outcomes, s.status.info);
    }
    StillRuns(s, next);
  }

  /** An outcome other than `Applied`, of a generation without one, applies nothing. */
  lemma NothingApplied(outcomes: map<nat, Outcome>, generation: nat, outcome: Outcome)
    requires generation !in outcomes && !outcome.Applied?
    ensures SameApplied(outcomes, outcomes[generation := outcome])
  {
  }

  // ---- The USB core ----------------------------------------------------------------------------------------

  lemma MarkedKeepsFormats(s: State, lineCoding: LineCoding)
    requires Told(s) && Formats(s) && s.usb.UsbIdle?
    ensures Formats(Marked(s, lineCoding))
  {
    var next := Marked(s, lineCoding);
    assert next.outcomes == s.outcomes && next.worker == s.worker && next.backend == s.backend;
    assert forall g, l :: IsAsked(s.asked, g, l) ==> IsAsked(next.asked, g, l);
  }

  lemma RefusedKeepsFormats(s: State, reason: ErrorReason)
    requires Told(s) && Formats(s)
    ensures Formats(Refused(s, reason))
  {
    NothingApplied(s.outcomes, s.status.generation + 1, Rejected);
    QuietKeepsFormats(s, Refused(s, reason));
  }

  lemma StopRequestedKeepsFormats(s: State)
    requires Told(s) && Formats(s)
    ensures Formats(StopRequested(s))
  {
    NothingApplied(s.outcomes, s.status.generation + 1, Stopped);
    QuietKeepsFormats(s, StopRequested(s));
  }

  lemma GivenUpKeepsFormats(s: State, reason: ErrorReason)
    requires Errors(s) && Formats(s) && s.session.pending && Staging(s.usb)
    ensures Formats(GivenUp(s, reason))
  {
    NothingApplied(s.outcomes, s.session.generation, Failed);
    QuietKeepsFormats(s, GivenUp(s, reason));
  }

  lemma QueuedKeepsFormats(s: State)
    requires Formats(s) && s.session.pending && Staging(s.usb) && CanPublish(s.status)
    ensures Formats(Queued(s))
  {
    var next := Queued(s);
    assert next.outcomes == s.outcomes && next.worker == s.worker && next.backend == s.backend;
    assert next.status.pending == s.status.pending && next.live == s.live && next.asked == s.asked;
    assert next.status.mailbox ==
        Some(Request(s.session.generation, s.backend.producer, s.session.lineCoding));
  }

  lemma StageKeepsFormats(s: State, expired: bool)
    requires Errors(s) && Formats(s) && Staging(s.usb)
    ensures var next := Stage(s, expired); Formats(next) && next.usb == s.usb
  {
    if s.session.pending {
      GivenUpKeepsFormats(s, TimedOut);
      GivenUpKeepsFormats(s, OtherError);
      if CanPublish(s.status) {
        QueuedKeepsFormats(s);
      }
    }
  }

  lemma UsbStageKeepsFormats(s: State, expired: bool)
    requires Errors(s) && Formats(s) && Staging(s.usb)
    ensures Formats(UsbStage(s, expired))
  {
    StageKeepsFormats(s, expired);
    QuietKeepsFormats(Stage(s, expired), UsbStage(s, expired));
  }

  lemma UsbCallbackKeepsFormats(s: State, event: UsbEvent)
    requires Errors(s) && Formats(s) && s.usb.UsbIdle?
    ensures Formats(UsbCallback(s, event))
  {
    var next := UsbCallback(s, event);
    if event.HostSets? && Acceptable(s.supported, event.lineCoding) {
      MarkedKeepsFormats(s, event.lineCoding);
      assert next == Marked(s, event.lineCoding);
    } else if Sets(event) {
      RefusedKeepsFormats(s, next.status.reason);
      assert next == Refused(s, next.status.reason);
    } else {
      MoveTouches(s, event);
      assert next.session.generation == s.session.generation;
      QuietKeepsFormats(s, next);
    }
  }

  lemma CloseStopKeepsFormats(s: State)
    requires Errors(s) && Formats(s) && s.usb.CloseStop?
    ensures Formats(UsbClose(s, false))
  {
    var stopped := StopRequested(s);
    StopRequestedKeepsFormats(s);
    assert UsbClose(s, false) == stopped.(session := stopped.session.(isOpen := false), usb := UsbIdle);
    QuietKeepsFormats(stopped, UsbClose(s, false));
  }

  lemma QuiesceKeepsFormats(s: State, cleared: bool)
    requires Formats(s) && (s.usb.CheckQuiesced? || s.usb.MarkQuiesced?)
    ensures Formats(UsbClose(s, cleared))
  {
    var next := UsbClose(s, cleared);
    assert next == s.(usb := next.usb, status := next.status);
    QuietKeepsFormats(s, next);
  }

  lemma UsbCloseKeepsFormats(s: State, cleared: bool)
    requires Errors(s) && Formats(s) && Closing(s.usb)
    ensures Formats(UsbClose(s, cleared))
  {
    if s.usb.CloseStop? {
      CloseStopKeepsFormats(s);
    } else if s.usb.CloseResetSoft? {
      QuietKeepsFormats(s, UsbClose(s, cleared));
    } else {
      QuiesceKeepsFormats(s, cleared);
    }
  }

  lemma UsbResetKeepsFormats(s: State)
    requires Errors(s) && Formats(s) && Resetting(s.usb)
    ensures Formats(UsbReset(s))
  {
    if s.usb.ResetStop? {
      StopRequestedKeepsFormats(s);
      QuietKeepsFormats(StopRequested(s), UsbReset(s));
    } else {
      QuietKeepsFormats(s, UsbReset(s));
    }
  }

  lemma UsbBridgeKeepsFormats(s: State, more: bool)
    requires Formats(s) && Bridging(s.usb)
    ensures Formats(UsbBridge(s, more))
  {
    var next := UsbBridge(s, more);
    assert next == s.(backend := next.backend, usb := next.usb);
    QuietKeepsFormats(s, next);
  }

  lemma UsbAdmitKeepsFormats(s: State)
    requires Formats(s) && Admitting(s.usb)
    ensures Formats(UsbAdmit(s))
  {
    QuietKeepsFormats(s, UsbAdmit(s));
  }

  lemma UsbPollKeepsFormats(s: State)
    requires Formats(s) && s.usb.UsbIdle?
    ensures Formats(UsbPoll(s))
  {
    QuietKeepsFormats(s, UsbPoll(s));
  }

  lemma UsbKeepsFormats(s: State, event: UsbEvent, expired: bool, cleared: bool, more: bool)
    requires Errors(s) && Formats(s)
    ensures Formats(UsbNext(s, event, expired, cleared, more))
  {
    if s.usb.UsbIdle? {
      UsbPollKeepsFormats(s);
      UsbCallbackKeepsFormats(s, event);
    } else if Staging(s.usb) {
      UsbStageKeepsFormats(s, expired);
    } else if Admitting(s.usb) {
      UsbAdmitKeepsFormats(s);
    } else if Bridging(s.usb) {
      UsbBridgeKeepsFormats(s, more);
    } else if Closing(s.usb) {
      UsbCloseKeepsFormats(s, cleared);
    } else {
      UsbResetKeepsFormats(s);
    }
  }

  // ---- The worker ------------------------------------------------------------------------------------------

  lemma ServiceKeepsFormats(s: State)
    requires Life(s) && Ownership(s) && Formats(s) && s.worker.WorkerIdle?
    ensures Formats(WorkerBegin(s, ServeMailbox))
  {
    var next := WorkerBegin(s, ServeMailbox);
    assert next.outcomes == s.outcomes && next.backend == s.backend && next.asked == s.asked;
    assert next.status == TakeForService(s.status).0 && next.session == s.session && next.usb == s.usb;
  }

  lemma WorkerBeginKeepsFormats(s: State, task: WorkerTask)
    requires Life(s) && Ownership(s) && Formats(s) && s.worker.WorkerIdle?
    ensures Formats(WorkerBegin(s, task))
  {
    if task.ServeMailbox? {
      ServiceKeepsFormats(s);
    } else {
      QuietKeepsFormats(s, WorkerBegin(s, task));
    }
  }

  lemma CompletingStopKeepsFormats(s: State)
    requires Formats(s) && s.worker.CompletingStop?
    ensures Formats(WorkerStop(s))
  {
    QuietKeepsFormats(s, WorkerStop(s));
  }

  lemma TakingStartKeepsFormats(s: State)
    requires Formats(s) && s.worker.TakingStart?
    ensures Formats(WorkerStop(s))
  {
    QuietKeepsFormats(s, WorkerStop(s));
  }

  lemma WorkerStopKeepsFormats(s: State)
    requires Formats(s) && Stopping(s.worker)
    ensures Formats(WorkerStop(s))
  {
    match s.worker
    case Deiniting => QuietKeepsFormats(s, WorkerStop(s));
    case CompletingStop => CompletingStopKeepsFormats(s);
    case TakingStart => TakingStartKeepsFormats(s);
  }

  lemma WorkerPollKeepsFormats(s: State, completed: bool, launch: nat)
    requires Formats(s) && s.worker.Polling?
    ensures Formats(WorkerPoll(s, s.worker.launchAllowed, completed, launch))
  {
    QuietKeepsFormats(s, WorkerPoll(s, s.worker.launchAllowed, completed, launch));
  }

  lemma TakingInitialKeepsFormats(s: State)
    requires Life(s) && Ownership(s) && Formats(s) && s.worker.TakingInitial?
    ensures Formats(WorkerStart(s, NotStarted))
  {
    var next := WorkerStart(s, NotStarted);
    assert next.outcomes == s.outcomes && next.backend == s.backend && next.asked == s.asked;
    assert next.status == TakeForStart(s.status).0 && next.session == s.session && next.usb == s.usb;
    assert next.live == s.live && !s.live;
  }

  lemma OnceProgrammed(achieved: LineCoding -> LineCoding, l: LineCoding)
    ensures ProgrammedFrom(achieved, achieved(l), l) && ProgrammedFrom(achieved, achieved(achieved(l)), l)
  {
    assert Programmed(achieved, 0, l) == l;
    assert Programmed(achieved, 1, l) == achieved(l);
    assert Programmed(achieved, 2, l) == achieved(achieved(l));
  }

  lemma StartingPortKeepsFormats(s: State, outcome: StartOutcome)
    requires Life(s) && Formats(s) && s.worker.StartingPort?
    ensures Formats(WorkerStart(s, outcome))
  {
    var next := WorkerStart(s, outcome);
    OnceProgrammed(s.achieved, s.status.info);
    assert next == s.(backend := next.backend, worker := next.worker);
    assert StartOwns(next.worker) ==> next.worker.request == s.worker.taken.value;
  }

  /** The newest request to be applied becomes the one that the settings show. */
  lemma AppliedShows(asked: map<nat, LineCoding>, outcomes: map<nat, Outcome>, generation: nat, l: LineCoding)
    requires After(outcomes, generation) && IsAsked(asked, generation, l)
    ensures Shows(asked, outcomes[generation := Applied], l)
  {
    var after := outcomes[generation := Applied];
    assert HasApplied(after, generation);
    forall g: nat | LastApplied(after, g) ensures IsAsked(asked, g, l) {
      assert g == generation || HasApplied(outcomes, g);
    }
  }

  lemma AppliedIsAfter(outcomes: map<nat, Outcome>, generation: nat, later: nat)
    requires After(outcomes, later) && generation < later
    ensures After(outcomes[generation := Applied], later)
  {
    var after := outcomes[generation := Applied];
    forall g: nat | HasApplied(after, g) ensures g < later {
      assert g == generation || HasApplied(outcomes, g);
    }
  }

  /** What is still held stays in turn when an older request is applied. */
  lemma AppliedInTurn(s: State, next: State, generation: nat)
    requires InTurn(s) && next.outcomes == s.outcomes[generation := Applied] && !next.status.pending.pending
    requires next.session == s.session && next.usb == s.usb && next.status.mailbox == s.status.mailbox
    requires Staged(s) ==> generation < s.session.generation
    requires s.status.mailbox.Some? ==> generation < s.status.mailbox.value.generation
    ensures InTurn(next)
  {
    if Staged(s) {
      AppliedIsAfter(s.outcomes, generation, s.session.generation);
    }
    if s.status.mailbox.Some? {
      AppliedIsAfter(s.outcomes, generation, s.status.mailbox.value.generation);
    }
  }

  lemma StartedKeepsFormats(s: State)
    requires Life(s) && Ownership(s) && Errors(s) && Formats(s) && s.worker.FinishingStart? && s.worker.started
    ensures Formats(WorkerStart(s, NotStarted))
  {
    var next, request := WorkerStart(s, NotStarted), s.worker.request;
    assert next.session == s.session && next.usb == s.usb && next.status.mailbox == s.status.mailbox;
    assert next.status.info == request.lineCoding && next.backend == s.backend && next.asked == s.asked;
    AppliedShows(s.asked, s.outcomes, request.generation, request.lineCoding);
    AppliedInTurn(s, next, request.generation);
    OnceProgrammed(s.achieved, request.lineCoding);
  }

  lemma NotStartedKeepsFormats(s: State)
    requires Life(s) && Ownership(s) && Errors(s) && Formats(s) && s.worker.FinishingStart? && !s.worker.started
    ensures Formats(WorkerStart(s, NotStarted))
  {
    NothingApplied(s.outcomes, s.worker.request.generation, Failed);
    QuietKeepsFormats(s, WorkerStart(s, NotStarted));
  }

  lemma PublishingStartKeepsFormats(s: State)
    requires Life(s) && Ownership(s) && Formats(s) && s.worker.PublishingStart?
    ensures Formats(WorkerStart(s, NotStarted))
  {
    QuietKeepsFormats(s, WorkerStart(s, NotStarted));
  }

  lemma WorkerStartKeepsFormats(s: State, outcome: StartOutcome)
    requires Life(s) && Ownership(s) && Errors(s) && Formats(s) && BringingUp(s.worker)
    ensures Formats(WorkerStart(s, outcome))
  {
    match s.worker
    case TakingInitial => TakingInitialKeepsFormats(s);
    case StartingPort(_) => StartingPortKeepsFormats(s, outcome);
    case FinishingStart(_, started) =>
      if started {
        StartedKeepsFormats(s);
      } else {
        NotStartedKeepsFormats(s);
      }
    case PublishingStart(_) => PublishingStartKeepsFormats(s);
  }

  lemma TakenRequestKeepsFormats(s: State, next: State)
    requires Formats(s) && s.worker.Taken? && (next.worker.RejectingMailbox? || next.worker.Matching?)
    requires next == s.(worker := next.worker)
    requires next.worker.request == s.worker.request && next.worker.prior == s.worker.prior
    requires next.worker.Matching? ==> s.backend.running == s.achieved(s.worker.request.lineCoding)
    ensures Formats(next)
  {
  }

  lemma RecordedRequestKeepsFormats(s: State)
    requires Formats(s) && s.worker.Taken?
    ensures Formats(s.(worker := SettingPending(s.worker.request), status := RecordRequest(s.status, s.worker.request)))
  {
  }

  lemma TakenKeepsFormats(s: State)
    requires Formats(s) && s.worker.Taken?
    ensures Formats(WorkerMailbox(s))
  {
    if Decide(s, s.worker.request, s.worker.prior).SettingPending? {
      RecordedRequestKeepsFormats(s);
    } else {
      TakenRequestKeepsFormats(s, WorkerMailbox(s));
    }
  }

  lemma SettingPendingKeepsFormats(s: State)
    requires Ownership(s) && Errors(s) && Formats(s) && s.worker.SettingPending?
    ensures Formats(WorkerMailbox(s))
  {
    var next := WorkerMailbox(s);
    assert next.outcomes == s.outcomes && next.backend == s.backend && next.asked == s.asked;
    assert next.status.mailbox == s.status.mailbox && next.session == s.session && next.usb == s.usb;
    assert s.status.pending.generation <= s.worker.request.generation;
  }

  lemma MatchingKeepsFormats(s: State)
    requires Formats(s) && s.worker.Matching?
    ensures Formats(WorkerAnswer(s))
  {
    var next := WorkerAnswer(s);
    OnceProgrammed(s.achieved, s.worker.request.lineCoding);
    assert next == s.(worker := next.worker, status := PublishInfo(s.status, s.worker.request.lineCoding));
  }

  /** The newest request is applied last, so the settings it published are those of the newest applied generation. */
  lemma MatchedShows(s: State)
    requires Ownership(s) && Errors(s) && Formats(s) && s.worker.FinishingMatch?
    ensures var next := WorkerAnswer(s); Shows(next.asked, next.outcomes, next.status.info)
  {
    var request, prior := s.worker.request, s.status.pending.generation;
    assert prior <= request.generation;
    assert After(s.outcomes, request.generation);
    if s.worker.prior {
      AppliedIsAfter(s.outcomes, prior, request.generation);
      AppliedShows(s.asked, s.outcomes[prior := Applied], request.generation, request.lineCoding);
    } else {
      AppliedShows(s.asked, s.outcomes, request.generation, request.lineCoding);
    }
  }

  lemma MatchedInTurn(s: State)
    requires Ownership(s) && Errors(s) && Formats(s) && s.worker.FinishingMatch?
    ensures InTurn(WorkerAnswer(s))
  {
    var next, request, prior := WorkerAnswer(s), s.worker.request.generation, s.status.pending.generation;
    assert next.session == s.session && next.usb == s.usb && next.status.mailbox == s.status.mailbox;
    assert !next.status.pending.pending;
    if s.worker.prior {
      var cancelled := s.(outcomes := s.outcomes[prior := Applied], status := next.status);
      AppliedInTurn(s, cancelled, prior);
      AppliedInTurn(cancelled, next, request);
    } else {
      AppliedInTurn(s, next, request);
    }
  }

  lemma MatchedKeepsFormats(s: State)
    requires Ownership(s) && Errors(s) && Formats(s) && s.worker.FinishingMatch?
    ensures Formats(WorkerAnswer(s))
  {
    var next := WorkerAnswer(s);
    MatchedShows(s);
    MatchedInTurn(s);
    assert next.session == s.session && next.usb == s.usb && next.status.mailbox == s.status.mailbox;
    assert next.backend == s.backend && next.asked == s.asked && next.status.info == s.status.info;
  }

  lemma RejectedKeepsFormats(s: State)
    requires Errors(s) && Formats(s) && s.worker.RejectingMailbox?
    ensures Formats(WorkerAnswer(s))
  {
    NothingApplied(s.outcomes, s.worker.request.generation, Failed);
    QuietKeepsFormats(s, WorkerAnswer(s));
  }

  lemma WorkerAnswerKeepsFormats(s: State)
    requires Ownership(s) && Errors(s) && Formats(s) && Answering(s.worker)
    ensures Formats(WorkerAnswer(s))
  {
    match s.worker
    case Matching(_, _) => MatchingKeepsFormats(s);
    case FinishingMatch(_, _) => MatchedKeepsFormats(s);
    case RejectingMailbox(_, _) => RejectedKeepsFormats(s);
  }

  /** A driver that programs what it has on record once more was still programmed with the same settings. */
  lemma ProgrammedAgain(achieved: LineCoding -> LineCoding, running: LineCoding, l: LineCoding)
    requires ProgrammedFrom(achieved, running, l)
    ensures ProgrammedFrom(achieved, achieved(running), l)
  {
    var times: nat :| 0 < times && running == Programmed(achieved, times, l);
    assert Programmed(achieved, times + 1, l) == achieved(running);
  }

  lemma ApplyingKeepsFormats(s: State, expired: bool, applied: bool, stopped: bool, fellBack: bool)
    requires Life(s) && Formats(s) && s.worker.Applying?
    ensures Formats(WorkerApply(s, expired, applied, stopped, fellBack))
  {
    var next := WorkerApply(s, expired, applied, stopped, fellBack);
    if s.backend.initialized {
      ProgrammedAgain(s.achieved, s.backend.running, s.status.info);
    }
    assert next == s.(backend := next.backend, worker := next.worker);
  }

  lemma WorkerApplyKeepsFormats(s: State, expired: bool, applied: bool, stopped: bool, fellBack: bool)
    requires Life(s) && Formats(s) && Attempting(s.worker)
    ensures Formats(WorkerApply(s, expired, applied, stopped, fellBack))
  {
    if s.worker.Applying? {
      ApplyingKeepsFormats(s, expired, applied, stopped, fellBack);
    } else {
      QuietKeepsFormats(s, WorkerApply(s, expired, applied, stopped, fellBack));
    }
  }

  lemma AppliedKeepsFormats(s: State)
    requires Ownership(s) && Errors(s) && Formats(s) && s.worker == FinishingApply(NoError)
    ensures Formats(WorkerConclude(s))
  {
    var next, pending := WorkerConclude(s), s.status.pending;
    assert next.session == s.session && next.usb == s.usb && next.status.mailbox == s.status.mailbox;
    assert next.status.info == pending.lineCoding && next.backend == s.backend && next.asked == s.asked;
    AppliedShows(s.asked, s.outcomes, pending.generation, pending.lineCoding);
    AppliedInTurn(s, next, pending.generation);
    OnceProgrammed(s.achieved, pending.lineCoding);
  }

  lemma NotAppliedKeepsFormats(s: State)
    requires Ownership(s) && Errors(s) && Formats(s) && s.worker.FinishingApply? && !s.worker.error.NoError?
    ensures Formats(WorkerConclude(s))
  {
    NothingApplied(s.outcomes, s.status.pending.generation, Failed);
    QuietKeepsFormats(s, WorkerConclude(s));
  }

  lemma WorkerConcludeKeepsFormats(s: State)
    requires Ownership(s) && Errors(s) && Formats(s) && Concluding(s.worker)
    ensures Formats(WorkerConclude(s))
  {
    if s.worker.MarkingFailed? {
      QuietKeepsFormats(s, WorkerConclude(s));
    } else if s.worker.error.NoError? {
      AppliedKeepsFormats(s);
    } else {
      NotAppliedKeepsFormats(s);
    }
  }

  lemma WorkerRequestKeepsFormats(s: State)
    requires Ownership(s) && Errors(s) && Formats(s)
    ensures Deciding(s.worker) ==> Formats(WorkerMailbox(s))
    ensures Answering(s.worker) ==> Formats(WorkerAnswer(s))
    ensures Concluding(s.worker) ==> Formats(WorkerConclude(s))
  {
    if s.worker.Taken? {
      TakenKeepsFormats(s);
    } else if s.worker.SettingPending? {
      SettingPendingKeepsFormats(s);
    } else if Answering(s.worker) {
      WorkerAnswerKeepsFormats(s);
    } else if Concluding(s.worker) {
      WorkerConcludeKeepsFormats(s);
    }
  }

  lemma WorkerKeepsFormats(s: State, task: WorkerTask, expired: bool, applied: bool, stopped: bool, fellBack: bool,
                           outcome: StartOutcome, launch: nat)
    requires Life(s) && Ownership(s) && Errors(s) && Formats(s)
    ensures Formats(WorkerNext(s, task, expired, applied, stopped, fellBack, outcome, launch))
  {
    if s.worker.WorkerIdle? {
      WorkerBeginKeepsFormats(s, task);
    } else if Carries(s.worker) || Concluding(s.worker) {
      WorkerRequestKeepsFormats(s);
    } else if Attempting(s.worker) {
      WorkerApplyKeepsFormats(s, expired, applied, stopped, fellBack);
    } else if s.worker.Polling? {
      WorkerPollKeepsFormats(s, applied, launch);
    } else if Stopping(s.worker) {
      WorkerStopKeepsFormats(s);
    } else {
      WorkerStartKeepsFormats(s, outcome);
    }
  }

  lemma StepKeepsFormats(s: State, step: Step)
    requires Inv(s) && Formats(s)
    ensures Formats(Next(s, step))
  {
    match step
    case UsbStep(event, expired, cleared, more) => UsbKeepsFormats(s, event, expired, cleared, more);
    case WorkerStep(task, expired, applied, stopped, fellBack, outcome, launch) =>
      WorkerKeepsFormats(s, task, expired, applied, stopped, fellBack, outcome, launch);
    case DmaReceive => QuietKeepsFormats(s, DmaNext(s));
  }

  lemma {:induction false} RunKeepsFormats(s: State, steps: seq<Step>)
    requires Inv(s) && Formats(s)
    ensures Formats(Run(s, steps))
    decreases |steps|
  {
    if steps != [] {
      StepKeepsInv(s, steps[0]);
      StepKeepsFormats(s, steps[0]);
      RunKeepsFormats(Next(s, steps[0]), steps[1..]);
    }
  }

  lemma InitHasFormats(s: State)
    requires Init(s)
    ensures Formats(s)
  {
  }

  lemma ReachableHasFormats(s: State)
    requires Reachable(s)
    ensures Formats(s)
  {
    var start, steps :| Init(start) && s == Run(start, steps);
    InitHasInv(start);
    InitHasFormats(start);
    RunKeepsFormats(start, steps);
  }

  // ---- What the invariant means ----------------------------------------------------------------------------

  /**
   The published settings are those of the newest request that ended applied. Only while a matched request is between
   its two sections do they run ahead, and then they are already that request's.
   */
  lemma NewestAppliedIsShown(s: State)
    requires Reachable(s)
    ensures !s.worker.FinishingMatch? ==> Shows(s.asked, s.outcomes, s.status.info)
    ensures s.worker.FinishingMatch? ==>
      IsAsked(s.asked, s.worker.request.generation, s.status.info) && s.worker.request.generation !in s.outcomes
  {
    ReachableHasInv(s);
    ReachableHasFormats(s);
  }

  /** Nothing is asked, and generation `g` does not end applied. */
  predicate SameHistory(s: State, next: State, g: nat) {
    next.asked == s.asked && (HasApplied(next.outcomes, g) ==> HasApplied(s.outcomes, g))
  }

  /** The host asks for a format that the backend can run. */
  predicate HostAsks(s: State, step: Step) {
    step.UsbStep? && s.usb.UsbIdle? && step.event.HostSets? && Acceptable(s.supported, step.event.lineCoding)
  }

  lemma UsbIdleHistory(s: State, event: UsbEvent, g: nat)
    requires s.usb.UsbIdle? && !(event.HostSets? && Acceptable(s.supported, event.lineCoding))
    ensures SameHistory(s, UsbPoll(s), g) && SameHistory(s, UsbCallback(s, event), g)
  {
    if Sets(event) {
      assert UsbCallback(s, event) == Refused(s, UsbCallback(s, event).status.reason);
    } else {
      MoveTouches(s, event);
    }
  }

  lemma UsbStageHistory(s: State, expired: bool, g: nat)
    requires Staging(s.usb)
    ensures SameHistory(s, UsbStage(s, expired), g)
  {
    assert SameHistory(s, Stage(s, expired), g);
  }

  lemma UsbCloseHistory(s: State, cleared: bool, g: nat)
    requires Closing(s.usb)
    ensures SameHistory(s, UsbClose(s, cleared), g)
  {
    assert SameHistory(s, StopRequested(s), g);
  }

  lemma UsbResetHistory(s: State, g: nat)
    requires Resetting(s.usb)
    ensures SameHistory(s, UsbReset(s), g)
  {
    assert SameHistory(s, StopRequested(s), g);
  }

  lemma UsbAdmitHistory(s: State, g: nat)
    requires Admitting(s.usb)
    ensures SameHistory(s, UsbAdmit(s), g)
  {
  }

  lemma UsbBridgeHistory(s: State, more: bool, g: nat)
    requires Bridging(s.usb)
    ensures SameHistory(s, UsbBridge(s, more), g)
  {
  }

  lemma UsbHistory(s: State, step: Step, g: nat)
    requires step.UsbStep? && !HostAsks(s, step)
    ensures SameHistory(s, Next(s, step), g)
  {
    if s.usb.UsbIdle? {
      UsbIdleHistory(s, step.event, g);
    } else if Staging(s.usb) {
      UsbStageHistory(s, step.expired, g);
    } else if Admitting(s.usb) {
      UsbAdmitHistory(s, g);
    } else if Bridging(s.usb) {
      UsbBridgeHistory(s, step.more, g);
    } else if Closing(s.usb) {
      UsbCloseHistory(s, step.cleared, g);
    } else if Resetting(s.usb) {
      UsbResetHistory(s, g);
    }
  }

  /** The worker's section answers generation `g`: as the request in hand, or as the deferred one. */
  predicate Answers(s: State, g: nat) {
    || (s.worker.FinishingStart? && g == s.worker.request.generation)
    || (s.worker.FinishingMatch? &&
        (g == s.worker.request.generation || (s.worker.prior && g == s.status.pending.generation)))
    || (s.worker.FinishingApply? && g == s.status.pending.generation)
  }

  lemma WorkerRequestHistory(s: State, g: nat)
    ensures Deciding(s.worker) ==> SameHistory(s, WorkerMailbox(s), g)
    ensures Answering(s.worker) && !Answers(s, g) ==> SameHistory(s, WorkerAnswer(s), g)
    ensures Concluding(s.worker) && !Answers(s, g) ==> SameHistory(s, WorkerConclude(s), g)
  {
  }

  lemma WorkerLifecycleHistory(s: State, outcome: StartOutcome, g: nat)
    ensures Stopping(s.worker) ==> SameHistory(s, WorkerStop(s), g)
    ensures BringingUp(s.worker) && !Answers(s, g) ==> SameHistory(s, WorkerStart(s, outcome), g)
  {
  }

  lemma WorkerBeginHistory(s: State, task: WorkerTask, g: nat)
    ensures SameHistory(s, WorkerBegin(s, task), g)
  {
  }

  lemma WorkerApplyHistory(s: State, expired: bool, applied: bool, stopped: bool, fellBack: bool, g: nat)
    ensures SameHistory(s, WorkerApply(s, expired, applied, stopped, fellBack), g)
  {
  }

  lemma WorkerPollHistory(s: State, launchAllowed: bool, completed: bool, launch: nat, g: nat)
    ensures SameHistory(s, WorkerPoll(s, launchAllowed, completed, launch), g)
  {
  }

  lemma WorkerBackendHistory(s: State, step: Step, g: nat)
    requires step.WorkerStep? && (s.worker.WorkerIdle? || Attempting(s.worker) || s.worker.Polling?)
    ensures SameHistory(s, Next(s, step), g)
  {
    if s.worker.WorkerIdle? {
      WorkerBeginHistory(s, step.task, g);
      assert Next(s, step) == WorkerBegin(s, step.task);
    } else if Attempting(s.worker) {
      WorkerApplyHistory(s, step.expired, step.applied, step.stopped, step.fellBack, g);
      assert Next(s, step) == WorkerApply(s, step.expired, step.applied, step.stopped, step.fellBack);
    } else {
      WorkerPollHistory(s, s.worker.launchAllowed, step.applied, step.launch, g);
      assert Next(s, step) == WorkerPoll(s, s.worker.launchAllowed, step.applied, step.launch);
    }
  }

  lemma WorkerHistory(s: State, step: Step, g: nat)
    requires step.WorkerStep? && !Answers(s, g)
    ensures SameHistory(s, Next(s, step), g)
  {
    if Carries(s.worker) || Concluding(s.worker) {
      WorkerRequestHistory(s, g);
    } else if Stopping(s.worker) || BringingUp(s.worker) {
      WorkerLifecycleHistory(s, step.outcome, g);
    } else {
      WorkerBackendHistory(s, step, g);
    }
  }

  /** Requests end applied in the order in which the host made them. */
  lemma AppliedInOrder(s: State, step: Step, g: nat, h: nat)
    requires Reachable(s) && HasApplied(s.outcomes, h)
    requires !HasApplied(s.outcomes, g) && HasApplied(Next(s, step).outcomes, g)
    ensures h < g
  {
    ReachableHasInv(s);
    ReachableHasFormats(s);
    if step.UsbStep? && !HostAsks(s, step) {
      UsbHistory(s, step, g);
    } else if step.WorkerStep? && !Answers(s, g) {
      WorkerHistory(s, step, g);
    }
  }

  /** A format enters the history exactly when the host's asking is marked, as the newest generation. */
  lemma AskedByTheHost(s: State, step: Step)
    ensures Next(s, step).asked ==
            if HostAsks(s, step) then s.asked[Next(s, step).status.generation := step.event.lineCoding] else s.asked
  {
    if HostAsks(s, step) {
      assert step.UsbStep? && Next(s, step) == Marked(s, step.event.lineCoding);
    } else if step.UsbStep? {
      UsbHistory(s, step, 0);
    } else if step.WorkerStep? {
      var inHand := if s.worker.FinishingStart? || s.worker.FinishingMatch? then s.worker.request.generation else 0;
      WorkerHistory(s, step, s.status.pending.generation + inHand + 1);
    }
  }

  /** A ready port with no completion in progress runs what was programmed for the published settings. */
  lemma ReadyPortRunsPublished(s: State)
    requires Reachable(s) && s.status.ready && !Concluding(s.worker)
    ensures s.backend.initialized && ProgrammedFrom(s.achieved, s.backend.running, s.status.info)
  {
    ReachableHasInv(s);
    ReachableHasFormats(s);
  }

  /** Between a successful apply and its publication, the backend runs what the deferred request asked for. */
  lemma AppliedRunsRequest(s: State)
    requires Reachable(s) && s.worker == FinishingApply(NoError)
    ensures var g := s.status.pending.generation;
      g in s.asked && s.backend.running == s.achieved(s.achieved(s.asked[g])) && g !in s.outcomes
  {
    ReachableHasInv(s);
    ReachableHasFormats(s);
  }

  lemma {:induction false} ProgrammedSettles(achieved: LineCoding -> LineCoding, times: nat, l: LineCoding)
    requires 0 < times && achieved(achieved(l)) == achieved(l)
    ensures Programmed(achieved, times, l) == achieved(l)
  {
    if times > 1 {
      ProgrammedSettles(achieved, times - 1, l);
    } else {
      assert Programmed(achieved, 0, l) == l;
    }
  }

  /**
   When programming what the published settings put on record reproduces it, that record is what the backend runs, and
   asking for the published settings again is answered without touching the backend.
   */
  lemma PublishedSettingsSettle(s: State)
    requires Reachable(s) && s.backend.initialized && !Unpublished(s.worker)
    requires s.achieved(s.achieved(s.status.info)) == s.achieved(s.status.info)
    ensures s.backend.running == s.achieved(s.status.info) && Matches(s, s.status.info)
    ensures s.worker.Taken? && s.worker.request.lineCoding == s.status.info ==>
      WorkerMailbox(s) == s.(worker := Matching(s.worker.request, s.worker.prior))
  {
    ReachableHasInv(s);
    ReachableHasFormats(s);
    var times: nat :| 0 < times && s.backend.running == Programmed(s.achieved, times, s.status.info);
    ProgrammedSettles(s.achieved, times, s.status.info);
  }

  /** A driver that records the requested format, as the PIO driver does, runs exactly the published settings. */
  lemma RecordedSettingsRun(s: State)
    requires Reachable(s) && s.backend.initialized && !Unpublished(s.worker)
    requires forall l :: s.achieved(l) == l
    ensures s.backend.running == s.status.info
    ensures forall l :: Matches(s, l) ==> l == s.status.info
  {
    PublishedSettingsSettle(s);
  }

  function Apply(applied: bool): Step {
    WorkerStep(ServePending, false, applied, false, false, NotStarted, 0)
  }

  lemma ConclusionFollows(s: State) returns (r: State)
    requires Reachable(s) && s.worker == FinishingApply(NoError) && s.status.ready
    ensures Reachable(r) && r.worker.WorkerIdle? && r.status.ready && r.backend == s.backend
    ensures r.status.info == s.status.pending.lineCoding
  {
    r := WorkerConclude(s);
    Reaches(s, Apply(false), r);
  }

  /**
   Without that condition it is not: a run ends with a ready port whose backend was programmed twice for the settings it
   publishes, since an apply programs the rate it has worked out and then records what that achieves.
   */
  lemma AppliedSettingsAreProgrammedTwice(s: State, other: LineCoding)
    requires Init(s) && Differs(s, other)
    ensures exists r :: Reachable(r) && r.status.ready && r.worker.WorkerIdle? && r.status.info == other
                        && r.backend.running == s.achieved(s.achieved(other))
  {
    var applying := ApplyIsReachable(s, other);
    var applied := WorkerApply(applying, false, true, false, false);
    Reaches(applying, Apply(true), applied);
    var r := ConclusionFollows(applied);
  }
}

/**
 From the two cores to the host: whatever run of the control plane and whatever life of the port lies behind a
 report, the host accepts it and reads back the true counts.
 */
module EndToEnd {
  import opened Words
  import opened PortStatus
  import opened ControlPlane
  import opened ControlRuns
  import opened ControlErrors
  import opened ControlSafety
  import opened HidPayloads
  import opened HidChannels
  import opened Seqlock
  import opened Sessions

  ghost predicate OnlyPioFormats(supported: LineCoding -> bool, sysHz: u32) {
    forall l :: supported(l) ==> PioSupported(l, sysHz)
  }

  /** A PIO port's backend supports what its clock dividers make of 8N1; a hardware port's is left open. */
  ghost predicate BackendFits(s: State) {
    s.pio ==> exists sysHz: u32 :: OnlyPioFormats(s.supported, sysHz)
  }

  /** The published settings are ones that a channel report can carry. */
  lemma SettingsAreReportable(s: State)
    requires Reachable(s) && BackendFits(s)
    ensures ValidLineCoding(s.status.info) && (s.pio ==> EightN1(s.status.info))
  {
    PublishedSettingsAcceptable(s);
    if s.pio {
      var sysHz: u32 :| OnlyPioFormats(s.supported, sysHz);
      assert s.supported(s.status.info);
    }
  }

  /** The reason as the history reports it. */
  function ReasonCode(reason: ErrorReason): (code: byte)
    ensures code <= 5 && (code == 0 <==> reason.NoError?) && (code == 1 <==> reason.BadBaud?)
    ensures (code == 2 <==> reason.BadFraming?) && (code == 3 <==> reason.BackendFailed?)
    ensures (code == 4 <==> reason.TimedOut?) && (code == 5 <==> reason.OtherError?)
  {
    match reason
    case NoError => 0
    case BadBaud => 1
    case BadFraming => 2
    case BackendFailed => 3
    case TimedOut => 4
    case OtherError => 5
  }

  /**
   A format that the host asks for and the backend will not take is reported at once, with the code for its framing or
   for its rate: for its framing exactly when the rate lies in the shared range and the port cannot frame bytes so.
   */
  lemma RefusalIsNamed(s: State, lineCoding: LineCoding)
    requires Reachable(s) && s.usb.UsbIdle? && !Acceptable(s.supported, lineCoding)
    ensures var next := Next(s, Usb(HostSets(lineCoding)));
      && Reachable(next) && next.status.controlError
      && ReasonCode(next.status.reason) ==
         if 50 <= lineCoding.baudRate <= 3000000 && !FramingFits(lineCoding, s.pio) then 2 else 1
  {
    Reaches(s, Usb(HostSets(lineCoding)), Next(s, Usb(HostSets(lineCoding))));
    assert Next(s, Usb(HostSets(lineCoding))) == Refused(s, LineCodingError(lineCoding, s.pio));
  }

  /** A reason that a report has shown is never followed by "none". */
  lemma ReasonIsNeverTakenBack(s: State, steps: seq<Step>)
    requires Reachable(s)
    ensures ReasonCode(s.status.reason) != 0 ==> ReasonCode(Run(s, steps).status.reason) != 0
  {
    if !s.status.reason.NoError? {
      ReasonStays(s, steps);
    }
  }

  /**
   The control plane behind a report: it was in `s` when the last capture read the reason, ran `steps` until this one
   reads it, and `more` until the report reads status and settings.
   */
  ghost predicate Controlled(channel: Channel, s: State, steps: seq<Step>, more: seq<Step>, status: Status, pio: bool,
                             history: History)
    reads channel
  {
    var told, shown := Run(s, steps), Run(Run(s, steps), more);
    && Reachable(s) && channel.control.reason == ReasonCode(s.status.reason)
    && history.reason == ReasonCode(told.status.reason)
    && BackendFits(shown) && status == shown.status && pio == shown.pio
  }

  /** The port behind a report: a moment outside any update, later than what the channel has seen. */
  ghost predicate Sampled(channel: Channel, ps: seq<Port>, i: nat, j: nat, sample: Option<PortStats>)
    reads channel
  {
    && Lives(ps) && i <= j < |ps| && Ok(ps[j]) && ps[j].rx.statsSequence % 2 == 0
    && (sample.Some? ==> sample.value == StatsOf(FieldsOf(ps[j]), ps[j].tx.ring.highWatermark))
    && channel.capacities.uartTx == ps[j].tx.Size() && channel.capacities.uartRx == ps[j].rx.Size()
    && NoLess(channel.truth, TruthOf(ps[i])) && Near(channel.truth, TruthOf(ps[j]))
  }

  /**
   The lifecycle state of a report, read against the run behind it: 4 for a failed start or a newest request that was
   rejected or failed, 3 for a ready port that still owes the host an answer, 2 for one that owes none.
   */
  ghost predicate StateMeans(state: byte, isOpen: bool, s: State) {
    var failed := s.status.initFailed || HasFailed(s.outcomes, s.status.generation);
    && (state == 0 <==> !isOpen)
    && (state == 4 <==> isOpen && failed)
    && (state == 1 <==> isOpen && !failed && !s.status.ready)
    && (state == 3 <==> isOpen && !failed && s.status.ready && Owned(s.status))
    && (state == 2 <==> isOpen && !failed && s.status.ready && !Owned(s.status))
  }

  lemma ToldStateMeans(state: byte, isOpen: bool, s: State)
    requires Reachable(s) && StateTells(state, isOpen, s.status)
    ensures StateMeans(state, isOpen, s)
  {
    ErrorReportsNewest(s);
    PendingHasAnOwner(s);
    StopBeatsStart(s);
  }

  ghost predicate CdcFits(channel: Channel, cdc: CdcStats, truth: Truth) {
    CdcSamples(cdc, truth) && cdc.txPeak <= channel.capacities.cdcTx && cdc.rxPeak <= channel.capacities.cdcRx
  }

  /** The host accepts the payload, and reads back state, settings, sequence, interval and the true counts. */
  ghost predicate ChannelReported(channel: Channel, payload: seq<byte>, status: Status, pio: bool, publication: bool,
                                  nowMs: nat)
    reads channel
  {
    && channel.lastPublicationMs <= nowMs
    && ParseChannel(payload, pio).Decoded?
    && channel.ReportTells(ParseChannel(payload, pio).value, status, publication, nowMs)
  }

  /** The host accepts the diagnostic, and reads back the whole capture. */
  ghost predicate DiagnosticReported(channel: Channel, diagnostic: seq<byte>, nowUs: nat)
    reads channel
  {
    && channel.Valid() && channel.uartSampleUs <= nowUs
    && ParseDiagnostic(diagnostic, channel.capacities).Decoded?
    && channel.DiagnosticTells(ParseDiagnostic(diagnostic, channel.capacities).value, nowUs)
  }

  /** What `Capture` and `BuildChannel` ask of their callers. */
  ghost predicate Ready(channel: Channel, sample: Option<PortStats>, history: History, status: Status, pio: bool,
                        now: Truth)
    reads channel
  {
    && NoLess(channel.truth, now) && Follows(channel.truth, now)
    && (sample.Some? ==>
      && Samples(sample.value, now) && sample.value.txHighWatermark <= channel.capacities.uartTx
      && sample.value.rxHighWatermark <= channel.capacities.uartRx)
    && history.reason <= 5 && (channel.control.reason != 0 ==> history.reason != 0)
    && ValidLineCoding(status.info) && (pio ==> EightN1(status.info))
  }

  /** All of it holds after every run of the control plane and at every moment of every life of the port. */
  lemma CaptureIsReady(channel: Channel, s: State, steps: seq<Step>, more: seq<Step>, ps: seq<Port>, i: nat, j: nat,
                       sample: Option<PortStats>, status: Status, pio: bool, history: History)
    requires Controlled(channel, s, steps, more, status, pio, history) && Sampled(channel, ps, i, j, sample)
    ensures Ready(channel, sample, history, status, pio, TruthOf(ps[j]))
  {
    LifeTakesNothingBack(ps, i, j);
    NoLessTransitive(channel.truth, TruthOf(ps[i]), TruthOf(ps[j]));
    MomentSamples(ps[j]);
    ReasonIsNeverTakenBack(s, steps);
    RunReaches(s, steps);
    RunReaches(Run(s, steps), more);
    SettingsAreReportable(Run(Run(s, steps), more));
  }

  /** One capture and both reports of a channel whose sources are ready. */
  method CaptureAndBuild(channel: Channel, payload: array<byte>, diagnostic: array<byte>, sample: Option<PortStats>,
                         cdc: CdcStats, history: History, status: Status, pio: bool, publication: bool, nowUs: nat,
                         nowMs: nat, ghost now: Truth)
    requires payload != diagnostic && payload.Length >= CHANNEL_SIZE && diagnostic.Length >= DIAGNOSTIC_SIZE
    requires channel.Valid() && channel.uartSampleUs <= nowUs && channel.lastPublicationMs <= nowMs
    requires Ready(channel, sample, history, status, pio, now) && CdcFits(channel, cdc, now)
    modifies channel, payload, diagnostic
    ensures channel.Valid() && NoLess(channel.truth, now) && (sample.Some? ==> channel.truth == now)
    ensures channel.control == history && channel.cdc == cdc
    ensures ChannelReported(channel, payload[..CHANNEL_SIZE], status, pio, publication, nowMs)
    ensures DiagnosticReported(channel, diagnostic[..DIAGNOSTIC_SIZE], nowUs)
  {
    channel.Capture(sample, cdc, history, nowUs, now);
    channel.BuildDiagnostic(diagnostic, nowUs);
    channel.BuildChannel(payload, status, publication, nowMs, pio);
  }

  /**
   One capture and both reports of a channel, after any run of the control plane and at any moment of the port's life.
   What is asked of the caller lies outside the firmware's own code: fewer than 2^32 bytes since the last capture, USB
   FIFO peaks within the FIFOs, and a clock that does not run backwards.
   */
  method Report(channel: Channel, payload: array<byte>, diagnostic: array<byte>, sample: Option<PortStats>,
                cdc: CdcStats, history: History, status: Status, pio: bool, publication: bool, nowUs: nat, nowMs: nat,
                ghost s: State, ghost steps: seq<Step>, ghost more: seq<Step>, ghost ps: seq<Port>, ghost i: nat,
                ghost j: nat)
    requires payload != diagnostic && payload.Length >= CHANNEL_SIZE && diagnostic.Length >= DIAGNOSTIC_SIZE
    requires channel.Valid() && channel.uartSampleUs <= nowUs && channel.lastPublicationMs <= nowMs
    requires Controlled(channel, s, steps, more, status, pio, history)
    requires Sampled(channel, ps, i, j, sample) && CdcFits(channel, cdc, TruthOf(ps[j]))
    modifies channel, payload, diagnostic
    ensures channel.Valid() && NoLess(channel.truth, TruthOf(ps[j]))
    ensures sample.Some? ==> channel.truth == TruthOf(ps[j])
    ensures channel.control.reason == ReasonCode(Run(s, steps).status.reason)
    ensures ChannelReported(channel, payload[..CHANNEL_SIZE], status, pio, publication, nowMs)
    ensures StateMeans(ParseChannel(payload[..CHANNEL_SIZE], pio).value.state, cdc.isOpen, Run(Run(s, steps), more))
    ensures DiagnosticReported(channel, diagnostic[..DIAGNOSTIC_SIZE], nowUs)
  {
    CaptureIsReady(channel, s, steps, more, ps, i, j, sample, status, pio, history);
    CaptureAndBuild(channel, payload, diagnostic, sample, cdc, history, status, pio, publication, nowUs, nowMs,
                    TruthOf(ps[j]));
    RunReaches(s, steps);
    RunReaches(Run(s, steps), more);
    ToldStateMeans(ParseChannel(payload[..CHANNEL_SIZE], pio).value.state, cdc.isOpen, Run(Run(s, steps), more));
  }
}

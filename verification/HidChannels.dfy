/**
 Lifetime accounting of one channel on the USB core, and the payloads built from it. Ghost fields hold the true
 unbounded counts behind the wrapping and saturating counters that a capture samples.
 */
module HidChannels {
  import opened Words
  import opened PortStatus
  import opened Seqlock
  import opened HidPayloads

  datatype Measurement = Unavailable | Current | Cached

  function Code(m: Measurement): byte {
    match m case Unavailable => 0 case Current => 1 case Cached => 2
  }

  datatype CdcStats = CdcStats(isOpen: bool, txBytes: u32, rxBytes: u32, txPeak: u16, rxPeak: u16)

  /** Latest control error; the reason, once set, is never taken back. */
  datatype History = History(reason: byte, uptimeUs: nat)

  /** The true counts at one moment: bytes moved and receive faults, from power-up. */
  datatype Truth = Truth(uartTx: nat, uartRx: nat, cdcTx: nat, cdcRx: nat, dropped: nat, errors: nat)

  /** A coherent sample of the worker's counters, as the driver's statistics call returns it. */
  predicate Samples(s: PortStats, t: Truth) {
    && s.uartTxBytes == Low32(t.uartTx) && s.uartRxBytes == Low32(t.uartRx)
    && SaturatingAdd(s.rxOverflowCount, s.rxPendingOverflowCount) == Saturated(t.dropped)
    && s.rxErrorCount == Saturated(t.errors)
  }

  predicate CdcSamples(c: CdcStats, t: Truth) {
    c.txBytes == Low32(t.cdcTx) && c.rxBytes == Low32(t.cdcRx)
  }

  /** Time order, and fewer than 2^32 bytes from one accepted sample to the next. */
  predicate Follows(t: Truth, u: Truth) {
    && t.uartTx <= u.uartTx < t.uartTx + TWO32 && t.uartRx <= u.uartRx < t.uartRx + TWO32
    && t.cdcTx <= u.cdcTx < t.cdcTx + TWO32 && t.cdcRx <= u.cdcRx < t.cdcRx + TWO32
    && t.dropped <= u.dropped && t.errors <= u.errors
  }

  /** The counts that a capture without a UART sample can advance to. */
  function CdcOnly(t: Truth, u: Truth): Truth {
    t.(cdcTx := u.cdcTx, cdcRx := u.cdcRx)
  }

  function BytesOf(t: Truth): seq<nat> {
    [t.uartTx, t.uartRx, t.cdcTx, t.cdcRx]
  }

  function FaultsOf(t: Truth): seq<nat> {
    [t.dropped, t.errors]
  }

  /** Some fault count shows more than before. */
  ghost predicate Grew(before: seq<nat>, now: seq<nat>)
    requires |before| == |now| == 2
  {
    exists k :: 0 <= k < 2 && Saturated(now[k]) != Saturated(before[k])
  }

  function PeaksFit(peaks: seq<u16>, c: Capacities): bool
    requires |peaks| == 4
  {
    Within(Capacities(peaks[0], peaks[1], peaks[2], peaks[3]), c)
  }

  /** What the lifecycle state of a report tells, from the status it was built from. */
  predicate StateTells(state: byte, isOpen: bool, status: Status) {
    var failed := status.initFailed || status.controlError;
    && (state == 0 <==> !isOpen)
    && (state == 4 <==> isOpen && failed)
    && (state == 1 <==> isOpen && !failed && !status.ready)
    && (state == 3 <==> isOpen && !failed && status.ready && status.controlPending)
    && (state == 2 <==> isOpen && !failed && status.ready && !status.controlPending)
  }

  /** Whole seconds, as far as 32 bits show them. */
  function Seconds(us: nat): u32 {
    if us / 1000000 > MAX32 then MAX32 else us / 1000000
  }

  function Latest(a: u32, b: u32): u32 {
    if b > a then b else a
  }

  class Channel {
    const capacities: Capacities
    var uart: PortStats
    var cdc: CdcStats
    var uartSampleUs: nat
    var measurement: Measurement
    var previous: seq<u32>
    var total: seq<nat>
    var rxPrevious: seq<u32>
    var rxCount: seq<u32>
    var peaks: seq<u16>
    var control: History
    var lastFaultS: u32
    var lastPublicationMs: nat
    var sequence: u16
    ghost var truth: Truth

    /** The 64-bit totals are the true byte counts. */
    ghost predicate Traffic()
      reads this
    {
      && |previous| == |total| == |peaks| == 4
      && (forall k :: 0 <= k < 4 ==> total[k] == BytesOf(truth)[k])
      && (forall k :: 0 <= k < 4 ==> previous[k] == Low32(BytesOf(truth)[k]))
    }

    /** The fault counters are the saturated true fault counts. */
    ghost predicate Faults()
      reads this
    {
      && |rxPrevious| == |rxCount| == 2
      && (forall k :: 0 <= k < 2 ==> rxPrevious[k] == Saturated(FaultsOf(truth)[k]))
      && (forall k :: 0 <= k < 2 ==> rxCount[k] == Saturated(FaultsOf(truth)[k]))
    }

    ghost predicate Valid()
      reads this
    {
      && Traffic() && Faults() && PeaksFit(peaks, capacities)
      && uart.uartTxBytes == Low32(truth.uartTx) && uart.uartRxBytes == Low32(truth.uartRx)
      && uart.txHighWatermark <= capacities.uartTx && uart.rxHighWatermark <= capacities.uartRx
      && (measurement == Unavailable ==>
        && truth.uartTx == truth.uartRx == truth.dropped == truth.errors == 0
        && uart.txHighWatermark == uart.rxHighWatermark == 0 && peaks[0] == peaks[1] == 0)
      && control.reason <= 5
      && (lastFaultS != 0 ==> rxCount[0] != 0 || rxCount[1] != 0 || control.reason != 0)
    }

    constructor (capacities: Capacities)
      ensures Valid() && truth == Truth(0, 0, 0, 0, 0, 0) && this.capacities == capacities
    {
      this.capacities := capacities;
      uart := PortStats(0, 0, 0, 0, 0, 0, 0, 0);
      cdc := CdcStats(false, 0, 0, 0, 0);
      uartSampleUs, measurement := 0, Unavailable;
      previous, total, peaks := [0, 0, 0, 0], [0, 0, 0, 0], [0, 0, 0, 0];
      rxPrevious, rxCount := [0, 0], [0, 0];
      control := History(0, 0);
      lastFaultS, lastPublicationMs, sequence := 0, 0, 0;
      truth := Truth(0, 0, 0, 0, 0, 0);
    }

    method NoteFault(observationUs: nat)
      modifies this`lastFaultS
      ensures lastFaultS == Latest(old(lastFaultS), Seconds(observationUs))
    {
      var seconds := observationUs / 1000000;
      var value := if seconds > MAX32 then MAX32 else seconds;
      if value > lastFaultS {
        lastFaultS := value;
      }
    }

    /** Account one receive fault counter: its growth, or all of it if it went down. */
    method AccountFault(k: nat, rx: u32, nowUs: nat, ghost before: nat, ghost now: nat)
      requires k < |rxPrevious| == |rxCount| && before <= now && rx == Saturated(now)
      requires rxPrevious[k] == Saturated(before) && rxCount[k] == Saturated(before)
      modifies this`rxPrevious, this`rxCount, this`lastFaultS
      ensures rxPrevious == old(rxPrevious)[k := Saturated(now)] && rxCount == old(rxCount)[k := Saturated(now)]
      ensures lastFaultS != old(lastFaultS) ==> rxCount[k] != 0
      ensures lastFaultS ==
        if Saturated(now) != Saturated(before) then Latest(old(lastFaultS), Seconds(nowUs)) else old(lastFaultS)
    {
      var delta := if rx >= rxPrevious[k] then rx - rxPrevious[k] else rx;
      rxPrevious := rxPrevious[k := rx];
      rxCount := rxCount[k := SaturatingAdd(rxCount[k], delta)];
      if delta != 0 {
        NoteFault(nowUs);
      }
    }

    /** Account one wrapping byte counter and its peak. */
    method AccountBytes(k: nat, raw: u32, peak: u16, ghost before: nat, ghost now: nat)
      requires k < |previous| == |total| == |peaks| && before <= now < before + TWO32 && raw == Low32(now)
      requires previous[k] == Low32(before) && total[k] == before
      modifies this`previous, this`total, this`peaks
      ensures previous == old(previous)[k := Low32(now)] && total == old(total)[k := now]
      ensures peaks == old(peaks)[k := if peak > old(peaks)[k] then peak else old(peaks)[k]]
    {
      DistanceExact(now, before);
      total := total[k := total[k] + Sub32(raw, previous[k])];
      previous := previous[k := raw];
      if peak > peaks[k] {
        peaks := peaks[k := peak];
      }
    }

    /** Both receive fault counters of an accepted sample. */
    method AccountFaults(rx: seq<u32>, nowUs: nat, ghost before: seq<nat>, ghost now: seq<nat>)
      requires |rx| == |before| == |now| == |rxPrevious| == |rxCount| == 2
      requires forall k :: 0 <= k < 2 ==> before[k] <= now[k] && rx[k] == Saturated(now[k])
      requires forall k :: 0 <= k < 2 ==> rxPrevious[k] == rxCount[k] == Saturated(before[k])
      modifies this`rxPrevious, this`rxCount, this`lastFaultS
      ensures |rxPrevious| == |rxCount| == 2
      ensures forall k :: 0 <= k < 2 ==> rxPrevious[k] == rxCount[k] == Saturated(now[k])
      ensures lastFaultS != old(lastFaultS) ==> rxCount[0] != 0 || rxCount[1] != 0
      ensures lastFaultS == if Grew(before, now) then Latest(old(lastFaultS), Seconds(nowUs)) else old(lastFaultS)
    {
      for counter := 0 to 2
        invariant |rxPrevious| == |rxCount| == 2
        invariant forall k :: 0 <= k < counter ==> rxPrevious[k] == rxCount[k] == Saturated(now[k])
        invariant forall k :: counter <= k < 2 ==> rxPrevious[k] == rxCount[k] == Saturated(before[k])
        invariant lastFaultS != old(lastFaultS) ==> exists k :: 0 <= k < counter && rxCount[k] != 0
        invariant lastFaultS ==
          if exists k :: 0 <= k < counter && Saturated(now[k]) != Saturated(before[k])
          then Latest(old(lastFaultS), Seconds(nowUs)) else old(lastFaultS)
      {
        AccountFault(counter, rx[counter], nowUs, before[counter], now[counter]);
      }
    }

    /** All four byte counters. */
    method AccountTraffic(raw: seq<u32>, highs: seq<u16>, ghost before: seq<nat>, ghost now: seq<nat>)
      requires |raw| == |highs| == |before| == |now| == |previous| == |total| == |peaks| == 4
      requires forall k :: 0 <= k < 4 ==> before[k] <= now[k] < before[k] + TWO32 && raw[k] == Low32(now[k])
      requires forall k :: 0 <= k < 4 ==> previous[k] == Low32(before[k]) && total[k] == before[k]
      modifies this`previous, this`total, this`peaks
      ensures |previous| == |total| == |peaks| == 4
      ensures forall k :: 0 <= k < 4 ==> previous[k] == Low32(now[k]) && total[k] == now[k]
      ensures forall k :: 0 <= k < 4 ==> peaks[k] == if highs[k] > old(peaks)[k] then highs[k] else old(peaks)[k]
    {
      for counter := 0 to 4
        invariant |previous| == |total| == |peaks| == 4
        invariant forall k :: 0 <= k < counter ==> previous[k] == Low32(now[k]) && total[k] == now[k]
        invariant forall k :: counter <= k < 4 ==> previous[k] == Low32(before[k]) && total[k] == before[k]
        invariant forall k :: 0 <= k < counter ==>
          peaks[k] == if highs[k] > old(peaks)[k] then highs[k] else old(peaks)[k]
        invariant forall k :: counter <= k < 4 ==> peaks[k] == old(peaks)[k]
      {
        AccountBytes(counter, raw[counter], highs[counter], before[counter], now[counter]);
      }
    }

    /** An accepted sample of the worker's counters. */
    method AcceptSample(candidate: PortStats, nowUs: nat, ghost now: Truth)
      requires Valid() && Follows(truth, now) && Samples(candidate, now)
      modifies this`uart, this`uartSampleUs, this`measurement, this`rxPrevious, this`rxCount, this`lastFaultS
      ensures uart == candidate && uartSampleUs == nowUs && measurement == Current
      ensures |rxPrevious| == |rxCount| == 2
      ensures forall k :: 0 <= k < 2 ==> rxPrevious[k] == rxCount[k] == Saturated(FaultsOf(now)[k])
      ensures lastFaultS != 0 ==> rxCount[0] != 0 || rxCount[1] != 0 || control.reason != 0
      ensures lastFaultS ==
        if Grew(FaultsOf(truth), FaultsOf(now)) then Latest(old(lastFaultS), Seconds(nowUs)) else old(lastFaultS)
    {
      uart := candidate;
      uartSampleUs := nowUs;
      measurement := Current;
      var rx := [SaturatingAdd(candidate.rxOverflowCount, candidate.rxPendingOverflowCount), candidate.rxErrorCount];
      AccountFaults(rx, nowUs, FaultsOf(truth), FaultsOf(now));
    }

    /** Bring the byte totals and peaks up to the counts that the sampled sources show. */
    method CountTraffic(ghost reached: Truth)
      requires Traffic() && PeaksFit(peaks, capacities)
      requires truth.uartTx <= reached.uartTx < truth.uartTx + TWO32
      requires truth.uartRx <= reached.uartRx < truth.uartRx + TWO32
      requires truth.cdcTx <= reached.cdcTx < truth.cdcTx + TWO32 && truth.cdcRx <= reached.cdcRx < truth.cdcRx + TWO32
      requires uart.uartTxBytes == Low32(reached.uartTx) && uart.uartRxBytes == Low32(reached.uartRx)
      requires CdcSamples(cdc, reached) && cdc.txPeak <= capacities.cdcTx && cdc.rxPeak <= capacities.cdcRx
      requires uart.txHighWatermark <= capacities.uartTx && uart.rxHighWatermark <= capacities.uartRx
      modifies this`previous, this`total, this`peaks, this`truth
      ensures truth == reached && Traffic() && PeaksFit(peaks, capacities)
      ensures uart.txHighWatermark == 0 && old(peaks)[0] == 0 ==> peaks[0] == 0
      ensures uart.rxHighWatermark == 0 && old(peaks)[1] == 0 ==> peaks[1] == 0
    {
      var raw := [uart.uartTxBytes, uart.uartRxBytes, cdc.txBytes, cdc.rxBytes];
      var highs := [uart.txHighWatermark, uart.rxHighWatermark, cdc.txPeak, cdc.rxPeak];
      AccountTraffic(raw, highs, BytesOf(truth), BytesOf(reached));
      truth := reached;
    }

    /** USB's own counters and the control history; the time of the latest control error is a fault time. */
    method TakeSources(cdcNow: CdcStats, history: History)
      modifies this`cdc, this`control, this`lastFaultS
      ensures cdc == cdcNow && control == history
      ensures lastFaultS ==
        if history.reason != 0 then Latest(old(lastFaultS), Seconds(history.uptimeUs)) else old(lastFaultS)
    {
      cdc := cdcNow;
      control := history;
      if control.reason != 0 {
        NoteFault(control.uptimeUs);
      }
    }

    /** One capture: an unavailable sample leaves the UART counts as they were. */
    method Capture(sample: Option<PortStats>, cdcNow: CdcStats, history: History, nowUs: nat, ghost now: Truth)
      requires Valid() && Follows(truth, now)
      requires sample.Some? ==>
        && Samples(sample.value, now) && sample.value.txHighWatermark <= capacities.uartTx
        && sample.value.rxHighWatermark <= capacities.uartRx
      requires CdcSamples(cdcNow, now) && cdcNow.txPeak <= capacities.cdcTx && cdcNow.rxPeak <= capacities.cdcRx
      requires history.reason <= 5 && (control.reason != 0 ==> history.reason != 0)
      modifies this
      ensures Valid() && truth == if sample.Some? then now else CdcOnly(old(truth), now)
      ensures measurement ==
        if sample.Some? then Current else if old(measurement) == Unavailable then Unavailable else Cached
      ensures cdc == cdcNow && control == history
      ensures uartSampleUs == if sample.Some? then nowUs else old(uartSampleUs)
      ensures lastPublicationMs == old(lastPublicationMs) && sequence == old(sequence)
      // The latest fault: the sample that shows one, or the latest control error.
      ensures lastFaultS ==
        var sampled := if sample.Some? && Grew(FaultsOf(old(truth)), FaultsOf(now))
                       then Latest(old(lastFaultS), Seconds(nowUs)) else old(lastFaultS);
        if history.reason != 0 then Latest(sampled, Seconds(history.uptimeUs)) else sampled
    {
      if sample.Some? {
        AcceptSample(sample.value, nowUs, now);
      } else if measurement != Unavailable {
        measurement := Cached;
      }
      TakeSources(cdcNow, history);
      CountTraffic(if sample.Some? then now else CdcOnly(truth, now));
    }

    /** Lifecycle state as the payload shows it. */
    function StateOf(status: Status): byte
      reads this`cdc
    {
      if !cdc.isOpen then 0
      else if status.initFailed || status.controlError then 4
      else if !status.ready then 1
      else if status.controlPending then 3
      else 2
    }

    function NextSequence(publication: bool): u16
      reads this`sequence
    {
      if publication then (if sequence == 0xFFFF then 0 else sequence + 1) else sequence
    }

    function Interval(nowMs: nat): u16
      requires lastPublicationMs <= nowMs
      reads this`lastPublicationMs
    {
      if nowMs - lastPublicationMs > 0xFFFF then 0xFFFF else nowMs - lastPublicationMs
    }

    /** What the host reads in a channel report, in the channel's own terms. */
    ghost predicate ReportTells(report: Sample, status: Status, publication: bool, nowMs: nat)
      requires lastPublicationMs <= nowMs
      reads this
    {
      && StateTells(report.state, cdc.isOpen, status) && report.cdcOpen == cdc.isOpen
      && (report.measurement == 0 <==> measurement == Unavailable)
      && (report.measurement == 1 <==> measurement == Current)
      && (report.measurement == 2 <==> measurement == Cached)
      && report.baudRate == status.info.baudRate
      && report.framing == Some(Framing(status.info.dataBits, status.info.stopBits, status.info.parity))
      // A publication is the next in the sequence, modulo 2^16; any other report repeats the last one's number.
      && (report.sequence == sequence + (if publication then 1 else 0)
          || (publication && sequence == 0xFFFF && report.sequence == 0))
      // The interval is exact, up to what 16 bits hold.
      && (report.interval < 0xFFFF ==> nowMs == lastPublicationMs + report.interval)
      && (report.interval == 0xFFFF ==> nowMs >= lastPublicationMs + 0xFFFF)
      && report.uartTx == Low32(truth.uartTx) && report.uartRx == Low32(truth.uartRx)
      && report.cdcTx == Low32(truth.cdcTx) && report.cdcRx == Low32(truth.cdcRx)
    }

    /** What the host reads in a diagnostic. */
    ghost predicate DiagnosticTells(d: Diagnostic, nowUs: nat)
      requires Valid() && uartSampleUs <= nowUs
      reads this
    {
      && (d.measurement == 0 <==> measurement == Unavailable)
      && (d.measurement == 1 <==> measurement == Current)
      && (d.measurement == 2 <==> measurement == Cached)
      // Age in tenths of a second: none for a current sample, and 255 for a long time or never.
      && (measurement == Current ==> d.age == 0)
      && (measurement == Unavailable ==> d.age == 255)
      && (measurement == Cached ==>
        && uartSampleUs + d.age * 100000 <= nowUs
        && (d.age < 255 ==> nowUs < uartSampleUs + (d.age + 1) * 100000))
      && d.reason == control.reason && d.lastFault == lastFaultS
      && d.dropped == Saturated(truth.dropped) && d.errors == Saturated(truth.errors)
      && d.peaks == Capacities(peaks[0], peaks[1], peaks[2], peaks[3])
    }

    /**
     Encode a channel report. The host accepts it and reads back the lifecycle state, the validity of the UART
     counts, the settings, the sequence, the interval and the low 32 bits of the true counts.
     */
    method BuildChannel(payload: array<byte>, status: Status, publication: bool, nowMs: nat, pio: bool)
      requires Valid() && payload.Length >= CHANNEL_SIZE && lastPublicationMs <= nowMs
      requires ValidLineCoding(status.info)
      requires pio ==> Framing(status.info.dataBits, status.info.stopBits, status.info.parity) == Framing(8, 1, 0)
      modifies payload
      ensures ParseChannel(payload[..CHANNEL_SIZE], pio) ==
        Decoded(SampleOf(StateOf(status), Code(measurement), status.info, NextSequence(publication), Interval(nowMs),
                         [Low32(truth.uartTx), Low32(truth.uartRx), Low32(truth.cdcTx), Low32(truth.cdcRx)]))
      ensures ReportTells(ParseChannel(payload[..CHANNEL_SIZE], pio).value, status, publication, nowMs)
    {
      var elapsed := nowMs - lastPublicationMs;
      WriteHeader(payload, StateOf(status), Code(measurement), status.info, NextSequence(publication),
                  if elapsed > 0xFFFF then 0xFFFF else elapsed);
      WriteTotals(payload);
      ghost var p := payload[..CHANNEL_SIZE];
      ghost var counters := [Low32(total[0]), Low32(total[1]), Low32(total[2]), Low32(total[3])];
      ChannelRoundTrip(p, StateOf(status), Code(measurement), status.info, NextSequence(publication), Interval(nowMs),
                       counters, pio);
    }

    /** An accepted publication is the new interval boundary; a refused one changes nothing. */
    method Commit(accepted: bool, nowMs: nat)
      requires Valid()
      modifies this`sequence, this`lastPublicationMs
      ensures Valid() && sequence == if accepted then old(NextSequence(true)) else old(sequence)
      ensures lastPublicationMs == if accepted then nowMs else old(lastPublicationMs)
    {
      if accepted {
        sequence := NextSequence(true);
        lastPublicationMs := nowMs;
      }
    }

    function Age(nowUs: nat): byte
      requires uartSampleUs <= nowUs
      reads this`uartSampleUs, this`measurement
    {
      var age := (nowUs - uartSampleUs) / 100000;
      if measurement == Current then 0 else if measurement == Unavailable || age > 255 then 255 else age
    }

    /** The diagnostic as it stands: saturated true fault counts, latest fault time and peaks. */
    ghost function DiagnosticNow(nowUs: nat): Diagnostic
      requires Valid() && uartSampleUs <= nowUs
      reads this
    {
      Diagnostic(Code(measurement), Age(nowUs), control.reason, Saturated(truth.dropped), Saturated(truth.errors),
                 lastFaultS, Capacities(peaks[0], peaks[1], peaks[2], peaks[3]))
    }

    lemma DiagnosticNowFits(nowUs: nat)
      requires Valid() && uartSampleUs <= nowUs
      ensures DiagnosticFits(DiagnosticNow(nowUs), capacities)
    {
    }

    /** Encode a diagnostic: the host accepts it and reads back the whole capture. */
    method BuildDiagnostic(payload: array<byte>, nowUs: nat)
      requires Valid() && payload.Length >= DIAGNOSTIC_SIZE && uartSampleUs <= nowUs
      modifies payload
      ensures ParseDiagnostic(payload[..DIAGNOSTIC_SIZE], capacities) == Decoded(DiagnosticNow(nowUs))
      ensures DiagnosticTells(ParseDiagnostic(payload[..DIAGNOSTIC_SIZE], capacities).value, nowUs)
    {
      DiagnosticNowFits(nowUs);
      WriteDiagnostic(payload, Age(nowUs), DiagnosticNow(nowUs));
    }

    method WriteDiagnostic(payload: array<byte>, age: byte, ghost d: Diagnostic)
      requires payload.Length >= DIAGNOSTIC_SIZE && |rxCount| == 2 && |peaks| == 4
      requires d == Diagnostic(Code(measurement), age, control.reason, rxCount[0], rxCount[1], lastFaultS,
                               Capacities(peaks[0], peaks[1], peaks[2], peaks[3]))
      requires DiagnosticFits(d, capacities)
      modifies payload
      ensures ParseDiagnostic(payload[..DIAGNOSTIC_SIZE], capacities) == Decoded(d)
    {
      WriteHistory(payload, age);
      WritePeaks(payload);
      DiagnosticRoundTrip(payload[..DIAGNOSTIC_SIZE], d, capacities);
    }

    method WriteHistory(payload: array<byte>, age: byte)
      requires payload.Length >= DIAGNOSTIC_SIZE && |rxCount| == 2
      modifies payload
      ensures HistoryLayout(payload[..16], Code(measurement), age, control.reason, rxCount[0], rxCount[1], lastFaultS)
    {
      payload[0] := 1;
      payload[1] := Code(measurement);
      payload[2] := age;
      payload[3] := control.reason;
      WriteU32(payload, 4, rxCount[0]);
      WriteU32(payload, 8, rxCount[1]);
      WriteU32(payload, 12, lastFaultS);
    }

    method WritePeaks(payload: array<byte>)
      requires payload.Length >= DIAGNOSTIC_SIZE && |peaks| == 4
      modifies payload
      ensures forall k :: 0 <= k < 4 ==> HalfAt(payload, 16 + 2 * k, peaks[k])
      ensures payload[..16] == old(payload[..16])
    {
      for peak := 0 to 4
        invariant forall k :: 0 <= k < peak ==> HalfAt(payload, 16 + 2 * k, peaks[k])
        invariant payload[..16] == old(payload[..16])
      {
        WriteU16(payload, 16 + 2 * peak, peaks[peak]);
      }
    }

    /** The low words of the four 64-bit totals. */
    method WriteTotals(payload: array<byte>)
      requires payload.Length >= CHANNEL_SIZE && |total| == 4
      modifies payload
      ensures forall k :: 0 <= k < 4 ==> WordAt(payload, 14 + 4 * k, Low32(total[k]))
      ensures payload[..14] == old(payload[..14])
    {
      for counter := 0 to 4
        invariant forall k :: 0 <= k < counter ==> WordAt(payload, 14 + 4 * k, Low32(total[k]))
        invariant payload[..14] == old(payload[..14])
      {
        WriteU32(payload, 14 + 4 * counter, Low32(total[counter]));
      }
    }
  }

  method WriteHeader(payload: array<byte>, state: byte, measurement: byte, info: LineCoding, sequence: u16,
                     interval: u16)
    requires payload.Length >= CHANNEL_SIZE
    modifies payload
    ensures HeaderLayout(payload[..14], state, measurement, info, sequence, interval)
  {
    payload[0] := 1;
    payload[1] := state;
    payload[2] := measurement;
    WriteU32(payload, 3, info.baudRate);
    payload[7] := if info.baudRate != 0 then info.dataBits else 0;
    payload[8] := if info.baudRate != 0 then info.stopBits else 0;
    payload[9] := if info.baudRate != 0 then info.parity else 0;
    WriteU16(payload, 10, sequence);
    WriteU16(payload, 12, interval);
  }

  predicate HalfAt(payload: array<byte>, at: nat, value: u16)
    requires at + 2 <= payload.Length
    reads payload
  {
    Word16(payload[at], payload[at + 1]) == value
  }

  predicate WordAt(payload: array<byte>, at: nat, value: u32)
    requires at + 4 <= payload.Length
    reads payload
  {
    Word32(payload[at], payload[at + 1], payload[at + 2], payload[at + 3]) == value
  }

  method WriteU16(payload: array<byte>, at: nat, value: u16)
    requires at + 2 <= payload.Length
    modifies payload
    ensures HalfAt(payload, at, value)
    ensures forall i :: 0 <= i < payload.Length && !(at <= i < at + 2) ==> payload[i] == old(payload[i])
  {
    payload[at] := ByteOf(value, 0);
    payload[at + 1] := ByteOf(value, 1);
    ReadsBack16(value);
  }

  method WriteU32(payload: array<byte>, at: nat, value: u32)
    requires at + 4 <= payload.Length
    modifies payload
    ensures WordAt(payload, at, value)
    ensures forall i :: 0 <= i < payload.Length && !(at <= i < at + 4) ==> payload[i] == old(payload[i])
  {
    for k := 0 to 4
      invariant forall j :: 0 <= j < k ==> payload[at + j] == ByteOf(value, j)
      invariant forall i :: 0 <= i < payload.Length && !(at <= i < at + 4) ==> payload[i] == old(payload[i])
    {
      payload[at + k] := ByteOf(value, k);
    }
    assert payload[at + 0] == ByteOf(value, 0) && payload[at + 1] == ByteOf(value, 1);
    assert payload[at + 2] == ByteOf(value, 2) && payload[at + 3] == ByteOf(value, 3);
    ReadsBack32(value);
  }
}

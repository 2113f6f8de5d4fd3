/** The channel and diagnostic HID payloads: what the firmware writes and what the host's decoder makes of it. */
module HidPayloads {
  import opened Words
  import opened PortStatus

  datatype Parsed<+T> = Decoded(value: T) | RuntimeError

  // ---- The host's decoders ---------------------------------------------------------------------------------

  const CHANNEL_SIZE := 30
  const DIAGNOSTIC_SIZE := 24

  datatype Framing = Framing(dataBits: byte, stopBits: byte, parity: byte)

  datatype Sample = Sample(
    state: byte,
    measurement: byte,
    cdcOpen: bool,
    baudRate: u32,
    framing: Option<Framing>,
    sequence: u16,
    interval: u16,
    uartTx: u32,
    uartRx: u32,
    cdcTx: u32,
    cdcRx: u32)

  /** `pio` says that the identity report lists the channel as a PIO one. */
  function ParseChannel(p: seq<byte>, pio: bool): Parsed<Sample> {
    if |p| != CHANNEL_SIZE || p[0] != 1 then RuntimeError else
      var state, measurement, baud := p[1], p[2], U32(p, 3);
      var framing := Framing(p[7], p[8], p[9]);
      if state >= 5 || measurement > 2 then RuntimeError
      else if baud != 0 && (!(50 <= baud <= 3000000) || !(5 <= framing.dataBits <= 8)
                            || framing.stopBits !in {1, 2} || framing.parity > 2) then RuntimeError
      else if baud == 0 && framing != Framing(0, 0, 0) then RuntimeError
      else if baud != 0 && pio && framing != Framing(8, 1, 0) then RuntimeError
      else if measurement == 0 && (U32(p, 14) != 0 || U32(p, 18) != 0) then RuntimeError
      else
        Decoded(Sample(state, measurement, state != 0, baud, if baud != 0 then Some(framing) else None,
                       U16(p, 10), U16(p, 12), U32(p, 14), U32(p, 18), U32(p, 22), U32(p, 26)))
  }

  datatype Capacities = Capacities(uartTx: u16, uartRx: u16, cdcTx: u16, cdcRx: u16)

  datatype Diagnostic = Diagnostic(
    measurement: byte,
    age: byte,
    reason: byte,
    dropped: u32,
    errors: u32,
    lastFault: u32,
    peaks: Capacities)

  function ParseDiagnostic(p: seq<byte>, capacities: Capacities): Parsed<Diagnostic> {
    if |p| != DIAGNOSTIC_SIZE || p[0] != 1 then RuntimeError else
      var measurement, age, reason := p[1], p[2], p[3];
      var dropped, errors, timestamp := U32(p, 4), U32(p, 8), U32(p, 12);
      var peaks := Capacities(U16(p, 16), U16(p, 18), U16(p, 20), U16(p, 22));
      if measurement > 2 || reason > 5 || (measurement == 1 && age != 0) then RuntimeError
      else if measurement == 0 && (age != 255 || dropped != 0 || errors != 0 || peaks.uartTx != 0 || peaks.uartRx != 0)
      then RuntimeError
      else if dropped == 0 && errors == 0 && reason == 0 && timestamp != 0 then RuntimeError
      else if !Within(peaks, capacities) then RuntimeError
      else Decoded(Diagnostic(measurement, age, reason, dropped, errors, timestamp, peaks))
  }

  predicate Within(peaks: Capacities, capacities: Capacities) {
    && peaks.uartTx <= capacities.uartTx && peaks.uartRx <= capacities.uartRx
    && peaks.cdcTx <= capacities.cdcTx && peaks.cdcRx <= capacities.cdcRx
  }

  // ---- The firmware's layouts ------------------------------------------------------------------------------

  /** A channel payload, byte by byte: settings are zeros while the port has no rate. */
  predicate ChannelLayout(p: seq<byte>, state: byte, measurement: byte, info: LineCoding, sequence: u16,
                          interval: u16, counters: seq<u32>)
    requires |counters| == 4
  {
    && |p| == CHANNEL_SIZE && HeaderLayout(p, state, measurement, info, sequence, interval)
    && U32(p, 14) == counters[0] && U32(p, 18) == counters[1]
    && U32(p, 22) == counters[2] && U32(p, 26) == counters[3]
  }

  /** Everything before the counters. */
  predicate HeaderLayout(p: seq<byte>, state: byte, measurement: byte, info: LineCoding, sequence: u16, interval: u16)
    requires |p| >= 14
  {
    && p[0] == 1 && p[1] == state && p[2] == measurement && U32(p, 3) == info.baudRate
    && p[7] == (if info.baudRate != 0 then info.dataBits else 0)
    && p[8] == (if info.baudRate != 0 then info.stopBits else 0)
    && p[9] == (if info.baudRate != 0 then info.parity else 0)
    && U16(p, 10) == sequence && U16(p, 12) == interval
  }

  predicate DiagnosticLayout(p: seq<byte>, d: Diagnostic) {
    && |p| == DIAGNOSTIC_SIZE && HistoryLayout(p, d.measurement, d.age, d.reason, d.dropped, d.errors, d.lastFault)
    && U16(p, 16) == d.peaks.uartTx && U16(p, 18) == d.peaks.uartRx
    && U16(p, 20) == d.peaks.cdcTx && U16(p, 22) == d.peaks.cdcRx
  }

  /** Everything before the peaks. */
  predicate HistoryLayout(p: seq<byte>, measurement: byte, age: byte, reason: byte, dropped: u32, errors: u32,
                          lastFault: u32)
    requires |p| >= 16
  {
    && p[0] == 1 && p[1] == measurement && p[2] == age && p[3] == reason
    && U32(p, 4) == dropped && U32(p, 8) == errors && U32(p, 12) == lastFault
  }

  /** The sample a channel payload stands for. */
  function SampleOf(state: byte, measurement: byte, info: LineCoding, sequence: u16, interval: u16,
                    counters: seq<u32>): Sample
    requires |counters| == 4
  {
    Sample(state, measurement, state != 0, info.baudRate,
           if info.baudRate != 0 then Some(Framing(info.dataBits, info.stopBits, info.parity)) else None,
           sequence, interval, counters[0], counters[1], counters[2], counters[3])
  }

  /** What a channel must satisfy for the host to accept its payload. */
  predicate ChannelFits(state: byte, measurement: byte, info: LineCoding, pio: bool, counters: seq<u32>)
    requires |counters| == 4
  {
    && state < 5 && measurement <= 2
    && (info.baudRate != 0 ==> ValidLineCoding(info))
    && (info.baudRate != 0 && pio ==> Framing(info.dataBits, info.stopBits, info.parity) == Framing(8, 1, 0))
    && (measurement == 0 ==> counters[0] == 0 && counters[1] == 0)
  }

  /** The host accepts a channel payload exactly when its fields fit, and reads back every field. */
  lemma ChannelRoundTrip(p: seq<byte>, state: byte, measurement: byte, info: LineCoding, sequence: u16,
                         interval: u16, counters: seq<u32>, pio: bool)
    requires |counters| == 4 && ChannelLayout(p, state, measurement, info, sequence, interval, counters)
    ensures ParseChannel(p, pio) ==
      if ChannelFits(state, measurement, info, pio, counters)
      then Decoded(SampleOf(state, measurement, info, sequence, interval, counters)) else RuntimeError
  {
  }

  /** What a diagnostic must satisfy for the host to accept it. */
  predicate DiagnosticFits(d: Diagnostic, capacities: Capacities) {
    && d.measurement <= 2 && d.reason <= 5 && (d.measurement == 1 ==> d.age == 0)
    && (d.measurement == 0 ==>
      d.age == 255 && d.dropped == 0 && d.errors == 0 && d.peaks.uartTx == 0 && d.peaks.uartRx == 0)
    && (d.lastFault != 0 ==> d.dropped != 0 || d.errors != 0 || d.reason != 0)
    && Within(d.peaks, capacities)
  }

  /** The host accepts a diagnostic exactly when it fits, and reads back every field. */
  lemma DiagnosticRoundTrip(p: seq<byte>, d: Diagnostic, capacities: Capacities)
    requires DiagnosticLayout(p, d)
    ensures ParseDiagnostic(p, capacities) == if DiagnosticFits(d, capacities) then Decoded(d) else RuntimeError
  {
  }
}

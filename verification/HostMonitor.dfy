/**
 The host's reconstruction of traffic rates from the input reports of one channel, for one device session. Reports
 arrive in any pattern: dropped, repeated or out of order.
 */
module HostMonitor {
  import opened Words
  import opened HidPayloads

  /** What the device published: true byte counts at the capture, and when. Index 0 is the start of the session. */
  datatype Report = Report(at: nat, bytes: seq<nat>, measurement: byte)

  /** Report `n` follows the one before it, with fewer than 2^32 bytes of each kind in between. */
  ghost predicate Adjacent(device: seq<Report>, n: nat)
    requires 0 < n < |device|
  {
    && |device[n - 1].bytes| == |device[n].bytes| == 4
    && device[n - 1].at <= device[n].at
    && (forall k :: 0 <= k < 4 ==>
      device[n - 1].bytes[k] <= device[n].bytes[k] < device[n - 1].bytes[k] + TWO32)
  }

  ghost predicate Session(device: seq<Report>) {
    forall n :: 0 < n < |device| ==> Adjacent(device, n)
  }

  /** Bytes of kind `k` between report `n` and the one before it. */
  ghost function Moved(device: seq<Report>, n: nat, k: nat): nat
    requires 0 < n < |device| && Adjacent(device, n) && k < 4
  {
    device[n].bytes[k] - device[n - 1].bytes[k]
  }

  function Low16(n: nat): u16 {
    if n <= 0xFFFF then n else Low16(n - 0x1_0000)
  }

  function Sub16(a: u16, b: u16): u16 {
    if b <= a then a - b else a - b + 0x1_0000
  }

  /** The interval field saturates. */
  function IntervalOf(device: seq<Report>, n: nat): u16
    requires 0 < n < |device| && device[n - 1].at <= device[n].at
  {
    var elapsed := device[n].at - device[n - 1].at;
    if elapsed > 0xFFFF then 0xFFFF else elapsed
  }

  function CountersOf(s: Sample): seq<u32> {
    [s.uartTx, s.uartRx, s.cdcTx, s.cdcRx]
  }

  /** The decoded sample of the device's report `n`. */
  ghost predicate SampleOfReport(s: Sample, device: seq<Report>, n: nat) {
    && Session(device) && 0 < n < |device| && Adjacent(device, n)
    && s.sequence == Low16(n) && s.interval == IntervalOf(device, n) && s.measurement == device[n].measurement
    && (forall k :: 0 <= k < 4 ==> CountersOf(s)[k] == Low32(device[n].bytes[k]))
  }

  lemma {:induction false} Low16Step(n: nat, m: nat)
    requires m <= n
    ensures Sub16(Low16(n), Low16(m)) == Low16(n - m)
    decreases n
  {
    if n > 0xFFFF {
      if m > 0xFFFF {
        Low16Step(n - 0x1_0000, m - 0x1_0000);
      } else if n - m > 0xFFFF {
        Low16Step(n - 0x1_0000, m);
      }
    }
  }

  lemma Opposite(a: u16, b: u16)
    ensures Sub16(a, b) == if Sub16(b, a) == 0 then 0 else 0x1_0000 - Sub16(b, a)
  {
  }

  /** Fewer than 65535 reports apart, a sequence step of one is the next report. */
  lemma StepOfOne(n: nat, m: nat)
    requires n < m + 0xFFFF && m < n + 0xFFFF
    ensures Sub16(Low16(n), Low16(m)) == 1 <==> n == m + 1
    ensures Sub16(Low16(n), Low16(m)) == 0 <==> n == m
  {
    if m <= n {
      Low16Step(n, m);
    } else {
      Low16Step(m, n);
      Opposite(Low16(n), Low16(m));
    }
  }

  /** Time covered by a set of clean reports, each with the interval back to its predecessor. */
  ghost function Covered(device: seq<Report>, clean: seq<nat>): nat
    requires Session(device) && forall i :: 0 <= i < |clean| ==> 0 < clean[i] < |device|
  {
    if clean == [] then 0 else
      var last := clean[|clean| - 1];
      assert Adjacent(device, last);
      Covered(device, clean[..|clean| - 1]) + (device[last].at - device[last - 1].at)
  }

  /** The reports after `first` up to and including `last`. */
  ghost function Consecutive(first: nat, last: nat): seq<nat> {
    if last <= first then [] else Consecutive(first, last - 1) + [last]
  }

  /** Every rate shown is the true count between a report and the one before it. */
  ghost predicate RatesTrue(traffic: seq<Option<u32>>, device: seq<Report>, n: nat)
    requires 0 < n < |device| && Adjacent(device, n)
  {
    |traffic| == 4 && forall k :: 0 <= k < 4 && traffic[k].Some? ==> traffic[k].value == Moved(device, n, k)
  }

  /** A clean step shows every rate, the UART ones only between two current measurements. */
  predicate ShownFor(traffic: seq<Option<u32>>, stepIsClean: bool, now: byte, before: byte) {
    |traffic| == 4 && forall k :: 0 <= k < 4 ==>
      (traffic[k].Some? <==> stepIsClean && (!IsUart(k) || (now == 1 && before == 1)))
  }

  /** An interval that says nothing: none at all, or one too long to count. */
  predicate Unusable(interval: u16) {
    interval == 0 || interval == 0xFFFF
  }

  /** Covering every report covers the whole time. */
  lemma {:induction false} CoveredWhole(device: seq<Report>, first: nat, last: nat)
    requires Session(device) && first <= last < |device|
    ensures forall i :: 0 <= i < |Consecutive(first, last)| ==> 0 < Consecutive(first, last)[i] < |device|
    ensures Covered(device, Consecutive(first, last)) == device[last].at - device[first].at
  {
    if first < last {
      CoveredWhole(device, first, last - 1);
      var c := Consecutive(first, last);
      assert c[..|c| - 1] == Consecutive(first, last - 1);
      assert Adjacent(device, last);
    }
  }

  /** Which kinds count UART bytes, and so need a current measurement at both ends. */
  predicate IsUart(k: nat) {
    k < 2
  }

  function Rate(k: nat, value: u32, previous: u32, stepIsClean: bool, now: byte, before: byte): Option<u32> {
    if stepIsClean && (!IsUart(k) || (now == 1 && before == 1)) then Some(Sub32(value, previous)) else None
  }

  lemma RatesExact(device: seq<Report>, before: Sample, after: Sample, n: nat)
    requires 0 < n - 1 && SampleOfReport(before, device, n - 1) && SampleOfReport(after, device, n)
    ensures forall k :: 0 <= k < 4 ==>
      Sub32(CountersOf(after)[k], CountersOf(before)[k]) == Moved(device, n, k)
  {
    forall k | 0 <= k < 4
      ensures Sub32(CountersOf(after)[k], CountersOf(before)[k]) == Moved(device, n, k)
    {
      DistanceExact(device[n].bytes[k], device[n - 1].bytes[k]);
    }
  }

  lemma CoveredMore(device: seq<Report>, clean: seq<nat>, n: nat)
    requires Session(device) && 0 < n < |device|
    requires forall i :: 0 <= i < |clean| ==> 0 < clean[i] < |device|
    ensures Adjacent(device, n)
    ensures Covered(device, clean + [n]) == Covered(device, clean) + (device[n].at - device[n - 1].at)
  {
    assert (clean + [n])[..|clean|] == clean;
  }

  /** What a report is to the baseline. */
  datatype Kind = First | TooLate | Repeated | Behind | Next | Ahead

  /** The farthest that a report may be ahead of the baseline and still count as newer. */
  const HALF := 0x8000

  /** The report is newer, as far as half the sequence space can tell. */
  predicate Newer(n: nat, current: nat) {
    current < n <= current + HALF || n + (HALF - 1) < current
  }

  /** Within the window the wrapped step is above the half exactly for a report that does not pass as newer. */
  lemma StepAboveHalf(n: nat, current: nat)
    requires n < current + 0xFFFF && current < n + 0xFFFF && n != current
    ensures Sub16(Low16(n), Low16(current)) > HALF <==> !Newer(n, current)
  {
    if n > current {
      Low16Step(n, current);
    } else {
      Low16Step(current, n);
    }
  }

  class Monitor {
    ghost const device: seq<Report>
    var inputSeen: bool
    var lastInputAt: real
    var ignoredGap: bool
    var lastCounters: seq<u32>
    var latest: Sample
    var traffic: seq<Option<u32>>
    var totals: seq<u32>
    var trafficIncomplete: bool
    var trafficGaps: nat
    var observedIntervalMs: nat
    ghost var first: nat
    ghost var current: nat
    ghost var clean: seq<nat>

    /** Everything but the rates on show. */
    ghost predicate Books()
      reads this
    {
      && Session(device) && |traffic| == |lastCounters| == |totals| == 4
      && (forall i :: 0 <= i < |clean| ==> 0 < clean[i] < |device|)
      && observedIntervalMs == Covered(device, clean)
      && (inputSeen ==> SampleOfReport(latest, device, current) && lastCounters == totals == CountersOf(latest))
      && (!inputSeen ==> !trafficIncomplete && clean == [])
      && (inputSeen && !trafficIncomplete ==>
        first <= current && clean == Consecutive(first, current))
    }

    ghost predicate Valid()
      reads this
    {
      && Books()
      // Every rate shown is the true count between two reports that follow each other.
      && (if inputSeen then RatesTrue(traffic, device, current) else traffic == [None, None, None, None])
    }

    constructor (ghost device: seq<Report>)
      requires Session(device)
      ensures Valid() && this.device == device && !inputSeen
    {
      this.device := device;
      inputSeen, lastInputAt, ignoredGap := false, 0.0, false;
      lastCounters, totals := [0, 0, 0, 0], [0, 0, 0, 0];
      latest := Sample(0, 0, false, 0, None, 0, 0, 0, 0, 0, 0);
      traffic := [None, None, None, None];
      trafficIncomplete, trafficGaps, observedIntervalMs := false, 0, 0;
      first, current, clean := 0, 0, [];
    }

    /** While nothing is marked incomplete, the observed time is the device's own time since the first report. */
    lemma CompleteMeansWhole()
      requires Valid() && inputSeen && !trafficIncomplete
      ensures first <= current < |device| && observedIntervalMs == device[current].at - device[first].at
    {
      CoveredWhole(device, first, current);
    }

    function Stale(now: real): bool
      reads this
    {
      inputSeen && now - lastInputAt > 3.0
    }

    /** The rate fields of a report: shown only across a clean step, and UART ones only between current samples. */
    method Rates(sample: Sample, stepIsClean: bool, previousMeasurement: byte) returns (rates: seq<Option<u32>>)
      requires |lastCounters| == 4
      ensures |rates| == 4
      ensures forall k :: 0 <= k < 4 ==>
        rates[k] == Rate(k, CountersOf(sample)[k], lastCounters[k], stepIsClean, sample.measurement,
                         previousMeasurement)
    {
      rates := [];
      for k := 0 to 4
        invariant |rates| == k
        invariant forall j :: 0 <= j < k ==>
          rates[j] == Rate(j, CountersOf(sample)[j], lastCounters[j], stepIsClean, sample.measurement,
                           previousMeasurement)
      {
        rates := rates + [Rate(k, CountersOf(sample)[k], lastCounters[k], stepIsClean, sample.measurement,
                               previousMeasurement)];
      }
    }

    /** What report number `n` is, from its true number and its time of arrival. */
    ghost function KindOf(n: nat, now: real): Kind
      reads this
    {
      if !inputSeen then First
      else if now > lastInputAt + 3.0 then TooLate
      else if n == current then Repeated
      else if n == current + 1 then Next
      else if Newer(n, current) then Ahead
      else Behind
    }

    /**
     One input report. Within a staleness window the device publishes fewer than 65535 reports, so the wrapped
     sequence identifies them.
     */
    method ApplyInput(sample: Sample, now: real, ghost n: nat) returns (applied: bool)
      requires Valid() && SampleOfReport(sample, device, n)
      requires inputSeen && !Stale(now) ==> n < current + 0xFFFF && current < n + 0xFFFF
      modifies this
      ensures Valid()
      ensures old(trafficIncomplete) ==> trafficIncomplete
      ensures applied ==> inputSeen && current == n && latest == sample && lastInputAt == now
      ensures !applied ==>
        && inputSeen && current == old(current) && latest == old(latest) && lastInputAt == old(lastInputAt)
        && traffic == old(traffic) && clean == old(clean)
      // By true numbers: a report on time is applied exactly if it is newer; after a gap it is the new baseline.
      ensures old(inputSeen) && now - old(lastInputAt) <= 3.0 ==> (applied <==> Newer(n, old(current)))
      ensures old(inputSeen) && now - old(lastInputAt) <= 3.0 && old(current) + 1 < n <= old(current) + 0x8000 ==>
        applied && trafficIncomplete && trafficGaps == old(trafficGaps) + 1 && traffic == [None, None, None, None]
      ensures old(inputSeen) && now - old(lastInputAt) <= 3.0 && n < old(current) <= n + 0x7FFF ==>
        !applied && trafficIncomplete && trafficGaps == old(trafficGaps) + (if old(ignoredGap) then 0 else 1)
      // The first report and one more than three seconds after the last only set the baseline.
      ensures !old(inputSeen) || now - old(lastInputAt) > 3.0 ==>
        applied && traffic == [None, None, None, None] && clean == old(clean)
      // The next report on time shows every rate its measurements allow.
      ensures old(inputSeen) && !old(Stale(now)) && n == old(current) + 1 ==> applied
      ensures old(inputSeen) && !old(Stale(now)) && n == old(current) + 1 && 0 < sample.interval < 0xFFFF ==>
        && clean == old(clean) + [n] && trafficIncomplete == old(trafficIncomplete)
        && (forall k :: 0 <= k < 4 ==>
          (traffic[k].Some? <==> !IsUart(k) || (sample.measurement == 1 && old(latest).measurement == 1)))
      // What the report was: too late, behind the baseline, ahead of a gap, or with an unusable interval.
      ensures var kind := old(KindOf(n, now));
        && (trafficGaps == old(trafficGaps) +
            if kind.Ahead? || (!old(ignoredGap) && (kind.TooLate? || kind.Behind?)) then 1 else 0)
        && ignoredGap == (kind.Behind? || (kind.Repeated? && old(ignoredGap)))
        && (trafficIncomplete <==>
          (old(trafficIncomplete) || kind.TooLate? || kind.Behind? || kind.Ahead?
           || (applied && (sample.interval == 0 || sample.interval == 0xFFFF))))
      // A repeated report changes nothing.
      ensures old(inputSeen) && !old(Stale(now)) && n == old(current) ==>
        !applied && trafficIncomplete == old(trafficIncomplete) && trafficGaps == old(trafficGaps)
    {
      var isFirst := !inputSeen;
      var delta := Sub16(sample.sequence, latest.sequence);
      if inputSeen && !Stale(now) {
        StepOfOne(n, current);
        if n != current {
          StepAboveHalf(n, current);
        }
      }
      if Stale(now) {
        trafficIncomplete := true;
        if !ignoredGap {
          trafficGaps := trafficGaps + 1;
        }
        isFirst := true;
      } else if !isFirst && delta == 0 {
        return false;
      } else if !isFirst && delta > 0x8000 {
        trafficIncomplete := true;
        if !ignoredGap {
          trafficGaps := trafficGaps + 1;
          ignoredGap := true;
        }
        return false;
      }
      Accept(sample, now, isFirst, !isFirst && delta != 1, n);
      return true;
    }

    /** The baseline moves to an accepted report; a clean step shows its rates. */
    method Accept(sample: Sample, now: real, isFirst: bool, gap: bool, ghost n: nat)
      requires SampleOfReport(sample, device, n) && Books() && !(isFirst && gap)
      requires (!inputSeen ==> isFirst) && (!isFirst && !gap ==> n == current + 1)
      requires inputSeen && isFirst ==> trafficIncomplete
      modifies this`trafficIncomplete, this`trafficGaps, this`traffic, this`observedIntervalMs, this`clean, this`first,
        this`latest, this`inputSeen, this`totals, this`lastCounters, this`lastInputAt, this`ignoredGap, this`current
      ensures Valid() && inputSeen && current == n && latest == sample && lastInputAt == now
      ensures trafficIncomplete == (old(trafficIncomplete) || gap || Unusable(sample.interval))
      ensures trafficGaps == old(trafficGaps) + (if gap then 1 else 0) && !ignoredGap
      ensures clean == if !isFirst && !gap && !Unusable(sample.interval) then old(clean) + [n] else old(clean)
      ensures ShownFor(traffic, !isFirst && !gap && !Unusable(sample.interval), sample.measurement,
                       old(latest).measurement)
    {
      var invalidInterval := Unusable(sample.interval);
      Note(gap, invalidInterval);
      var stepIsClean := !isFirst && !gap && !invalidInterval;
      MoveTo(sample, now, stepIsClean, n);
    }

    method Note(gap: bool, invalidInterval: bool)
      modifies this`trafficIncomplete, this`trafficGaps
      ensures trafficIncomplete == (old(trafficIncomplete) || gap || invalidInterval)
      ensures trafficGaps == old(trafficGaps) + (if gap then 1 else 0)
    {
      if gap || invalidInterval {
        trafficIncomplete := true;
      }
      if gap {
        trafficGaps := trafficGaps + 1;
      }
    }

    /** The rates on show and the covered time, after a step that may be clean. */
    method Advance(sample: Sample, stepIsClean: bool, ghost n: nat)
      requires SampleOfReport(sample, device, n) && |lastCounters| == 4
      requires forall i :: 0 <= i < |clean| ==> 0 < clean[i] < |device|
      requires observedIntervalMs == Covered(device, clean)
      requires stepIsClean ==>
        inputSeen && n == current + 1 && SampleOfReport(latest, device, current) && lastCounters == CountersOf(latest)
        && !Unusable(sample.interval)
      requires inputSeen && !trafficIncomplete ==>
        stepIsClean && first <= current && clean == Consecutive(first, current)
      requires !inputSeen ==> clean == [] && !stepIsClean
      modifies this`traffic, this`observedIntervalMs, this`clean, this`first
      ensures clean == if stepIsClean then old(clean) + [n] else old(clean)
      ensures forall i :: 0 <= i < |clean| ==> 0 < clean[i] < |device|
      ensures observedIntervalMs == Covered(device, clean)
      ensures !trafficIncomplete ==> first <= n && clean == Consecutive(first, n)
      ensures RatesTrue(traffic, device, n) && ShownFor(traffic, stepIsClean, sample.measurement, latest.measurement)
    {
      Show(sample, stepIsClean, n);
      ghost var seen, start, before := inputSeen, first, clean;
      Cover(sample.interval, stepIsClean, n);
      assert !trafficIncomplete ==> first <= n && clean == Consecutive(first, n) by {
        if !trafficIncomplete && seen {
          assert stepIsClean && before == Consecutive(start, n - 1);
        }
      }
    }

    /** The rates on show and the covered time, and then the baseline itself. */
    method MoveTo(sample: Sample, now: real, stepIsClean: bool, ghost n: nat)
      requires SampleOfReport(sample, device, n) && |lastCounters| == 4
      requires forall i :: 0 <= i < |clean| ==> 0 < clean[i] < |device|
      requires observedIntervalMs == Covered(device, clean)
      requires stepIsClean ==>
        inputSeen && n == current + 1 && SampleOfReport(latest, device, current) && lastCounters == CountersOf(latest)
        && !Unusable(sample.interval)
      requires inputSeen && !trafficIncomplete ==>
        stepIsClean && first <= current && clean == Consecutive(first, current)
      requires !inputSeen ==> clean == [] && !stepIsClean
      modifies this`traffic, this`observedIntervalMs, this`clean, this`first, this`latest, this`inputSeen,
        this`totals, this`lastCounters, this`lastInputAt, this`ignoredGap, this`current
      ensures Valid() && inputSeen && current == n && latest == sample && lastInputAt == now && !ignoredGap
      ensures clean == if stepIsClean then old(clean) + [n] else old(clean)
      ensures ShownFor(traffic, stepIsClean, sample.measurement, old(latest).measurement)
    {
      Advance(sample, stepIsClean, n);
      Settle(sample, now, n);
    }

    /** The report becomes the baseline for the next one. */
    method Settle(sample: Sample, now: real, ghost n: nat)
      requires SampleOfReport(sample, device, n) && RatesTrue(traffic, device, n)
      requires forall i :: 0 <= i < |clean| ==> 0 < clean[i] < |device|
      requires observedIntervalMs == Covered(device, clean)
      requires !trafficIncomplete ==> first <= n && clean == Consecutive(first, n)
      modifies this`latest, this`inputSeen, this`totals, this`lastCounters, this`lastInputAt, this`ignoredGap,
        this`current
      ensures Valid() && inputSeen && current == n && latest == sample && lastInputAt == now && !ignoredGap
    {
      latest := sample;
      inputSeen := true;
      totals := CountersOf(sample);
      lastCounters := CountersOf(sample);
      lastInputAt := now;
      ignoredGap := false;
      current := n;
    }

    /** New rates, each the true count since the report before. */
    method Show(sample: Sample, stepIsClean: bool, ghost n: nat)
      requires |lastCounters| == 4 && SampleOfReport(sample, device, n)
      requires stepIsClean ==>
        n == current + 1 && SampleOfReport(latest, device, current) && lastCounters == CountersOf(latest)
      modifies this`traffic
      ensures RatesTrue(traffic, device, n) && ShownFor(traffic, stepIsClean, sample.measurement, latest.measurement)
    {
      if stepIsClean {
        RatesExact(device, latest, sample, n);
      }
      traffic := Rates(sample, stepIsClean, latest.measurement);
    }

    /** Interval accounting; the history gains the clean step, or starts at a first report. */
    method Cover(interval: u16, stepIsClean: bool, ghost n: nat)
      requires Session(device) && 0 < n < |device| && Adjacent(device, n)
      requires forall i :: 0 <= i < |clean| ==> 0 < clean[i] < |device|
      requires observedIntervalMs == Covered(device, clean)
      requires stepIsClean ==> inputSeen && interval == device[n].at - device[n - 1].at
      modifies this`observedIntervalMs, this`clean, this`first
      ensures clean == if stepIsClean then old(clean) + [n] else old(clean)
      ensures forall i :: 0 <= i < |clean| ==> 0 < clean[i] < |device|
      ensures observedIntervalMs == Covered(device, clean)
      ensures first == if inputSeen then old(first) else n
    {
      if stepIsClean {
        CoveredMore(device, clean, n);
        observedIntervalMs := observedIntervalMs + interval;
        clean := clean + [n];
      }
      if !inputSeen {
        first := n;
      }
    }
  }
}

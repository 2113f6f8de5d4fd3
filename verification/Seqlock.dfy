/**
 Coherent port statistics: the worker brackets its updates with an odd/even sequence, the USB core reads the
 fields one load at a time and accepts them only if the sequence stood still.
 */
module Seqlock {
  import opened Words

  /**
   Fields the worker writes, at any moment inside an update. A restart is such an update: it binds the rings on the
   first start, recovers the receive ring and clears its consumer. Between updates `rxConsumer` and
   `rxOverflowCount` belong to the reading core (`StatsPort.Consume`).
   */
  datatype WorkerFields = WorkerFields(
    ringsBound: bool,
    rxSize: u32,
    txOverflowCount: u32,
    rxHighWatermark: u32,
    rxOverflowCount: u32,
    rxProducer: u32,
    rxConsumer: u32,
    txPolledBytes: u32,
    txDmaBytes: u32,
    uartRxBytes: u32,
    rxErrorCount: u32)

  datatype PortStats = PortStats(
    uartTxBytes: u32,
    uartRxBytes: u32,
    txHighWatermark: u32,
    rxHighWatermark: u32,
    txOverflowCount: u32,
    rxOverflowCount: u32,
    rxPendingOverflowCount: u32,
    rxErrorCount: u32)

  /** `stable[k]` is what the worker's fields held while the sequence was `2 * k`. */
  datatype Env = Env(sequence: nat, fields: WorkerFields, stable: seq<WorkerFields>)

  datatype EnvStep = BeginUpdate | Write(fields: WorkerFields) | EndUpdate

  predicate Enabled(e: Env, step: EnvStep) {
    match step
    case BeginUpdate => e.sequence % 2 == 0
    case Write(_) => e.sequence % 2 == 1
    case EndUpdate => e.sequence % 2 == 1
  }

  function Apply(e: Env, step: EnvStep): Env {
    match step
    case BeginUpdate => e.(sequence := e.sequence + 1)
    case Write(fields) => e.(fields := fields)
    case EndUpdate => e.(sequence := e.sequence + 1, stable := e.stable + [e.fields])
  }

  ghost predicate Inv(e: Env) {
    && |e.stable| == e.sequence / 2 + 1
    && (e.sequence % 2 == 0 ==> e.fields == e.stable[e.sequence / 2])
  }

  ghost predicate Rely(e: Env, f: Env) {
    && e.sequence <= f.sequence && e.stable <= f.stable
    && (e.sequence == f.sequence && e.sequence % 2 == 0 ==> f.fields == e.fields)
  }

  lemma StepKeeps(e: Env, step: EnvStep)
    requires Inv(e) && Enabled(e, step)
    ensures Inv(Apply(e, step)) && Rely(e, Apply(e, step))
  {
  }

  /** The statistics of one single state of the worker's fields. */
  function StatsOf(w: WorkerFields, txHighWatermark: u32): PortStats {
    var distance := Sub32(w.rxProducer, w.rxConsumer);
    PortStats(Add32(w.txPolledBytes, w.txDmaBytes), w.uartRxBytes, txHighWatermark, w.rxHighWatermark,
              w.txOverflowCount, w.rxOverflowCount, if distance > w.rxSize then Sub32(distance, w.rxSize) else 0,
              w.rxErrorCount)
  }

  const ATTEMPTS: nat := 3

  /** One look of the reader: the sequence before and after the loads, and a state in between. */
  datatype Look = Look(first: nat, at: Env, second: nat)

  /** The look fell into an update, or an update fell into it. */
  predicate Disturbed(l: Look) {
    l.first % 2 == 1 || l.second != l.first
  }

  /** The look happened between `e` and `f`. */
  ghost predicate LookedBetween(e: Env, l: Look, f: Env) {
    Rely(e, l.at) && Rely(l.at, f) && e.sequence <= l.first <= l.at.sequence <= l.second <= f.sequence
  }

  lemma RelyTransitive(e: Env, f: Env, g: Env)
    requires Rely(e, f) && Rely(f, g)
    ensures Rely(e, g)
  {
  }

  class StatsPort {
    var e: Env
    /** The one field that only the reading core ever writes. */
    var txHighWatermark: u32

    method Interfere()
      requires Inv(e)
      modifies this`e
      ensures Inv(e) && Rely(old(e), e)
    {
      var steps: nat := *;
      while steps > 0
        invariant Inv(e) && Rely(old(e), e)
      {
        var step: EnvStep := *;
        if Enabled(e, step) {
          StepKeeps(e, step);
          e := Apply(e, step);
        }
        steps := steps - 1;
      }
    }

    /** Between two samples the reading core drains: it moves the consumer and counts what it skips. */
    method Consume(consumer: u32, overflowCount: u32)
      requires Inv(e)
      modifies this`e
      ensures Inv(e) && e.sequence == old(e).sequence
      ensures e.fields == old(e).fields.(rxConsumer := consumer, rxOverflowCount := overflowCount)
      ensures forall k :: 0 <= k < |old(e).stable| - 1 ==> e.stable[k] == old(e).stable[k]
    {
      var fields := e.fields.(rxConsumer := consumer, rxOverflowCount := overflowCount);
      e := e.(fields := fields,
              stable := if e.sequence % 2 == 0 then e.stable[e.sequence / 2 := fields] else e.stable);
    }

    /** Overflow that the consumer has still to count: producer, consumer, and the size looked at twice. */
    method PendingOverflow() returns (pending: u32)
      requires Inv(e)
      modifies this`e
      ensures Inv(e) && Rely(old(e), e)
      ensures e.sequence == old(e).sequence && e.sequence % 2 == 0 ==>
        pending == StatsOf(e.fields, txHighWatermark).rxPendingOverflowCount
    {
      Interfere();
      var producer := e.fields.rxProducer;
      Interfere();
      var consumer := e.fields.rxConsumer;
      var available := Sub32(producer, consumer);
      Interfere();
      if available <= e.fields.rxSize {
        return 0;
      }
      Interfere();
      pending := Sub32(available, e.fields.rxSize);
    }

    /** The backend's own counters. */
    method BackendStats() returns (txBytes: u32, rxBytes: u32, rxErrors: u32)
      requires Inv(e)
      modifies this`e
      ensures Inv(e) && Rely(old(e), e)
      ensures e.sequence == old(e).sequence && e.sequence % 2 == 0 ==>
        && txBytes == Add32(e.fields.txPolledBytes, e.fields.txDmaBytes)
        && rxBytes == e.fields.uartRxBytes && rxErrors == e.fields.rxErrorCount
    {
      Interfere();
      var txPolled := e.fields.txPolledBytes;
      Interfere();
      txBytes := Add32(txPolled, e.fields.txDmaBytes);
      Interfere();
      rxBytes := e.fields.uartRxBytes;
      Interfere();
      rxErrors := e.fields.rxErrorCount;
    }

    /** The field loads of one attempt, in source order, anything happening between any two of them. */
    method Collect() returns (candidate: PortStats)
      requires Inv(e)
      modifies this`e
      ensures Inv(e) && Rely(old(e), e)
      ensures e.sequence == old(e).sequence && e.sequence % 2 == 0 ==> candidate == StatsOf(e.fields, txHighWatermark)
    {
      Interfere();
      var rxHighWatermark := e.fields.rxHighWatermark;
      Interfere();
      var txOverflow := e.fields.txOverflowCount;
      Interfere();
      var rxOverflow := e.fields.rxOverflowCount;
      var pending := PendingOverflow();
      var txBytes, rxBytes, rxErrors := BackendStats();
      candidate := PortStats(txBytes, rxBytes, txHighWatermark, rxHighWatermark, txOverflow, rxOverflow, pending,
                             rxErrors);
      Interfere();
    }

    /**
     Success returns the statistics of one stable worker state, no older than the call and with its rings bound;
     failure leaves the caller's output alone, and means unbound rings or that every look was disturbed.
     */
    method PortStatistics(stats: PortStats) returns (ok: bool, result: PortStats, ghost looks: seq<Look>)
      requires Inv(e)
      modifies this`e
      ensures Inv(e) && Rely(old(e), e)
      ensures !ok ==> result == stats
      ensures ok ==> exists k :: |old(e).stable| - 1 <= k < |e.stable| && e.stable[k].ringsBound
                                 && result == StatsOf(e.stable[k], txHighWatermark)
      ensures forall l :: l in looks ==> LookedBetween(old(e), l, e)
      ensures !ok ==> looks != [] && (!looks[|looks| - 1].at.fields.ringsBound || |looks| == ATTEMPTS)
      ensures forall k :: 0 <= k < |looks| - 1 ==> Disturbed(looks[k])
      ensures !ok && looks[|looks| - 1].at.fields.ringsBound ==> Disturbed(looks[|looks| - 1])
      // Nothing happened, so it succeeds.
      ensures e.sequence == old(e).sequence && e.sequence % 2 == 0 && e.fields.ringsBound ==> ok
    {
      looks := [];
      for attempt := 0 to ATTEMPTS
        invariant Inv(e) && Rely(old(e), e) && |looks| == attempt
        invariant forall l :: l in looks ==> LookedBetween(old(e), l, e) && Disturbed(l)
      {
        var found: Option<PortStats>, bound, look := LookOnce();
        looks := looks + [look];
        if !bound {
          return false, stats, looks;
        }
        if found.Some? {
          return true, found.value, looks;
        }
      }
      assert looks[0] in looks && Disturbed(looks[0]);
      return false, stats, looks;
    }

    /** One attempt: nothing if the sequence was odd, the rings were unbound, or the sequence moved meanwhile. */
    method LookOnce() returns (found: Option<PortStats>, bound: bool, ghost look: Look)
      requires Inv(e)
      modifies this`e
      ensures Inv(e) && Rely(old(e), e) && LookedBetween(old(e), look, e)
      ensures bound == (look.first % 2 == 1 || look.at.fields.ringsBound)
      ensures found.Some? <==> bound && !Disturbed(look)
      ensures found.Some? ==> exists k :: |old(e).stable| - 1 <= k < |e.stable| && e.stable[k].ringsBound
                                 && found.value == StatsOf(e.stable[k], txHighWatermark)
    {
      Interfere();
      var first := e.sequence;
      if first % 2 != 0 {
        return None, true, Look(first, e, first);
      }
      ghost var before := e;
      Interfere();
      RelyTransitive(old(e), before, e);
      bound := e.fields.ringsBound;
      ghost var at := e;
      if !bound {
        return None, false, Look(first, e, e.sequence);
      }
      var candidate := Collect();
      RelyTransitive(old(e), at, e);
      var second := e.sequence;
      look := Look(first, at, second);
      found := None;
      if first == second && second % 2 == 0 {
        assert candidate == StatsOf(e.stable[second / 2], txHighWatermark) && e.stable[second / 2].ringsBound;
        found := Some(candidate);
      }
    }
  }
}

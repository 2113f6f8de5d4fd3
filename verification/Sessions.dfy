/**
 One port from power-up on, across any number of sessions: what its counters show at any sample, and how two
 samples relate, restarts of the port between them or not.
 */
module Sessions {
  import opened Words
  import opened Seqlock
  import opened HidChannels
  import RxPath
  import RxDrain
  import TxPath

  /** A moment of the port. The counts before the present session are history that no code reads. */
  datatype Port = Port(
    rx: RxPath.Env,
    delivered: seq<RxDrain.Delivery>,
    lost: nat,
    lostBefore: nat,
    deliveredBefore: nat,
    tx: TxPath.Env,
    acceptedBefore: nat,
    txPolled: nat,
    errors: nat)
  {
    function UartTx(): nat {
      tx.txBefore + tx.retired
    }

    function UartRx(): nat {
      rx.rxBefore + rx.published
    }

    /** Bytes that USB has taken from the port. */
    function CdcTx(): nat {
      deliveredBefore + |delivered|
    }

    /** Bytes that USB has handed to the port. */
    function CdcRx(): nat {
      acceptedBefore + |tx.accepted|
    }

    ghost function Dropped(): nat {
      lostBefore + RxDrain.Observed(rx, lost)
    }
  }

  ghost function TruthOf(p: Port): Truth {
    Truth(p.UartTx(), p.UartRx(), p.CdcTx(), p.CdcRx(), p.Dropped(), p.errors)
  }

  /** What USB took and what was lost came in from the UART; what left at the UART came in from USB. */
  ghost predicate Conserved(p: Port) {
    p.CdcTx() + p.Dropped() <= p.UartRx() && p.UartTx() <= p.CdcRx()
  }

  ghost predicate Ok(p: Port) {
    && RxDrain.Books(p.rx, p.delivered, p.lost, p.lostBefore) && TxPath.Inv(p.tx)
    && p.txPolled <= p.UartTx() && Conserved(p)
  }

  /** The worker's fields, as the firmware keeps them. */
  function FieldsOf(p: Port): WorkerFields
    requires p.rx.Size() < TWO32 && p.txPolled <= p.UartTx()
  {
    WorkerFields(true, p.rx.Size(), p.tx.ring.overflowCount, p.rx.ring.highWatermark, p.rx.ring.overflowCount,
                 p.rx.ring.producer, p.rx.ring.consumer, Low32(p.txPolled), Low32(p.UartTx() - p.txPolled),
                 p.rx.rxBytes, Saturated(p.errors))
  }

  lemma {:induction false} LowSum(a: nat, b: nat)
    ensures Add32(Low32(a), Low32(b)) == Low32(a + b)
    decreases b
  {
    if b <= MAX32 {
      SumFollows(a, b);
    } else {
      LowSum(a, b - TWO32);
    }
  }

  /** Outside an update, the statistics of a moment are a sample of its true counts, with peaks that fit the rings. */
  lemma MomentSamples(p: Port)
    requires Ok(p) && p.rx.statsSequence % 2 == 0
    ensures var stats := StatsOf(FieldsOf(p), p.tx.ring.highWatermark);
      Samples(stats, TruthOf(p)) && stats.txHighWatermark <= p.tx.Size() && stats.rxHighWatermark <= p.rx.Size()
  {
    LowSum(p.txPolled, p.UartTx() - p.txPolled);
    RxDrain.SampleShowsLoss(p.rx, p.delivered, p.lost, p.lostBefore);
  }

  // ---- Within a session, and across a restart --------------------------------------------------------------

  /** The session goes on: DMA, worker, bridge passes and receive errors. */
  ghost predicate Onward(p: Port, q: Port) {
    && RxDrain.Later(p.rx, q.rx) && TxPath.Later(p.tx, q.tx)
    && p.delivered <= q.delivered && RxDrain.Observed(p.rx, p.lost) <= RxDrain.Observed(q.rx, q.lost)
    && q.lostBefore == p.lostBefore && q.deliveredBefore == p.deliveredBefore && q.acceptedBefore == p.acceptedBefore
    && p.txPolled <= q.txPolled <= q.UartTx() && p.errors <= q.errors
  }

  lemma TransmitIsOnward(p: Port, q: Port)
    requires q == p.(tx := q.tx, txPolled := q.txPolled) && TxPath.Later(p.tx, q.tx)
    requires p.txPolled <= q.txPolled <= q.UartTx()
    ensures Onward(p, q)
  {
  }

  lemma ReceiveIsOnward(p: Port, q: Port)
    requires q == p.(rx := q.rx, delivered := q.delivered, lost := q.lost, errors := q.errors)
    requires RxDrain.Later(p.rx, q.rx) && p.delivered <= q.delivered && p.errors <= q.errors
    requires RxDrain.Observed(p.rx, p.lost) <= RxDrain.Observed(q.rx, q.lost) && p.txPolled <= p.UartTx()
    ensures Onward(p, q)
  {
  }

  /** The worker restarts a stopped port, inside an update. */
  ghost predicate Reopens(p: Port, q: Port, started: bool) {
    && !p.rx.initialized && p.rx.statsSequence % 2 == 1 && 0 < p.rx.Size()
    && q == Port(RxDrain.NewSession(p.rx, started), [], 0, p.Dropped(), p.CdcTx(),
                 TxPath.NewSession(p.tx), p.CdcRx(), p.txPolled, p.errors)
  }

  /** No count is taken back. */
  predicate NoLess(t: Truth, u: Truth) {
    && t.uartTx <= u.uartTx && t.uartRx <= u.uartRx && t.cdcTx <= u.cdcTx && t.cdcRx <= u.cdcRx
    && t.dropped <= u.dropped && t.errors <= u.errors
  }

  /** A restart leaves every true count where it was, and the new session starts sound. */
  lemma RestartKeepsTruth(p: Port, q: Port, started: bool)
    requires Ok(p) && Reopens(p, q, started)
    ensures Ok(q) && TruthOf(q) == TruthOf(p)
    ensures q.rx.Size() == p.rx.Size() && q.tx.Size() == p.tx.Size()
  {
    RxDrain.RestartOpensBooks(p.rx, p.delivered, p.lost, p.lostBefore, started);
    TxPath.RestartKeeps(p.tx);
  }

  /** Within a session delivered bytes and lost bytes never exceed the published ones. */
  lemma SessionConserves(p: Port, q: Port)
    requires Ok(p) && Onward(p, q) && TxPath.Inv(q.tx)
    requires RxDrain.Books(q.rx, q.delivered, q.lost, q.lostBefore)
    requires p.deliveredBefore + p.lostBefore <= p.rx.rxBefore && p.tx.txBefore <= p.acceptedBefore
    ensures Ok(q) && NoLess(TruthOf(p), TruthOf(q))
  {
  }

  /** One move in the life of a port. */
  ghost predicate Moves(p: Port, q: Port) {
    || (Onward(p, q) && TxPath.Inv(q.tx) && RxDrain.Books(q.rx, q.delivered, q.lost, q.lostBefore))
    || (exists started :: Reopens(p, q, started))
  }

  /** What earlier sessions took and lost also came in during them. */
  ghost predicate Carried(p: Port) {
    p.deliveredBefore + p.lostBefore <= p.rx.rxBefore && p.tx.txBefore <= p.acceptedBefore
  }

  lemma MoveKeeps(p: Port, q: Port)
    requires Ok(p) && Carried(p) && Moves(p, q)
    ensures Ok(q) && Carried(q) && NoLess(TruthOf(p), TruthOf(q))
    ensures q.rx.Size() == p.rx.Size() && q.tx.Size() == p.tx.Size()
  {
    if Onward(p, q) && TxPath.Inv(q.tx) && RxDrain.Books(q.rx, q.delivered, q.lost, q.lostBefore) {
      SessionConserves(p, q);
    } else {
      var started :| Reopens(p, q, started);
      RestartKeepsTruth(p, q, started);
    }
  }

  /** A life of the port: its moments in order, from a sound one on. */
  ghost predicate Lives(ps: seq<Port>) {
    && ps != [] && Ok(ps[0]) && Carried(ps[0])
    && forall i :: 0 < i < |ps| ==> Moves(ps[i - 1], ps[i])
  }

  /** At every moment of every life the books balance. */
  lemma {:induction false} LifeIsSound(ps: seq<Port>, i: nat)
    requires Lives(ps) && i < |ps|
    ensures Ok(ps[i]) && Carried(ps[i])
    decreases i
  {
    if i > 0 {
      LifeIsSound(ps, i - 1);
      MoveKeeps(ps[i - 1], ps[i]);
    }
  }

  /** Polled bytes are among the transmitted ones. */
  lemma PolledFits(ps: seq<Port>)
    requires Lives(ps)
    ensures var now := ps[|ps| - 1]; now.txPolled <= now.UartTx()
  {
    LifeIsSound(ps, |ps| - 1);
  }

  lemma NoLessTransitive(t: Truth, u: Truth, v: Truth)
    requires NoLess(t, u) && NoLess(u, v)
    ensures NoLess(t, v)
  {
  }

  /** No later moment shows less than an earlier one, restarts between them or not. */
  lemma {:induction false} LifeTakesNothingBack(ps: seq<Port>, i: nat, j: nat)
    requires Lives(ps) && i <= j < |ps|
    ensures NoLess(TruthOf(ps[i]), TruthOf(ps[j]))
    decreases j
  {
    if i < j {
      LifeTakesNothingBack(ps, i, j - 1);
      LifeIsSound(ps, j - 1);
      MoveKeeps(ps[j - 1], ps[j]);
      NoLessTransitive(TruthOf(ps[i]), TruthOf(ps[j - 1]), TruthOf(ps[j]));
    }
  }

  /** Each byte count grows by less than 2^32 between two moments. */
  predicate Near(t: Truth, u: Truth) {
    && u.uartTx < t.uartTx + TWO32 && u.uartRx < t.uartRx + TWO32
    && u.cdcTx < t.cdcTx + TWO32 && u.cdcRx < t.cdcRx + TWO32
  }

  /**
   Two samples of one life, in one session or in different ones: each shows the true lifetime counts of its moment,
   and the later follows the earlier.
   */
  lemma SamplesFollow(ps: seq<Port>, i: nat, j: nat)
    requires Lives(ps) && i <= j < |ps|
    requires ps[i].rx.statsSequence % 2 == 0 && ps[j].rx.statsSequence % 2 == 0
    requires Near(TruthOf(ps[i]), TruthOf(ps[j]))
    ensures Ok(ps[i]) && Samples(StatsOf(FieldsOf(ps[i]), ps[i].tx.ring.highWatermark), TruthOf(ps[i]))
    ensures Ok(ps[j]) && Samples(StatsOf(FieldsOf(ps[j]), ps[j].tx.ring.highWatermark), TruthOf(ps[j]))
    ensures Follows(TruthOf(ps[i]), TruthOf(ps[j]))
  {
    LifeIsSound(ps, i);
    LifeIsSound(ps, j);
    LifeTakesNothingBack(ps, i, j);
    MomentSamples(ps[i]);
    MomentSamples(ps[j]);
  }

  // ---- The running port ------------------------------------------------------------------------------------

  /** The two directions of one port; `life` records a moment after every pass, and every restart. */
  class LivePort {
    const rx: RxDrain.RxPort
    const tx: TxPath.TxPort
    var txPolled: nat
    var errors: nat
    ghost var deliveredBefore: nat
    ghost var acceptedBefore: nat
    ghost var life: seq<Port>

    ghost function Now(): Port
      reads this, rx, tx
    {
      Port(rx.e, rx.delivered, rx.lost, rx.lostBefore, deliveredBefore, tx.e, acceptedBefore, txPolled, errors)
    }

    ghost predicate Valid()
      reads this, rx, tx
    {
      rx.Valid() && tx.Valid() && Lives(life) && life[|life| - 1] == Now()
    }

    /** A port at power-up: no session before this one. */
    constructor (rx: RxDrain.RxPort, tx: TxPath.TxPort)
      requires rx.Valid() && tx.Valid()
      requires rx.e.rxBefore == rx.lostBefore == tx.e.txBefore == 0
      ensures Valid() && this.rx == rx && this.tx == tx && life == [Now()]
    {
      this.rx, this.tx := rx, tx;
      txPolled, errors := 0, 0;
      deliveredBefore, acceptedBefore := 0, 0;
      life := [Port(rx.e, rx.delivered, rx.lost, rx.lostBefore, 0, tx.e, 0, 0, 0)];
    }

    /** The moment just reached joins the life. */
    ghost method Record(before: Port)
      requires rx.Valid() && tx.Valid() && Lives(life) && life[|life| - 1] == before && Moves(before, Now())
      modifies this`life
      ensures Valid() && life == old(life) + [Now()]
    {
      life := life + [Now()];
    }

    /** DMA and worker on the receive side, with `noted` receive errors. */
    method Receive(noted: nat)
      requires Valid()
      modifies this`errors, this`life, rx
      ensures Valid() && old(life) <= life
    {
      ghost var before := Now();
      PolledFits(life);
      rx.Interfere();
      RxDrain.BooksLater(before.rx, rx.e, rx.delivered, rx.lost, rx.lostBefore);
      RxDrain.ObservedLater(before.rx, rx.e, rx.lost);
      errors := errors + noted;
      ReceiveIsOnward(before, Now());
      Record(before);
    }

    /** Worker and wire on the transmit side, with at most `polled` of the bytes retired by polling. */
    method Transmit(polled: nat)
      requires Valid()
      modifies this`txPolled, this`life, tx
      ensures Valid() && old(life) <= life
    {
      ghost var before := Now();
      PolledFits(life);
      tx.Interfere();
      if txPolled + polled <= tx.e.txBefore + tx.e.retired {
        txPolled := txPolled + polled;
      }
      TransmitIsOnward(before, Now());
      Record(before);
    }

    /** One bridge pass towards USB. */
    method Drain(writable: nat, snapshotCapacity: nat) returns (written: nat)
      requires Valid()
      modifies this`life, rx
      ensures Valid() && old(life) <= life && Now().CdcTx() == old(Now()).CdcTx() + written
    {
      ghost var before := Now();
      PolledFits(life);
      written := rx.BridgePass(writable, snapshotCapacity);
      ReceiveIsOnward(before, Now());
      Record(before);
    }

    /** One bridge pass towards the UART, with `waiting` bytes held by USB. */
    method Fill(waiting: nat) returns (read: nat)
      requires Valid()
      modifies this`life, tx
      ensures Valid() && old(life) <= life && Now().CdcRx() == old(Now()).CdcRx() + read
    {
      ghost var before := Now();
      PolledFits(life);
      read := 0;
      if waiting > 0 {
        read := tx.FillTx(waiting, 0);
      }
      TransmitIsOnward(before, Now());
      Record(before);
    }

    /** The worker restarts the stopped port. */
    method Restart(started: bool)
      requires Valid() && !rx.e.initialized && rx.e.statsSequence % 2 == 1
      modifies this`deliveredBefore, this`acceptedBefore, this`life, rx, tx
      ensures Valid() && old(life) <= life && rx.delivered == [] && tx.handed == []
      ensures TruthOf(Now()) == old(TruthOf(Now()))
    {
      ghost var before := Now();
      LifeIsSound(life, |life| - 1);
      deliveredBefore, acceptedBefore := before.CdcTx(), before.CdcRx();
      rx.Restart(started);
      tx.Restart();
      assert Reopens(before, Now(), started);
      RestartKeepsTruth(before, Now(), started);
      Record(before);
    }
  }
}

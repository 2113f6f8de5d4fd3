/**
 The USB core's receive drain, in the source's own loop, under interference from the worker and the DMA
 engine before every load of shared memory.
 */
module RxDrain {
  import opened Words
  import opened RingBuffers
  import opened RxPath

  /** One byte handed to the USB writer, with the stream position it was read for. */
  datatype Delivery = Delivery(position: nat, value: byte)

  /** Every delivered byte is the received byte of its own position, and positions strictly increase. */
  ghost predicate Faithful(received: seq<byte>, delivered: seq<Delivery>, consumed: nat) {
    && (forall k :: 0 <= k < |delivered| ==>
      && delivered[k].position < consumed && delivered[k].position < |received|
      && delivered[k].value == received[delivered[k].position])
    && (forall j, k :: 0 <= j < k < |delivered| ==> delivered[j].position < delivered[k].position)
  }

  /** Bytes consumed are bytes delivered plus bytes counted as overflow; the counter saturates. */
  ghost predicate Accounted(e: Env, delivered: seq<Delivery>, lost: nat, lostBefore: nat) {
    && e.consumed == |delivered| + lost
    && e.ring.overflowCount == Saturated(lostBefore + lost)
  }

  /** The state between two steps of the draining core. */
  ghost predicate Books(e: Env, delivered: seq<Delivery>, lost: nat, lostBefore: nat) {
    Inv(e) && Faithful(e.received, delivered, e.consumed) && Accounted(e, delivered, lost, lostBefore)
  }

  lemma BooksLater(e: Env, f: Env, delivered: seq<Delivery>, lost: nat, lostBefore: nat)
    requires Books(e, delivered, lost, lostBefore) && Rely(e, f) && Inv(f)
    ensures Books(f, delivered, lost, lostBefore)
  {
    FaithfulLater(e.received, f.received, delivered, e.consumed, f.consumed);
  }

  lemma FaithfulLater(received: seq<byte>, received': seq<byte>, delivered: seq<Delivery>, consumed: nat,
                      consumed': nat)
    requires Faithful(received, delivered, consumed) && received <= received' && consumed <= consumed'
    ensures Faithful(received', delivered, consumed')
  {
    assert forall i :: 0 <= i < |received| ==> received'[i] == received[i];
  }

  /** The deliveries of a validated snapshot that starts at the consumer. */
  ghost function DeliveriesFrom(consumed: nat, data: seq<byte>): (d: seq<Delivery>)
    ensures |d| == |data|
  {
    seq(|data|, k requires 0 <= k < |data| => Delivery(consumed + k, data[k]))
  }

  /** What USB took, byte for byte, is what the deliveries say. */
  ghost predicate Mirrors(taken: seq<byte>, delivered: seq<Delivery>) {
    |taken| == |delivered| && forall k :: 0 <= k < |taken| ==> taken[k] == delivered[k].value
  }

  lemma MirrorsMore(taken: seq<byte>, delivered: seq<Delivery>, consumed: nat, data: seq<byte>)
    requires Mirrors(taken, delivered)
    ensures Mirrors(taken + data, delivered + DeliveriesFrom(consumed, data))
  {
  }

  /** From index `from` on, USB took received bytes, from strictly increasing positions of the stream. */
  ghost predicate TakenInOrder(received: seq<byte>, taken: seq<byte>, delivered: seq<Delivery>, from: nat) {
    && |taken| == |delivered|
    && (forall k :: from <= k < |taken| ==>
      delivered[k].position < |received| && taken[k] == received[delivered[k].position])
    && (forall j, k :: from <= j < k < |taken| ==> delivered[j].position < delivered[k].position)
  }

  lemma OrderTaken(received: seq<byte>, taken: seq<byte>, delivered: seq<Delivery>, consumed: nat, from: nat)
    requires Faithful(received, delivered, consumed) && Mirrors(taken, delivered)
    ensures TakenInOrder(received, taken, delivered, from)
  {
  }

  lemma FaithfulExtended(received: seq<byte>, delivered: seq<Delivery>, consumed: nat, data: seq<byte>)
    requires Faithful(received, delivered, consumed)
    requires consumed + |data| <= |received| && data == received[consumed..consumed + |data|]
    ensures Faithful(received, delivered + DeliveriesFrom(consumed, data), consumed + |data|)
  {
  }

  /** The consumer may move forward anywhere within the published bytes. */
  lemma ConsumerMoves(e: Env, ring: Ring, consumed: nat)
    requires Inv(e) && e.consumed <= consumed <= e.published
    requires ring.storage == e.ring.storage && ring.producer == e.ring.producer
    requires ring.highWatermark == e.ring.highWatermark && ring.consumer == Low32(consumed)
    ensures Inv(e.(ring := ring, consumed := consumed))
  {
  }

  /** Positions a recovery must skip: those the producer has lapped. */
  function Lapped(size: nat, consumed: nat, seen: nat): nat {
    if seen > consumed + size then seen - consumed - size else 0
  }

  /** The loss a statistics sample shows: what is counted plus what the published bytes have already lapped. */
  ghost function Observed(e: Env, lost: nat): nat {
    lost + Lapped(e.Size(), e.consumed, e.published)
  }

  /** A sample shows the saturated true loss. */
  lemma SampleShowsLoss(e: Env, delivered: seq<Delivery>, lost: nat, lostBefore: nat)
    requires Books(e, delivered, lost, lostBefore)
    ensures SaturatingAdd(e.ring.overflowCount, PendingOverflow(e.Size(), e.ring.producer, e.ring.consumer)) ==
            Saturated(lostBefore + Observed(e, lost))
  {
    RecoverExact(e.ring, e.consumed, e.published, Lapped(e.Size(), e.consumed, e.published));
    SaturatedSum(lostBefore + lost, Lapped(e.Size(), e.consumed, e.published));
  }

  /** The books at the end of a full drain, read for a test that sent `|e.received|` bytes: a corollary of `Books`. */
  lemma DrainedAccounting(e: Env, delivered: seq<Delivery>, lost: nat, lostBefore: nat)
    requires Books(e, delivered, lost, lostBefore) && e.consumed == |e.received|
    ensures |delivered| + Observed(e, lost) == |e.received|
    ensures e.ring.overflowCount == Saturated(lostBefore + |e.received| - |delivered|)
    ensures Faithful(e.received, delivered, |e.received|)
  {
  }

  /** While only worker and DMA run, the loss that a sample shows never goes down. */
  lemma ObservedLater(e: Env, f: Env, lost: nat)
    requires Rely(e, f)
    ensures Observed(e, lost) <= Observed(f, lost)
  {
  }

  /** A later moment of the same session: the streams have only grown. */
  ghost predicate Later(e: Env, f: Env) {
    && f.Size() == e.Size() && f.max == e.max && f.rxBefore == e.rxBefore
    && e.received <= f.received && e.published <= f.published && e.sampled <= f.sampled
    && e.statsSequence <= f.statsSequence
    && (e.statsSequence == f.statsSequence && e.statsSequence % 2 == 0 ==>
      f.published == e.published && f.initialized == e.initialized)
  }

  /** From `e` to `f` nothing has arrived and no update has begun: the environment stood still for the draining core. */
  ghost predicate Standing(e: Env, f: Env) {
    && e.statsSequence % 2 == 0 && f.statsSequence == e.statsSequence && e.initialized
    && |f.received| == |e.received|
  }

  /** Bytes that have arrived, published or not, have lapped the consumer. */
  ghost predicate Overrun(e: Env) {
    |e.received| > e.consumed + e.Size()
  }

  lemma LaterTransitive(e: Env, f: Env, g: Env)
    requires Later(e, f) && Later(f, g)
    ensures Later(e, g)
  {
  }

  /** The worker brings a stopped port up again: recovery, cleared ring, fresh countdown at the first slot. */
  function NewSession(e: Env, started: bool): Env
    requires 0 < e.Size()
  {
    var ring := RecoverAt(e.ring, e.ring.producer).(producer := 0, consumer := 0,
        producerReservedSequence := 0, producerReservedCount := 0,
        consumerReservedSequence := 0, consumerReservedCount := 0);
    e.(ring := ring, lastProgress := 0, initialized := started,
       channel := if started then Running else Released,
       writeIndex := 0, remaining := e.max, irqPending := false, countdowns := [],
       // history
       received := [], published := 0, sampled := 0, armed := 0, consumed := 0, rxBefore := e.rxBefore + e.sampled)
  }

  /** The session that a restart opens, with everything the last one lost, lapped bytes included, carried over. */
  lemma RestartOpensBooks(e: Env, delivered: seq<Delivery>, lost: nat, lostBefore: nat, started: bool)
    requires Books(e, delivered, lost, lostBefore) && !e.initialized && e.statsSequence % 2 == 1
    ensures var next := NewSession(e, started);
      && Books(next, [], 0, lostBefore + Observed(e, lost)) && Observed(next, 0) == 0
      && next.rxBytes == e.rxBytes && next.ring.highWatermark == e.ring.highWatermark
      && next.rxBefore + next.published == e.rxBefore + e.published
  {
    var lapped := Lapped(e.Size(), e.consumed, e.published);
    RecoverExact(e.ring, e.consumed, e.published, lapped);
    SaturatedSum(lostBefore + lost, lapped);
  }

  /**
   The 32-bit distance shows the true overrun if and only if the producer is less than 2^32 bytes ahead: a longer
   lag is not caught by any recovery, whatever the ring size.
   */
  lemma OverrunSeenExactly(size: nat, consumed: nat, seen: nat)
    requires 0 < size < TWO32 && consumed <= seen
    ensures PendingOverflow(size, Low32(seen), Low32(consumed)) == Lapped(size, consumed, seen) <==>
            seen < consumed + TWO32
  {
    if seen < consumed + TWO32 {
      DistanceExact(seen, consumed);
    } else {
      assert Sub32(Low32(seen), Low32(consumed)) <= MAX32;
    }
  }

  /** Recovery on a producer value loaded earlier skips exactly the lapped bytes and counts them. */
  lemma RecoverExact(r: Ring, consumed: nat, seen: nat, lapped: nat)
    requires consumed <= seen < consumed + TWO32 && r.consumer == Low32(consumed)
    requires lapped == Lapped(|r.storage|, consumed, seen)
    ensures PendingOverflow(|r.storage|, Low32(seen), r.consumer) == lapped
    ensures RecoverAt(r, Low32(seen)).consumer == Low32(consumed + lapped)
    ensures RecoverAt(r, Low32(seen)).overflowCount == SaturatingAdd(r.overflowCount, lapped)
    ensures RecoverAt(r, Low32(seen)).storage == r.storage && RecoverAt(r, Low32(seen)).producer == r.producer
    ensures RecoverAt(r, Low32(seen)).highWatermark == r.highWatermark
  {
    DistanceExact(seen, consumed);
    SumFollows(consumed, lapped);
  }

  /** Where a snapshot commit leaves the consumer. */
  function CommittedTo(size: nat, consumed: nat, seen: nat, count: nat): (target: nat)
    ensures target >= consumed + count
  {
    if seen > consumed + count + size then seen - size else consumed + count
  }

  lemma CommitDistances(size: nat, consumed: nat, seen: nat)
    requires 0 < size < TWO32 && consumed <= seen < consumed + TWO32
    ensures Sub32(Low32(seen), Low32(consumed)) == seen - consumed
    ensures seen - consumed > size ==>
      && Sub32(Low32(seen), size) == Low32(seen - size)
      && Sub32(Low32(seen - size), Low32(consumed)) == seen - size - consumed
  {
    DistanceExact(seen, consumed);
    if seen - consumed > size {
      LowerBy(seen, size);
      DistanceExact(seen - size, consumed);
    }
  }

  /**
   A snapshot commit moves the consumer past the accepted bytes, or past everything the loaded producer has
   lapped, whichever is further, and counts exactly the difference.
   */
  lemma CommitExact(r: Ring, consumed: nat, seen: nat, count: nat)
    requires RingSize(|r.storage|) && consumed + count <= seen < consumed + TWO32
    requires count <= r.consumerReservedCount && count <= |r.storage|
    requires r.consumerReservedSequence == r.consumer == Low32(consumed)
    ensures var target := CommittedTo(|r.storage|, consumed, seen, count);
      CommitSnapshotAt(r, Low32(seen), count) ==
        (r.(overflowCount := SaturatingAdd(r.overflowCount, target - consumed - count),
            consumer := Low32(target), consumerReservedCount := 0), true)
  {
    CommitDistances(|r.storage|, consumed, seen);
    SumFollows(consumed, count);
  }

  lemma {:induction false} LowerBy(n: nat, count: u32)
    requires count <= n
    ensures Sub32(Low32(n), count) == Low32(n - count)
    decreases n
  {
    if n - count > MAX32 {
      LowerBy(n - TWO32, count);
    }
  }

  /**
   The live check is sound: while the statistics sequence has stayed even and unmoved, the progress register
   and the published producer give the true number of received bytes.
   */
  lemma LiveProducerExact(at: Env)
    requires Inv(at) && at.statsSequence % 2 == 0 && at.initialized
    ensures var live := Add32(at.ring.producer, BytesProduced(at.Progress(), at.lastProgress, at.max));
      Sub32(live, Low32(at.consumed)) == |at.received| - at.consumed
  {
    UnpublishedExact(at);
    SumFollows(at.published, |at.received| - at.sampled);
    DistanceExact(|at.received|, at.consumed);
  }

  /** While it has not been lapped, the byte of a position stands in the span of its consumer. */
  lemma ByteInSpan(e: Env, i: nat)
    requires Inv(e) && Slot(e.Size(), e.consumed) + i < e.Size()
    requires e.consumed + i < |e.received| <= e.consumed + i + e.Size()
    ensures e.ring.storage[Slot(e.Size(), e.consumed) + i] == e.received[e.consumed + i]
  {
    SlotOfSum(e.Size(), e.consumed, i);
  }

  /** The core holds a current reservation of `length` published bytes at the consumer. */
  ghost predicate Reserved(e: Env, length: nat) {
    && 0 < length && 0 < e.Size() && Slot(e.Size(), e.consumed) + length <= e.Size()
    && e.consumed + length <= e.published
    && e.ring.consumerReservedSequence == e.ring.consumer && e.ring.consumerReservedCount == length
  }

  predicate HasReservation(e: Env) {
    e.ring.consumerReservedCount != 0 && e.ring.consumerReservedSequence == e.ring.consumer
  }

  /** The published distance passes the span check unless the consumer has been overrun. */
  lemma NotOverrun(e: Env)
    requires Inv(e)
    ensures !Overrun(e) ==> Sub32(e.ring.producer, e.ring.consumer) <= e.Size()
  {
    DistanceExact(e.published, e.consumed);
  }

  lemma ReservedLater(e: Env, f: Env, length: nat)
    requires Reserved(e, length) && Rely(e, f)
    ensures Reserved(f, length)
  {
  }

  /** Books and reservation, later on. */
  lemma HeldLater(e: Env, f: Env, length: nat, delivered: seq<Delivery>, lost: nat, lostBefore: nat)
    requires Books(e, delivered, lost, lostBefore) && Reserved(e, length) && Rely(e, f) && Inv(f)
    ensures Books(f, delivered, lost, lostBefore) && Reserved(f, length) && Later(e, f)
  {
    BooksLater(e, f, delivered, lost, lostBefore);
  }

  /** The longest span of published bytes at the consumer: up to the newest one, or to the end of the storage. */
  function ReadableAt(e: Env): int
    requires 0 < e.Size()
  {
    Min(Min(e.published - e.consumed, e.Size()), e.Size() - Slot(e.Size(), e.consumed))
  }

  lemma ReserveExact(e: Env)
    requires Inv(e)
    ensures var ring := ReserveReadAt(e.ring, e.ring.producer);
      && Inv(e.(ring := ring))
      && ring.consumer == e.ring.consumer
      && ring.consumerReservedCount == ReadableAt(e)
      && (ring.consumerReservedCount != 0 ==> Reserved(e.(ring := ring), ring.consumerReservedCount))
  {
    var ring := ReserveReadAt(e.ring, e.ring.producer);
    DistanceExact(e.published, e.consumed);
    SlotOfLow32(e.Size(), e.consumed);
    ConsumerMoves(e, ring, e.consumed);
  }

  /** What one attempt to copy the reserved span found. */
  datatype Outcome =
    | UpdateInProgress  // the worker was inside an update before the copy
    | Overtaken         // the copy did not survive revalidation
    | Stable(snapshot: seq<byte>)

  /** The live check, its four loads spread over interference, when the last load finds the sequence unmoved. */
  lemma LiveCheckSound(start: Env, e2: Env, e3: Env, e4: Env, e5: Env, now: Env)
    requires Rely(start, e2) && Rely(e2, e3) && Rely(e3, e4) && Rely(e4, e5) && Rely(e5, now)
    requires start.statsSequence % 2 == 0 && now.statsSequence == start.statsSequence
    requires Inv(e3) && e2.initialized
    ensures var live := Add32(e5.ring.producer, BytesProduced(e3.Progress(), e4.lastProgress, e4.max));
      Sub32(live, now.ring.consumer) == |e3.received| - now.consumed
  {
    LiveProducerExact(e3);
  }

  /** Moving the consumer over bytes that are counted as lost keeps the books. */
  lemma SkipKeepsBooks(e: Env, ring: Ring, skip: nat, delivered: seq<Delivery>, lost: nat, lostBefore: nat)
    requires Books(e, delivered, lost, lostBefore) && e.consumed + skip <= e.published && skip <= MAX32
    requires ring.storage == e.ring.storage && ring.producer == e.ring.producer
    requires ring.highWatermark == e.ring.highWatermark && ring.consumer == Low32(e.consumed + skip)
    requires ring.overflowCount == SaturatingAdd(e.ring.overflowCount, skip)
    ensures Books(e.(ring := ring, consumed := e.consumed + skip), delivered, lost + skip, lostBefore)
  {
    ConsumerMoves(e, ring, e.consumed + skip);
    SaturatedSum(lostBefore + lost, skip);
    FaithfulLater(e.received, e.received, delivered, e.consumed, e.consumed + skip);
  }

  /** Recovery keeps the books: what it skips is lost, and counted. */
  lemma RecoverKeepsBooks(e: Env, seen: nat, ring: Ring, lapped: nat, delivered: seq<Delivery>, lost: nat,
                          lostBefore: nat)
    requires Books(e, delivered, lost, lostBefore) && e.consumed <= seen <= e.published
    requires ring == RecoverAt(e.ring, Low32(seen)) && lapped == Lapped(e.Size(), e.consumed, seen)
    ensures lapped == PendingOverflow(e.Size(), Low32(seen), e.ring.consumer)
    ensures Books(e.(ring := ring, consumed := e.consumed + lapped), delivered, lost + lapped, lostBefore)
  {
    RecoverExact(e.ring, e.consumed, seen, lapped);
    SkipKeepsBooks(e, ring, lapped, delivered, lost, lostBefore);
  }

  /** So does a commit, once the accepted bytes are in the books as delivered. */
  lemma CommitKeepsBooks(e: Env, seen: nat, count: nat, delivered: seq<Delivery>, lost: nat, lostBefore: nat)
    requires Inv(e) && e.consumed + count <= seen <= e.published
    requires count <= e.ring.consumerReservedCount && count <= e.Size()
    requires e.ring.consumerReservedSequence == e.ring.consumer
    requires Faithful(e.received, delivered, e.consumed + count)
    requires e.consumed + count == |delivered| + lost && e.ring.overflowCount == Saturated(lostBefore + lost)
    ensures var target := CommittedTo(e.Size(), e.consumed, seen, count);
      Books(e.(ring := CommitSnapshotAt(e.ring, Low32(seen), count).0, consumed := target),
            delivered, lost + (target - e.consumed - count), lostBefore)
  {
    var target := CommittedTo(e.Size(), e.consumed, seen, count);
    CommitExact(e.ring, e.consumed, seen, count);
    ConsumerMoves(e, CommitSnapshotAt(e.ring, Low32(seen), count).0, target);
    SaturatedSum(lostBefore + lost, target - e.consumed - count);
    FaithfulLater(e.received, e.received, delivered, e.consumed + count, target);
  }

  ghost predicate RightUnlessLapped(e: Env, snapshot: seq<byte>) {
    && e.consumed + |snapshot| <= |e.received|
    && (|e.received| <= e.consumed + e.Size() ==>
      forall k :: 0 <= k < |snapshot| ==> snapshot[k] == e.received[e.consumed + k])
  }

  /** The next byte of the copy, loaded when the environment had already moved on to `f`. */
  lemma RightGrows(e: Env, f: Env, snapshot: seq<byte>, value: byte)
    requires Rely(e, f) && RightUnlessLapped(e, snapshot) && f.consumed + |snapshot| < |f.received|
    requires |f.received| <= f.consumed + f.Size() ==> value == f.received[f.consumed + |snapshot|]
    ensures RightUnlessLapped(f, snapshot + [value])
  {
  }

  /** The snapshot is the received bytes at the consumer. */
  ghost predicate Copied(e: Env, snapshot: seq<byte>) {
    e.consumed + |snapshot| <= |e.received| && snapshot == e.received[e.consumed..e.consumed + |snapshot|]
  }

  /** A copy that had not been lapped when it ended is, from then on, a slice of the received stream. */
  lemma SnapshotLater(copied: Env, now: Env, snapshot: seq<byte>, current: bool)
    requires Rely(copied, now) && RightUnlessLapped(copied, snapshot)
    requires current ==> |copied.received| <= now.consumed + now.Size()
    ensures current ==> Copied(now, snapshot)
  {
  }

  class RxPort {
    var e: Env
    ghost var delivered: seq<Delivery>
    ghost var lost: nat
    ghost var lostBefore: nat
    /** Everything USB has taken in this session, and whether it took less than it was last offered. */
    ghost var taken: seq<byte>
    ghost var short: bool

    ghost predicate Valid()
      reads this
    {
      Books(e, delivered, lost, lostBefore) && Mirrors(taken, delivered)
    }

    /** Any number of DMA beats, interrupts and worker steps. */
    method Interfere()
      requires Inv(e)
      modifies this`e
      ensures Inv(e) && Rely(old(e), e)
    {
      var steps: nat := *;
      while steps > 0
        invariant Inv(e) && Rely(old(e), e)
      {
        var step: EnvStep := *;
        if Enabled(e, step) {
          StepKeeps(e, step);
          e := Apply(e, step);
        }
        steps := steps - 1;
      }
    }

    /** One load of the producer, and whatever happens before its value is used. */
    method LoadProducer() returns (seen: u32, published: nat)
      requires Inv(e)
      modifies this`e
      ensures Inv(e) && Rely(old(e), e)
      ensures old(e).published <= published <= e.published && seen == Low32(published)
    {
      Interfere();
      ghost var loaded := e;
      seen, published := e.ring.producer, e.published;
      Interfere();
      RelyTransitive(old(e), loaded, e);
    }

    method Recover() returns (overwritten: nat)
      requires Valid()
      modifies this`e, this`lost
      ensures Valid() && delivered == old(delivered) && lost == old(lost) + overwritten
      ensures Later(old(e), e) && lostBefore == old(lostBefore)
      ensures lost >= Observed(old(e), old(lost)) && old(e).published <= e.consumed + e.Size()
      ensures e.published <= old(e).consumed + e.Size() ==> e.consumed == old(e).consumed
    {
      var seen, published := LoadProducer();
      BooksLater(old(e), e, delivered, lost, lostBefore);
      ghost var before := e;
      overwritten := PendingOverflow(e.Size(), seen, e.ring.consumer);
      Skip(seen, overwritten, published);
      LaterTransitive(old(e), before, e);
    }

    /** The stores of a recovery that loaded `seen`. */
    method Skip(seen: u32, overwritten: nat, ghost published: nat)
      requires Valid() && e.consumed <= published <= e.published && seen == Low32(published)
      requires overwritten == PendingOverflow(e.Size(), seen, e.ring.consumer)
      modifies this`e, this`lost
      ensures e.consumed == old(e).consumed + overwritten && e.published == old(e).published
      ensures Valid() && delivered == old(delivered) && lost == old(lost) + overwritten
      ensures Later(old(e), e) && lostBefore == old(lostBefore)
      ensures overwritten == Lapped(old(e).Size(), old(e).consumed, published)
    {
      RecoverKeepsBooks(e, published, RecoverAt(e.ring, seen), Lapped(e.Size(), e.consumed, published), delivered,
                        lost, lostBefore);
      e := e.(ring := RecoverAt(e.ring, seen), consumed := e.consumed + overwritten);
      lost := lost + overwritten;
    }

    method ReadSpan() returns (offset: nat, length: nat)
      requires Valid()
      modifies this`e, this`lost
      ensures Valid() && delivered == old(delivered) && lost >= old(lost)
      ensures Later(old(e), e) && lostBefore == old(lostBefore) && old(e).published <= e.consumed + e.Size()
      ensures offset == Slot(e.Size(), e.consumed) && length == ReadableAt(e) && (length != 0 ==> Reserved(e, length))
    {
      var lapped := Recover();
      ghost var before := e;
      Interfere();
      BooksLater(before, e, delivered, lost, lostBefore);
      LaterTransitive(old(e), before, e);
      offset, length := ReserveRead();
    }

    /** The reservation, from one load of the producer. */
    method ReserveRead() returns (offset: nat, length: nat)
      requires Valid()
      modifies this`e
      ensures Valid() && e == old(e).(ring := e.ring) && Later(old(e), e)
      ensures offset == Slot(e.Size(), e.consumed) && length == ReadableAt(e) && (length != 0 ==> Reserved(e, length))
    {
      var ring := ReserveReadAt(e.ring, e.ring.producer);
      ReserveExact(e);
      SlotOfLow32(e.Size(), e.consumed);
      offset := Slot(e.Size(), ring.consumer);
      length := ring.consumerReservedCount;
      e := e.(ring := ring);
    }

    method LoadByte(offset: nat, i: nat, ghost length: nat) returns (value: byte)
      requires Inv(e) && Reserved(e, length) && i < length && offset == Slot(e.Size(), e.consumed)
      modifies this`e
      ensures Inv(e) && Rely(old(e), e)
      ensures |e.received| <= e.consumed + e.Size() ==> value == e.received[e.consumed + i]
    {
      Interfere();
      if |e.received| <= e.consumed + e.Size() {
        ByteInSpan(e, i);
      }
      value := e.ring.storage[offset + i];
    }

    /** `memcpy` out of the live ring, byte by byte: a byte is right unless it has been lapped by now. */
    method CopySpan(offset: nat, count: nat, ghost length: nat) returns (snapshot: seq<byte>)
      requires Inv(e) && Reserved(e, length) && count <= length && offset == Slot(e.Size(), e.consumed)
      modifies this`e
      ensures Inv(e) && Rely(old(e), e)
      ensures |snapshot| == count && RightUnlessLapped(e, snapshot)
    {
      snapshot := [];
      for i := 0 to count
        invariant Inv(e) && Rely(old(e), e) && Reserved(e, length) && offset == Slot(e.Size(), e.consumed)
        invariant |snapshot| == i && RightUnlessLapped(e, snapshot)
      {
        ghost var before := e;
        var value := LoadByte(offset, i, length);
        RelyTransitive(old(e), before, e);
        ReservedLater(before, e, length);
        RightGrows(before, e, snapshot, value);
        snapshot := snapshot + [value];
      }
    }

    /** The loads behind the live producer, anything happening between any two of them. */
    method LiveProducer(ghost start: Env) returns (initialized: bool, live: u32, ghost at: Env)
      requires Inv(e) && Rely(start, e) && start.statsSequence % 2 == 0
      modifies this`e
      ensures Inv(e) && Rely(old(e), e) && Rely(old(e), at) && Rely(at, e)
      ensures initialized && e.statsSequence == start.statsSequence ==>
        Sub32(live, e.ring.consumer) == |at.received| - e.consumed
      ensures Standing(start, e) ==> initialized
    {
      Interfere();
      initialized := e.initialized;
      ghost var e2 := e;
      Interfere();
      var progress := e.Progress();
      at := e;
      Interfere();
      var produced := BytesProduced(progress, e.lastProgress, e.max);
      ghost var e4 := e;
      Interfere();
      live := Add32(e.ring.producer, produced);
      RelyTransitive(start, old(e), e2);
      RelyTransitive(old(e), e2, at);
      RelyTransitive(at, e4, e);
      RelyTransitive(old(e), at, e);
      if initialized && e.statsSequence == start.statsSequence {
        LiveCheckSound(start, e2, at, e4, e, e);
      }
    }

    /** The first check: the reservation is still the consumer's, and the published producer has not lapped it. */
    method SpanIsCurrent() returns (current: bool)
      requires Inv(e)
      modifies this`e
      ensures Inv(e) && Rely(old(e), e)
      ensures HasReservation(e) && !Overrun(e) ==> current
    {
      Interfere();
      var producer := e.ring.producer;
      NotOverrun(e);
      current := e.ring.consumer == e.ring.consumerReservedSequence && e.ring.consumerReservedCount != 0
                 && Sub32(producer, e.ring.consumerReservedSequence) <= e.Size();
    }

    /** The second check: what has arrived, published or not, has not lapped the consumer. */
    method SnapshotIsCurrent(ghost start: Env) returns (current: bool)
      requires Inv(e) && Rely(start, e) && start.statsSequence % 2 == 0
      modifies this`e
      ensures Inv(e) && Rely(old(e), e)
      ensures current && e.statsSequence == start.statsSequence ==> |old(e).received| <= e.consumed + e.Size()
      ensures Standing(start, e) && !Overrun(e) ==> current
    {
      var initialized, live;
      ghost var at;
      initialized, live, at := LiveProducer(start);
      current := initialized && Sub32(live, e.ring.consumer) <= e.Size();
    }

    /** The three checks between the copy and the delivery, one shared load at a time. */
    method Revalidate(initialStats: nat, ghost start: Env) returns (current: bool)
      requires Inv(e) && Rely(start, e) && start.statsSequence == initialStats && initialStats % 2 == 0
      modifies this`e
      ensures Inv(e) && Rely(old(e), e)
      ensures current ==> |old(e).received| <= e.consumed + e.Size()
      ensures Standing(start, e) && !Overrun(e) && HasReservation(e) ==> current
    {
      var span := SpanIsCurrent();
      ghost var e1 := e;
      RelyTransitive(start, old(e), e1);
      var snapshot := SnapshotIsCurrent(start);
      ghost var e2 := e;
      RelyTransitive(old(e), e1, e2);
      RelyTransitive(start, e1, e2);
      Interfere();
      RelyTransitive(old(e), e2, e);
      current := span && snapshot && e.statsSequence == initialStats;
    }

    /** Copy and revalidate: a snapshot that passes is the received bytes at the consumer, none torn or lapped. */
    method TakeSnapshot(offset: nat, offered: nat, ghost length: nat) returns (outcome: Outcome)
      requires Valid() && Reserved(e, length) && offered <= length && offset == Slot(e.Size(), e.consumed)
      modifies this`e
      ensures Valid() && Reserved(e, length) && Later(old(e), e)
      ensures outcome.Stable? ==> |outcome.snapshot| == offered && Copied(e, outcome.snapshot)
      ensures Standing(old(e), e) ==> outcome.Stable? || (outcome.Overtaken? && Overrun(e))
    {
      Interfere();
      ghost var start := e;
      HeldLater(old(e), start, length, delivered, lost, lostBefore);
      var initialStats := e.statsSequence;
      if initialStats % 2 != 0 {
        return UpdateInProgress;
      }
      var snapshot, current := CopyAndCheck(offset, offered, length, initialStats);
      HeldLater(start, e, length, delivered, lost, lostBefore);
      LaterTransitive(old(e), start, e);
      outcome := if current then Stable(snapshot) else Overtaken;
    }

    method CopyAndCheck(offset: nat, offered: nat, ghost length: nat, initialStats: nat)
      returns (snapshot: seq<byte>, current: bool)
      requires Inv(e) && Reserved(e, length) && offered <= length && offset == Slot(e.Size(), e.consumed)
      requires e.statsSequence == initialStats && initialStats % 2 == 0
      modifies this`e
      ensures Inv(e) && Rely(old(e), e)
      ensures |snapshot| == offered && (current ==> Copied(e, snapshot))
      ensures Standing(old(e), e) && !Overrun(e) ==> current
    {
      snapshot := CopySpan(offset, offered, length);
      ghost var copied := e;
      current := Revalidate(initialStats, old(e));
      RelyTransitive(old(e), copied, e);
      ReservedLater(old(e), e, length);
      SnapshotLater(copied, e, snapshot, current);
    }

    /** The USB FIFO takes some prefix of what it is offered; nothing else reaches it. */
    method UsbWrite(data: seq<byte>) returns (written: nat)
      modifies this`taken, this`short
      ensures written <= |data| && taken == old(taken) + data[..written] && short == (written < |data|)
    {
      assert 0 <= |data|;
      written :| 0 <= written <= |data|;
      taken, short := taken + data[..written], written < |data|;
    }

    /** Hand a stable snapshot to USB and commit what USB took. */
    method Deliver(snapshot: seq<byte>, ghost length: nat) returns (written: nat)
      requires Valid() && Reserved(e, length) && 0 < |snapshot| <= length
      requires Copied(e, snapshot)
      modifies this`e, this`lost, this`delivered, this`taken, this`short
      ensures Valid() && written <= |snapshot| && lost >= old(lost)
      ensures taken == old(taken) + snapshot[..written] && short == (written < |snapshot|)
      ensures old(delivered) <= delivered && |delivered| == |old(delivered)| + written
      ensures Later(old(e), e) && lostBefore == old(lostBefore)
    {
      ghost var was, before := taken, delivered;
      assert Faithful(e.received, before, e.consumed) && Mirrors(was, before);
      written := UsbWrite(snapshot);
      if written == 0 {
        assert taken == was;
        return;
      }
      FaithfulExtended(e.received, before, e.consumed, snapshot[..written]);
      MirrorsMore(was, before, e.consumed, snapshot[..written]);
      delivered := before + DeliveriesFrom(e.consumed, snapshot[..written]);
      CommitSnapshot(written, length);
    }

    method CommitSnapshot(count: nat, ghost length: nat)
      requires Inv(e) && Reserved(e, length) && count <= length
      requires Faithful(e.received, delivered, e.consumed + count) && Mirrors(taken, delivered)
      requires e.consumed + count == |delivered| + lost && e.ring.overflowCount == Saturated(lostBefore + lost)
      modifies this`e, this`lost
      ensures Valid() && delivered == old(delivered) && lost >= old(lost)
      ensures Later(old(e), e) && lostBefore == old(lostBefore)
    {
      var seen, published := LoadProducer();
      ghost var before := e;
      ReservedLater(old(e), e, length);
      FaithfulLater(old(e).received, e.received, delivered, old(e).consumed + count, e.consumed + count);
      StoreCommit(seen, count, published, length);
      LaterTransitive(old(e), before, e);
    }

    /** The stores of a commit that loaded `seen`. */
    method StoreCommit(seen: u32, count: nat, published: nat, ghost length: nat)
      requires Inv(e) && Reserved(e, length) && count <= length && count <= e.Size()
      requires e.consumed + count <= published <= e.published && seen == Low32(published)
      requires Faithful(e.received, delivered, e.consumed + count) && Mirrors(taken, delivered)
      requires e.consumed + count == |delivered| + lost && e.ring.overflowCount == Saturated(lostBefore + lost)
      modifies this`e, this`lost
      ensures Valid() && delivered == old(delivered) && lost >= old(lost)
      ensures Later(old(e), e) && lostBefore == old(lostBefore)
    {
      CommitKeepsBooks(e, published, count, delivered, lost, lostBefore);
      var target := CommittedTo(e.Size(), e.consumed, published, count);
      lost := lost + (target - e.consumed - count);
      e := e.(ring := CommitSnapshotAt(e.ring, seen, count).0, consumed := target);
    }

    /**
     One pass of the drain loop; `more` is false where the source leaves the loop. While the environment stands still
     that is only on an empty ring, a short USB transfer, or an overrun that is still to be published.
     */
    method DrainPiece(limit: nat, snapshotCapacity: nat) returns (written: nat, more: bool)
      requires Valid() && limit > 0 && snapshotCapacity > 0
      modifies this`e, this`lost, this`delivered, this`taken, this`short
      ensures Valid() && written <= limit && (more ==> written > 0) && lost >= old(lost)
      ensures old(delivered) <= delivered && |delivered| == |old(delivered)| + written && old(taken) <= taken
      ensures Later(old(e), e) && lostBefore == old(lostBefore)
      ensures Standing(old(e), e) ==> more || short || e.consumed == e.published || Overrun(e)
    {
      var offset, length := ReadSpan();
      if length == 0 {
        return 0, false;
      }
      ghost var before := e;
      var offered := Min(Min(length, limit), snapshotCapacity);
      written, more := OfferSpan(offset, offered, length);
      LaterTransitive(old(e), before, e);
    }

    /** What a pass does with the span it has reserved. */
    method OfferSpan(offset: nat, offered: nat, ghost length: nat) returns (written: nat, more: bool)
      requires Valid() && Reserved(e, length) && 0 < offered <= length && offset == Slot(e.Size(), e.consumed)
      modifies this`e, this`lost, this`delivered, this`taken, this`short
      ensures Valid() && written <= offered && (more ==> written > 0) && lost >= old(lost)
      ensures old(delivered) <= delivered && |delivered| == |old(delivered)| + written && old(taken) <= taken
      ensures Later(old(e), e) && lostBefore == old(lostBefore)
      ensures Standing(old(e), e) && old(e).published <= old(e).consumed + e.Size() ==> more || short || Overrun(e)
    {
      var outcome := TakeSnapshot(offset, offered, length);
      ghost var before := e;
      written, more := 0, false;
      if outcome == Overtaken {
        var lapped := Recover();
      } else if outcome.Stable? {
        written := Deliver(outcome.snapshot, length);
        more := written == offered;
      }
      LaterTransitive(old(e), before, e);
    }

    /**
     Drain up to `capacity` bytes. Capacity 0 means no limit, and against a live producer the loop then need not
     end: `passes` is how many of its passes are looked at. Any other capacity ends the loop by itself.
     */
    method DrainRx(capacity: nat, snapshotCapacity: nat, passes: nat) returns (totalWritten: nat)
      requires Valid()
      modifies this`e, this`lost, this`delivered, this`taken, this`short
      ensures Valid() && Later(old(e), e) && lostBefore == old(lostBefore)
      ensures old(delivered) <= delivered && |delivered| == |old(delivered)| + totalWritten
      // What USB got in this call: received bytes, in the order of the stream.
      ensures old(taken) <= taken && |taken| == |old(taken)| + totalWritten
      ensures TakenInOrder(e.received, taken, delivered, |old(taken)|)
      ensures capacity != 0 ==> totalWritten <= capacity
      ensures lost >= if snapshotCapacity == 0 then old(lost) else Observed(old(e), old(lost))
      ensures Observed(e, lost) >= Observed(old(e), old(lost))
      // Why it ended, when nothing arrived meanwhile.
      ensures Standing(old(e), e) && snapshotCapacity > 0 ==>
        || (if capacity == 0 then totalWritten >= passes else totalWritten == capacity)
        || short || e.consumed == e.published || Overrun(e)
    {
      totalWritten := 0;
      if snapshotCapacity == 0 {
        OrderTaken(e.received, taken, delivered, e.consumed, |taken|);
        return;
      }
      short := false;
      var lapped := Recover();
      var more, left := true, passes;
      while more && if capacity == 0 then left > 0 else totalWritten < capacity
        invariant Valid() && Later(old(e), e) && lostBefore == old(lostBefore)
        invariant capacity != 0 ==> totalWritten <= capacity
        invariant old(delivered) <= delivered && |delivered| == |old(delivered)| + totalWritten && old(taken) <= taken
        invariant lost >= Observed(old(e), old(lost))
        invariant more ==> left <= passes <= totalWritten + left
        invariant Standing(old(e), e) ==> more || short || e.consumed == e.published || Overrun(e)
        decreases if capacity == 0 then left else capacity - totalWritten, more
      {
        ghost var before := e;
        var limit := if capacity == 0 then snapshotCapacity else capacity - totalWritten;
        var written;
        written, more := DrainPiece(limit, snapshotCapacity);
        LaterTransitive(old(e), before, e);
        totalWritten := totalWritten + written;
        left := if left == 0 then 0 else left - 1;
      }
      OrderTaken(e.received, taken, delivered, e.consumed, |old(taken)|);
    }

    /** One bridge pass: with no room in the USB FIFO only the overrun recovery runs. */
    method BridgePass(writable: nat, snapshotCapacity: nat) returns (written: nat)
      requires Valid()
      modifies this`e, this`lost, this`delivered, this`taken, this`short
      ensures Valid() && Later(old(e), e) && lostBefore == old(lostBefore)
      ensures old(delivered) <= delivered && |delivered| == |old(delivered)| + written && written <= writable
      ensures old(taken) <= taken && TakenInOrder(e.received, taken, delivered, |old(taken)|)
      ensures snapshotCapacity > 0 ==> lost >= Observed(old(e), old(lost))
      ensures Observed(e, lost) >= Observed(old(e), old(lost))
    {
      written := 0;
      if writable == 0 {
        var lapped := Recover();
        OrderTaken(e.received, taken, delivered, e.consumed, |taken|);
      } else {
        written := DrainRx(writable, snapshotCapacity, 0);
      }
    }

    /** The worker's restart, while the USB core stays out of the port: a new session's books. */
    method Restart(started: bool)
      requires Valid() && !e.initialized && e.statsSequence % 2 == 1
      modifies this
      ensures Valid() && delivered == [] && taken == [] && lost == 0 && e == NewSession(old(e), started)
      ensures lostBefore == old(lostBefore) + Observed(old(e), old(lost))
    {
      RestartOpensBooks(e, delivered, lost, lostBefore, started);
      delivered, taken, lost, lostBefore := [], [], 0, lostBefore + Observed(e, lost);
      e := e.(ring := RecoverAt(e.ring, e.ring.producer));
      e := e.(ring := e.ring.(producer := 0, consumer := 0, producerReservedSequence := 0, producerReservedCount := 0,
                              consumerReservedSequence := 0, consumerReservedCount := 0),
              received := [], published := 0, consumed := 0, rxBefore := e.rxBefore + e.sampled, sampled := 0);
      e := e.(lastProgress := 0, initialized := started, channel := if started then Running else Released,
              writeIndex := Slot(e.Size(), e.ring.producer), remaining := e.max, irqPending := false, countdowns := [],
              armed := 0);
    }
  }
}

/**
 The transmit path: the USB core appends to the ring while the UART worker moves spans out of it, by DMA or
 through the PIO FIFO. The worker's steps and the single byte moves are the environment of the filling core.
 */
module TxPath {
  import opened Words
  import opened RingBuffers

  /** A span on its way out: `moved` of `count` bytes starting at a storage offset. */
  datatype Transfer = Quiet | Moving(offset: nat, count: nat, moved: nat)

  /** Shared ring and worker state; the last block is history that no code reads. */
  datatype Env = Env(
    ring: Ring,
    transfer: Transfer,
    txBytes: u32,
    // history
    accepted: seq<byte>,
    sent: seq<byte>,
    produced: nat,
    retired: nat,
    txBefore: nat,
    overflowBefore: u32)
  {
    function Size(): nat {
      |ring.storage|
    }
  }

  datatype EnvStep =
    | Launch(maxTransfer: nat, baudRate: u32, bitsPerFrame: nat, budgetMs: nat)
    | MoveByte
    | Complete

  /** Bytes of one launch: bounded by the ring, the configured maximum and the wire time, with a one-frame floor. */
  function TransferBytes(occupancy: nat, maxTransfer: nat, baudRate: u32, bitsPerFrame: nat, budgetMs: nat): (n: nat)
    ensures n <= Min(occupancy, maxTransfer)
    ensures n == 0 <==> occupancy == 0 || maxTransfer == 0 || baudRate == 0 || bitsPerFrame == 0 || budgetMs == 0
  {
    var transfer := Min(maxTransfer, occupancy);
    if transfer == 0 || baudRate == 0 || bitsPerFrame == 0 || budgetMs == 0 then 0 else
      var budget := baudRate * budgetMs / (1000 * bitsPerFrame);
      if budget <= 0 then 1 else Min(transfer, budget)
  }

  /**
   A launch of more than the one-frame floor fits the wire-time budget (in bit-milliseconds), and is the longest
   that does, unless ring or configured maximum end it first.
   */
  lemma TransferFitsBudget(occupancy: nat, maxTransfer: nat, baudRate: u32, bitsPerFrame: nat, budgetMs: nat)
    ensures var n := TransferBytes(occupancy, maxTransfer, baudRate, bitsPerFrame, budgetMs);
      && n <= Min(occupancy, maxTransfer)
      && (n == 0 <==> Min(occupancy, maxTransfer) == 0 || baudRate == 0 || bitsPerFrame == 0 || budgetMs == 0)
      && (n > 1 ==> WireTime(n, bitsPerFrame) <= baudRate * budgetMs)
      && (0 < n < Min(occupancy, maxTransfer) ==> WireTime(n + 1, bitsPerFrame) > baudRate * budgetMs)
  {
    var n := TransferBytes(occupancy, maxTransfer, baudRate, bitsPerFrame, budgetMs);
    if n != 0 {
      var frame, budget := 1000 * bitsPerFrame, baudRate * budgetMs;
      QuotientBounds(budget, frame);
      var q := budget / frame;
      if n <= q {
        Scaled(n, q, frame);
      }
      if n + 1 > q {
        Scaled(q + 1, n + 1, frame);
      }
    }
  }

  /** Bit-milliseconds per second that `n` frames take: `n` frames last `WireTime(n, bits) / baudRate` ms. */
  function WireTime(n: nat, bitsPerFrame: nat): nat {
    n * (1000 * bitsPerFrame)
  }

  lemma QuotientBounds(a: nat, b: nat)
    requires 0 < b
    ensures (a / b) * b <= a < (a / b + 1) * b
  {
  }

  lemma Scaled(a: nat, b: nat, c: nat)
    requires a <= b
    ensures a * c <= b * c
  {
  }

  /** The span a launch would take, and its length. */
  function LaunchSpan(e: Env): Ring
    requires RingSize(e.Size())
  {
    ReserveReadAt(RecoverAt(e.ring, e.ring.producer), e.ring.producer)
  }

  predicate Enabled(e: Env, step: EnvStep)
    requires RingSize(e.Size())
  {
    match step
    case Launch(maxTransfer, baudRate, bitsPerFrame, budgetMs) =>
      && e.transfer == Quiet
      && TransferBytes(LaunchSpan(e).consumerReservedCount, maxTransfer, baudRate, bitsPerFrame, budgetMs) != 0
    case MoveByte => e.transfer.Moving? && e.transfer.moved < e.transfer.count
    case Complete => e.transfer.Moving? && e.transfer.moved == e.transfer.count
  }

  function Apply(e: Env, step: EnvStep): Env
    requires RingSize(e.Size()) && Enabled(e, step)
    requires e.transfer.Moving? ==> e.transfer.offset + e.transfer.count <= e.Size()
  {
    match step
    case Launch(maxTransfer, baudRate, bitsPerFrame, budgetMs) =>
      var ring := LaunchSpan(e);
      var count := TransferBytes(ring.consumerReservedCount, maxTransfer, baudRate, bitsPerFrame, budgetMs);
      e.(ring := ring, transfer := Moving(Slot(e.Size(), ring.consumer), count, 0))
    case MoveByte =>
      e.(sent := e.sent + [e.ring.storage[e.transfer.offset + e.transfer.moved]],
         transfer := e.transfer.(moved := e.transfer.moved + 1))
    case Complete =>
      // The commit's result is ignored by both backends; `CompleteCommits` shows that it is always true.
      var ring := CommitConsumedAt(e.ring, e.ring.producer, e.transfer.count).0;
      e.(ring := ring, txBytes := Add32(e.txBytes, e.transfer.count % 0x1_0000_0000), transfer := Quiet,
         retired := e.retired + e.transfer.count)
  }

  /** Every queued position still stands in its slot. */
  ghost predicate Queued(storage: seq<byte>, accepted: seq<byte>, from: nat)
    requires 0 < |storage|
  {
    forall i {:trigger Slot(|storage|, i)} :: from <= i < |accepted| ==> storage[Slot(|storage|, i)] == accepted[i]
  }

  ghost predicate TransferFits(e: Env) {
    match e.transfer
    case Quiet => |e.sent| == e.retired
    case Moving(offset, count, moved) =>
      && 0 < count && moved <= count && e.retired + count <= e.produced
      && 0 < e.Size() && offset == Slot(e.Size(), e.retired) && offset + count <= e.Size()
      && |e.sent| == e.retired + moved
      && e.ring.consumerReservedSequence == e.ring.consumer && count <= e.ring.consumerReservedCount
  }

  ghost predicate Inv(e: Env) {
    && RingSize(e.Size())
    && e.ring.producer == Low32(e.produced) && e.ring.consumer == Low32(e.retired)
    && e.retired <= e.produced <= e.retired + e.Size()
    && e.produced == |e.accepted|
    && Queued(e.ring.storage, e.accepted, e.retired)
    && e.sent <= e.accepted
    && TransferFits(e)
    && e.ring.overflowCount == e.overflowBefore && e.ring.highWatermark <= e.Size()
    && e.txBytes == Low32(e.txBefore + e.retired)
  }

  /** What the filling core may rely on: its own side stands still and free space only grows. */
  ghost predicate Rely(e: Env, f: Env) {
    && f.ring.storage == e.ring.storage
    && f.ring.producer == e.ring.producer && f.produced == e.produced && f.accepted == e.accepted
    && f.ring.producerReservedSequence == e.ring.producerReservedSequence
    && f.ring.producerReservedCount == e.ring.producerReservedCount
    && f.ring.highWatermark == e.ring.highWatermark
    && e.retired <= f.retired && e.sent <= f.sent
    && f.txBefore == e.txBefore && f.overflowBefore == e.overflowBefore
  }

  /** As `Rely`, but the filling core has been storing into free slots. */
  ghost predicate FillerKept(e: Env, f: Env) {
    f.Size() == e.Size() && Rely(e, f.(ring := f.ring.(storage := e.ring.storage)))
  }

  /** A later moment of the same session. */
  ghost predicate Later(e: Env, f: Env) {
    && f.Size() == e.Size() && f.txBefore == e.txBefore
    && e.retired <= f.retired && e.sent <= f.sent && e.accepted <= f.accepted
  }

  /** The worker brings a stopped port up again: what the ring held, in flight or not, belongs to no session now. */
  function NewSession(e: Env): Env {
    e.(ring := e.ring.(producer := 0, consumer := 0, producerReservedSequence := 0, producerReservedCount := 0,
                       consumerReservedSequence := 0, consumerReservedCount := 0),
       transfer := Quiet,
       // history
       accepted := [], sent := [], produced := 0, retired := 0, txBefore := e.txBefore + e.retired)
  }

  /** A restart opens a session with an empty queue, and takes nothing back from the byte counter. */
  lemma RestartKeeps(e: Env)
    requires Inv(e)
    ensures var next := NewSession(e);
      && Inv(next) && Contents(next.ring) == [] && next.txBytes == e.txBytes
      && next.txBefore + next.retired == e.txBefore + e.retired
  {
  }

  lemma RelyTransitive(e: Env, f: Env, g: Env)
    requires Rely(e, f) && Rely(f, g)
    ensures Rely(e, g)
  {
  }

  /** Nothing is ever pending recovery on the transmit side: the producer respects the free space. */
  lemma NeverLapped(e: Env)
    requires Inv(e)
    ensures Sub32(e.ring.producer, e.ring.consumer) == e.produced - e.retired
    ensures RecoverAt(e.ring, e.ring.producer) == e.ring
  {
    DistanceExact(e.produced, e.retired);
  }

  /** The commit whose result the backends ignore always succeeds and never counts an overflow. */
  lemma CompleteCommits(e: Env)
    requires Inv(e) && e.transfer.Moving?
    ensures var (ring, ok) := CommitConsumedAt(e.ring, e.ring.producer, e.transfer.count);
      ok && ring == e.ring.(consumer := Low32(e.retired + e.transfer.count), consumerReservedCount := 0)
  {
    NeverLapped(e);
    SumFollows(e.retired, e.transfer.count);
  }

  lemma LaunchKeeps(e: Env, step: EnvStep)
    requires Inv(e) && step.Launch? && Enabled(e, step)
    ensures Inv(Apply(e, step)) && Rely(e, Apply(e, step))
  {
    NeverLapped(e);
    SlotOfLow32(e.Size(), e.retired);
  }

  lemma MoveKeeps(e: Env)
    requires Inv(e) && Enabled(e, MoveByte)
    ensures Inv(Apply(e, MoveByte)) && Rely(e, Apply(e, MoveByte))
  {
    SlotOfSum(e.Size(), e.retired, e.transfer.moved);
    assert e.ring.storage[e.transfer.offset + e.transfer.moved] == e.accepted[e.retired + e.transfer.moved];
  }

  lemma CompleteKeeps(e: Env)
    requires Inv(e) && Enabled(e, Complete)
    ensures Inv(Apply(e, Complete)) && Rely(e, Apply(e, Complete))
  {
    CompleteCommits(e);
    SumFollows(e.txBefore + e.retired, e.transfer.count);
  }

  lemma StepKeeps(e: Env, step: EnvStep)
    requires Inv(e) && Enabled(e, step)
    ensures Inv(Apply(e, step)) && Rely(e, Apply(e, step))
  {
    match step
    case Launch(_, _, _, _) => LaunchKeeps(e, step);
    case MoveByte => MoveKeeps(e);
    case Complete => CompleteKeeps(e);
  }

  /**
   The session's FIFO law: the bytes retired to the UART followed by the bytes in the ring are exactly the bytes
   read from USB, in order; the overflow counter has not moved and the byte counter is the retired count.
   */
  lemma LosslessFifo(e: Env)
    requires Inv(e)
    ensures e.sent[..e.retired] + Contents(e.ring) == e.accepted
    ensures e.sent == e.accepted[..|e.sent|]
    ensures e.ring.overflowCount == e.overflowBefore && e.txBytes == Low32(e.txBefore + e.retired)
  {
    QueueIsUnsent(e);
    SentPlusRest(e.accepted, e.sent, e.retired);
  }

  lemma SentPlusRest<T>(accepted: seq<T>, sent: seq<T>, retired: nat)
    requires sent <= accepted && retired <= |sent|
    ensures sent[..retired] + accepted[retired..] == accepted && sent == accepted[..|sent|]
  {
  }

  lemma QueueIsUnsent(e: Env)
    requires Inv(e)
    ensures Contents(e.ring) == e.accepted[e.retired..]
  {
    NeverLapped(e);
    var q := Contents(e.ring);
    forall i | 0 <= i < |q|
      ensures q[i] == e.accepted[e.retired + i]
    {
      QueuedSlot(e.Size(), e.retired, i);
    }
  }

  /** The slot of a queued byte, from the wrapped consumer or from the unbounded position. */
  lemma QueuedSlot(size: nat, retired: nat, i: nat)
    requires RingSize(size)
    ensures Slot(size, Low32(retired) + i) == Slot(size, retired + i)
  {
    SlotOfLow32(size, retired);
    SlotOfSum(size, Low32(retired), i);
    SlotOfSum(size, retired, i);
  }

  lemma FreeStoreKeepsQueue(storage: seq<byte>, accepted: seq<byte>, from: nat, at: nat, value: byte)
    requires 0 < |storage| && Queued(storage, accepted, from) && |accepted| <= at < from + |storage|
    ensures Queued(storage[Slot(|storage|, at) := value], accepted, from)
  {
    forall i | from <= i < |accepted|
      ensures Slot(|storage|, i) != Slot(|storage|, at)
    {
      SlotsDiffer(|storage|, i, at);
    }
  }

  /** A byte stored in the offered free space is not in the queue, so not in a span in flight either. */
  lemma FreeStoreKeeps(e: Env, k: nat, value: byte)
    requires Inv(e) && Slot(e.Size(), e.produced) + k < e.Size() && e.produced + k < e.retired + e.Size()
    ensures Inv(e.(ring := e.ring.(storage := e.ring.storage[Slot(e.Size(), e.produced) + k := value])))
  {
    SlotOfSum(e.Size(), e.produced, k);
    FreeStoreKeepsQueue(e.ring.storage, e.accepted, e.retired, e.produced + k, value);
  }

  /** The bytes of `data` stand in storage from the slot of position `at` on, in one piece. */
  ghost predicate InPiece(storage: seq<byte>, at: nat, data: seq<byte>)
    requires 0 < |storage|
  {
    && Slot(|storage|, at) + |data| <= |storage|
    && storage[Slot(|storage|, at)..Slot(|storage|, at) + |data|] == data
  }

  lemma PieceGrows(storage: seq<byte>, at: nat, data: seq<byte>, i: nat)
    requires 0 < |storage| && Slot(|storage|, at) + |data| <= |storage| && i < |data|
    requires InPiece(storage, at, data[..i])
    ensures InPiece(storage[Slot(|storage|, at) + i := data[i]], at, data[..i + 1])
  {
    var first := Slot(|storage|, at);
    var next := storage[first + i := data[i]];
    assert next[first..first + (i + 1)] == storage[first..first + i] + [data[i]];
  }

  /** The window offered to the reader holds `data` so far. */
  ghost predicate Windowed(e: Env, data: seq<byte>) {
    0 < e.Size() && InPiece(e.ring.storage, e.produced, data)
  }

  lemma WindowGrows(e: Env, data: seq<byte>, i: nat)
    requires i < |data| && Windowed(e, data[..i]) && Slot(e.Size(), e.produced) + |data| <= e.Size()
    ensures var storage := e.ring.storage[Slot(e.Size(), e.produced) + i := data[i]];
      Windowed(e.(ring := e.ring.(storage := storage)), data[..i + 1])
  {
    PieceGrows(e.ring.storage, e.produced, data, i);
  }

  lemma ReservationKeeps(e: Env, sequence: u32, count: u32)
    requires Inv(e)
    ensures Inv(e.(ring := e.ring.(producerReservedSequence := sequence, producerReservedCount := count)))
  {
  }

  lemma GrownSlot(storage: seq<byte>, accepted: seq<byte>, from: nat, data: seq<byte>, i: nat)
    requires 0 < |storage| && Queued(storage, accepted, from) && InPiece(storage, |accepted|, data)
    requires from <= i < |accepted| + |data|
    ensures storage[Slot(|storage|, i)] == (accepted + data)[i]
  {
    if i >= |accepted| {
      var first, k := Slot(|storage|, |accepted|), i - |accepted|;
      SlotOfSum(|storage|, |accepted|, k);
      assert storage[first..first + |data|][k] == data[k];
    }
  }

  lemma QueueGrows(storage: seq<byte>, accepted: seq<byte>, from: nat, data: seq<byte>)
    requires 0 < |storage| && Queued(storage, accepted, from) && InPiece(storage, |accepted|, data)
    ensures Queued(storage, accepted + data, from)
  {
    forall i | from <= i < |accepted + data|
      ensures storage[Slot(|storage|, i)] == (accepted + data)[i]
    {
      GrownSlot(storage, accepted, from, data, i);
    }
  }

  lemma ProduceKeeps(e: Env, data: seq<byte>, highWatermark: u32)
    requires Inv(e) && Windowed(e, data) && e.produced + |data| <= e.retired + e.Size() && highWatermark <= e.Size()
    ensures var ring := e.ring.(producer := Add32(e.ring.producer, |data|), producerReservedCount := 0,
                                highWatermark := highWatermark);
      Inv(e.(ring := ring, produced := e.produced + |data|, accepted := e.accepted + data))
  {
    SumFollows(e.produced, |data|);
    QueueGrows(e.ring.storage, e.accepted, e.retired, data);
  }

  predicate Full(e: Env) {
    e.produced == e.retired + e.Size()
  }

  /** The longest free span at the producer: all free slots, or up to the end of the storage. */
  function WritableAt(e: Env): int
    requires 0 < e.Size()
  {
    Min(e.Size() - (e.produced - e.retired), e.Size() - Slot(e.Size(), e.produced))
  }

  /** Occupancy and window start, from the wrapped sequences. */
  lemma ReserveExact(e: Env)
    requires Inv(e)
    ensures Available(e.Size(), e.ring.producer, e.ring.consumer) == e.produced - e.retired
    ensures Slot(e.Size(), e.ring.producer) == Slot(e.Size(), e.produced)
  {
    NeverLapped(e);
    SlotOfLow32(e.Size(), e.produced);
  }

  lemma StoreIsFilling(e: Env, f: Env, storage: seq<byte>)
    requires Rely(e, f) && |storage| == f.Size()
    ensures FillerKept(e, f.(ring := f.ring.(storage := storage)))
  {
  }

  class TxPort {
    var e: Env
    /** Everything the USB reader has handed over in this session, and whether it last gave less than asked for. */
    ghost var handed: seq<byte>
    ghost var short: bool

    ghost predicate Valid()
      reads this
    {
      Inv(e) && e.accepted == handed
    }

    /** Any number of worker steps and byte moves. */
    method Interfere()
      requires Inv(e)
      modifies this`e
      ensures Inv(e) && Rely(old(e), e)
    {
      var steps: nat := *;
      while steps > 0
        invariant Inv(e) && Rely(old(e), e)
      {
        var step: EnvStep := *;
        if Enabled(e, step) {
          StepKeeps(e, step);
          e := Apply(e, step);
        }
        steps := steps - 1;
      }
    }

    method WriteSpan() returns (offset: nat, length: nat)
      requires Valid()
      modifies this`e
      ensures Valid() && Later(old(e), e) && length == WritableAt(e)
      ensures length != 0 ==>
        && offset == Slot(e.Size(), e.produced) && offset + length <= e.Size()
        && e.produced + length <= e.retired + e.Size()
        && e.ring.producerReservedSequence == e.ring.producer && e.ring.producerReservedCount == length
    {
      Interfere();
      offset, length := ReserveSpan();
    }

    /** The reservation, from one load of the consumer. */
    method ReserveSpan() returns (offset: nat, length: nat)
      requires Inv(e)
      modifies this`e
      ensures Inv(e) && Later(old(e), e) && e.accepted == old(e).accepted && length == WritableAt(e)
      ensures length != 0 ==>
        && offset == Slot(e.Size(), e.produced) && offset + length <= e.Size()
        && e.produced + length <= e.retired + e.Size()
        && e.ring.producerReservedSequence == e.ring.producer && e.ring.producerReservedCount == length
    {
      var size := e.Size();
      var free := size - Available(size, e.ring.producer, e.ring.consumer);
      ReserveExact(e);
      if free == 0 {
        ReservationKeeps(e, e.ring.producerReservedSequence, 0);
        e := e.(ring := e.ring.(producerReservedCount := 0));
        return 0, 0;
      }
      offset := Slot(size, e.ring.producer);
      length := Min(free, size - offset);
      ReservationKeeps(e, e.ring.producer, length);
      e := e.(ring := e.ring.(producerReservedSequence := e.ring.producer, producerReservedCount := length));
    }

    method StoreByte(offset: nat, data: seq<byte>, i: nat)
      requires Inv(e) && offset == Slot(e.Size(), e.produced) && offset + |data| <= e.Size()
      requires e.produced + |data| <= e.retired + e.Size()
      requires i < |data| && Windowed(e, data[..i])
      modifies this`e
      ensures Inv(e) && Windowed(e, data[..i + 1]) && FillerKept(old(e), e)
    {
      Interfere();
      FreeStoreKeeps(e, i, data[i]);
      WindowGrows(e, data, i);
      StoreIsFilling(old(e), e, e.ring.storage[offset + i := data[i]]);
      e := e.(ring := e.ring.(storage := e.ring.storage[offset + i := data[i]]));
    }

    /** The reader stores into the window, byte by byte, while the worker keeps sending. */
    method StoreWindow(offset: nat, data: seq<byte>)
      requires Inv(e) && offset == Slot(e.Size(), e.produced) && offset + |data| <= e.Size()
      requires e.produced + |data| <= e.retired + e.Size()
      modifies this`e
      ensures Inv(e) && Windowed(e, data) && FillerKept(old(e), e)
    {
      for i := 0 to |data|
        invariant Inv(e) && Windowed(e, data[..i]) && FillerKept(old(e), e)
      {
        StoreByte(offset, data, i);
      }
      assert data[..|data|] == data;
    }

    /** Commit what the reader stored; succeeds whenever the count fits the reservation. */
    method CommitProduced(data: seq<byte>) returns (ok: bool)
      requires Inv(e) && Windowed(e, data) && e.produced + |data| <= e.retired + e.Size()
      requires e.ring.producerReservedSequence == e.ring.producer && |data| <= e.ring.producerReservedCount
      modifies this`e
      ensures Inv(e) && ok && e.accepted == old(e).accepted + data && Later(old(e), e)
    {
      Interfere();
      if e.ring.producer != e.ring.producerReservedSequence || |data| > e.ring.producerReservedCount {
        return false;
      }
      StoreProduced(data);
      return true;
    }

    /** The stores of a commit, on one load of the consumer for the peak. */
    method StoreProduced(data: seq<byte>)
      requires Inv(e) && Windowed(e, data) && e.produced + |data| <= e.retired + e.Size()
      modifies this`e
      ensures Inv(e) && e.accepted == old(e).accepted + data && Later(old(e), e)
    {
      var occupancy := Available(e.Size(), Add32(e.ring.producer, |data|), e.ring.consumer);
      var highWatermark := if occupancy > e.ring.highWatermark then occupancy else e.ring.highWatermark;
      ProduceKeeps(e, data, highWatermark);
      e := e.(ring := e.ring.(producer := Add32(e.ring.producer, |data|), producerReservedCount := 0,
                              highWatermark := highWatermark),
              produced := e.produced + |data|,
              accepted := e.accepted + data);
    }

    /** TinyUSB hands over some bytes, at most as many as the span has room for. */
    method UsbRead(length: nat) returns (data: seq<byte>)
      modifies this`handed, this`short
      ensures |data| <= length && handed == old(handed) + data && short == (|data| < length)
    {
      data := *;
      if |data| > length {
        data := data[..length];
      }
      handed, short := handed + data, |data| < length;
    }

    /**
     One pass of the fill loop; `more` is false where the source leaves the loop: on a full ring, or when USB gave less
     than it was asked for.
     */
    method FillPiece(limit: nat) returns (read: nat, more: bool)
      requires Valid() && limit > 0
      modifies this
      ensures Valid() && read <= limit && (more ==> read > 0)
      ensures |handed| == |old(handed)| + read && old(handed) <= handed
      ensures Later(old(e), e) && (more || short || Full(e))
    {
      var offset, length := WriteSpan();
      if length == 0 {
        return 0, false;
      }
      var offered := Min(length, limit);
      var data := UsbRead(offered);
      if data == [] {
        return 0, false;
      }
      StoreWindow(offset, data);
      var ok := CommitProduced(data);
      return |data|, |data| == offered;
    }

    /**
     Fill up to `capacity` bytes from USB; 0 means no limit, and against a live reader and worker the loop then need
     not end: `passes` is how many of its passes are looked at. Every byte the reader hands over is accepted
     (`Valid`), and none is dropped on the way out (`LosslessFifo`).
     */
    method FillTx(capacity: nat, passes: nat) returns (totalRead: nat)
      requires Valid()
      modifies this
      ensures Valid() && Later(old(e), e)
      ensures capacity != 0 ==> totalRead <= capacity
      ensures |handed| == |old(handed)| + totalRead && old(handed) <= handed
      // Why it ended.
      ensures (if capacity == 0 then totalRead >= passes else totalRead == capacity) || short || Full(e)
    {
      totalRead := 0;
      short := false;
      var more, left := true, passes;
      while more && if capacity == 0 then left > 0 else totalRead < capacity
        invariant Valid() && Later(old(e), e)
        invariant capacity != 0 ==> totalRead <= capacity
        invariant |handed| == |old(handed)| + totalRead && old(handed) <= handed
        invariant if more then left <= passes <= totalRead + left else short || Full(e)
        decreases if capacity == 0 then left else capacity - totalRead, more
      {
        var limit := if capacity == 0 then e.Size() else capacity - totalRead;
        var read;
        read, more := FillPiece(limit);
        totalRead := totalRead + read;
        left := if left == 0 then 0 else left - 1;
      }
    }

    /** The worker's restart, while the USB core stays out of the port. */
    method Restart()
      requires Valid()
      modifies this
      ensures Valid() && handed == [] && e == NewSession(old(e))
    {
      RestartKeeps(e);
      handed := [];
      e := e.(transfer := Quiet);
      e := e.(ring := e.ring.(producer := 0, consumer := 0, producerReservedSequence := 0, producerReservedCount := 0,
                              consumerReservedSequence := 0, consumerReservedCount := 0),
              accepted := [], sent := [], produced := 0, txBefore := e.txBefore + e.retired, retired := 0);
    }
  }
}

/**
 The power-of-two byte ring between the USB core, the UART worker and the DMA engine.

 Sequences are 32-bit and wrap. The consumer-side operations are written over the producer value the
 consumer loaded, because a DMA producer never waits: the sequential class below passes its own
 producer, the receive path passes whatever the concurrent load observed.
 */
module RingBuffers {
  import opened Words

  datatype Ring = Ring(
    storage: seq<byte>,
    producer: u32,
    consumer: u32,
    highWatermark: u32,
    overflowCount: u32,
    producerReservedSequence: u32,
    producerReservedCount: u32,
    consumerReservedSequence: u32,
    consumerReservedCount: u32)

  function Available(size: nat, producer: u32, consumer: u32): (n: nat)
    ensures n <= size
  {
    var distance := Sub32(producer, consumer);
    if distance > size then size else distance
  }

  function PendingOverflow(size: nat, producer: u32, consumer: u32): nat {
    var distance := Sub32(producer, consumer);
    if distance > size then distance - size else 0
  }

  /** Consumer recovery: skip the bytes that the loaded producer has already lapped, and count them. */
  function RecoverAt(r: Ring, seen: u32): Ring {
    var overwritten := PendingOverflow(|r.storage|, seen, r.consumer);
    if overwritten == 0 then r else
      r.(consumer := Add32(r.consumer, overwritten),
         overflowCount := SaturatingAdd(r.overflowCount, overwritten),
         consumerReservedCount := 0)
  }

  /** Reservation of the readable span that starts at the consumer. */
  function ReserveReadAt(r: Ring, seen: u32): Ring
    requires RingSize(|r.storage|)
  {
    var occupancy := Available(|r.storage|, seen, r.consumer);
    if occupancy == 0 then r.(consumerReservedCount := 0) else
      r.(consumerReservedSequence := r.consumer,
         consumerReservedCount := Min(occupancy, |r.storage| - Slot(|r.storage|, r.consumer)))
  }

  function CommitConsumedAt(r: Ring, seen: u32, count: nat): (Ring, bool)
    requires RingSize(|r.storage|)
  {
    if r.consumer != r.consumerReservedSequence || count > r.consumerReservedCount then
      (r, false)
    else if Sub32(seen, r.consumerReservedSequence) > |r.storage| then
      var safe := Sub32(seen, |r.storage|);
      (r.(overflowCount := SaturatingAdd(r.overflowCount, Sub32(safe, r.consumer)),
          consumer := safe, consumerReservedCount := 0), false)
    else
      (r.(consumer := Add32(r.consumer, count), consumerReservedCount := 0), true)
  }

  /** Commit of bytes that were copied out and validated before the producer lapped them. */
  function CommitSnapshotAt(r: Ring, seen: u32, count: nat): (Ring, bool)
    requires RingSize(|r.storage|)
  {
    if r.consumer != r.consumerReservedSequence || count > r.consumerReservedCount then
      (r, false)
    else
      var accepted := Add32(r.consumerReservedSequence, count);
      var safe := Sub32(seen, |r.storage|);
      var advance := Sub32(safe, r.consumerReservedSequence);
      if Sub32(seen, r.consumerReservedSequence) > |r.storage| && advance > count then
        (r.(overflowCount := SaturatingAdd(r.overflowCount, advance - count),
            consumer := safe, consumerReservedCount := 0), true)
      else
        (r.(consumer := accepted, consumerReservedCount := 0), true)
  }

  /** The queue a ring stands for: its newest bytes, oldest first. */
  ghost function Contents(r: Ring): (q: seq<byte>)
    requires RingSize(|r.storage|)
    ensures |q| == Available(|r.storage|, r.producer, r.consumer)
  {
    var n := Available(|r.storage|, r.producer, r.consumer);
    var first := Sub32(r.producer, n);
    seq(n, i requires 0 <= i < n => r.storage[Slot(|r.storage|, first + i)])
  }

  /** Recovery discards only bytes that are already gone: the queue itself does not change. */
  lemma RecoverKeepsContents(r: Ring)
    requires RingSize(|r.storage|)
    ensures var r' := RecoverAt(r, r.producer);
      Contents(r') == Contents(r) && PendingOverflow(|r.storage|, r'.producer, r'.consumer) == 0
  {
  }

  /** A reserved span is the front of the queue. */
  lemma SpanIsFront(r: Ring, offset: nat, length: nat)
    requires RingSize(|r.storage|)
    requires PendingOverflow(|r.storage|, r.producer, r.consumer) == 0
    requires offset == Slot(|r.storage|, r.consumer)
    requires length <= Min(|Contents(r)|, |r.storage| - offset)
    ensures r.storage[offset..offset + length] == Contents(r)[..length]
  {
    forall k | 0 <= k < length
      ensures r.storage[offset..offset + length][k] == Contents(r)[..length][k]
    {
      SlotOfSum(|r.storage|, r.consumer, k);
    }
  }

  lemma ConsumeDropsFront(r: Ring, r': Ring, count: nat)
    requires RingSize(|r.storage|)
    requires PendingOverflow(|r.storage|, r.producer, r.consumer) == 0
    requires count <= |Contents(r)|
    requires r'.storage == r.storage && r'.producer == r.producer
    requires r'.consumer == Add32(r.consumer, count)
    ensures Contents(r') == Contents(r)[count..]
  {
    var n := |Contents(r)|;
    forall i | 0 <= i < n - count
      ensures Contents(r')[i] == Contents(r)[count + i]
    {
      AdvancedSlot(|r.storage|, r.consumer, count, i);
    }
  }

  /** The slot of a byte behind an advanced consumer, wrapped or not. */
  lemma AdvancedSlot(size: nat, consumer: u32, count: u32, i: nat)
    requires RingSize(size)
    ensures Slot(size, Add32(consumer, count) + i) == Slot(size, consumer + count + i)
  {
    SumFollows(consumer, count);
    SlotOfLow32(size, consumer + count);
    SlotOfSum(size, consumer + count, i);
    SlotOfSum(size, Add32(consumer, count), i);
  }

  /** `data` was copied to `offset` and nothing else changed. */
  ghost predicate Placed(before: seq<byte>, after: seq<byte>, offset: nat, data: seq<byte>) {
    && offset + |data| <= |before| == |after|
    && (forall j :: 0 <= j < |before| ==>
      after[j] == if offset <= j < offset + |data| then data[j - offset] else before[j])
  }

  /** The free space behind a queue shares no slot with the queue. */
  lemma OutsideWindow(size: nat, first: nat, n: nat, length: nat, i: nat)
    requires 0 < size && i < n && n + length <= size
    requires Slot(size, first + n) + length <= size
    ensures !(Slot(size, first + n) <= Slot(size, first + i) < Slot(size, first + n) + length)
  {
    var offset, slot := Slot(size, first + n), Slot(size, first + i);
    if offset <= slot < offset + length {
      SlotOfSum(size, first + n, slot - offset);
      SlotsDiffer(size, first + i, first + n + (slot - offset));
    }
  }

  /** Bytes placed in the free space behind the queue and then published are appended to it. */
  lemma ProduceAppends(r: Ring, r': Ring, data: seq<byte>)
    requires RingSize(|r.storage|)
    requires Sub32(r.producer, r.consumer) <= |r.storage|
    requires |data| <= |r.storage| - Sub32(r.producer, r.consumer)
    requires Placed(r.storage, r'.storage, Slot(|r.storage|, r.producer), data)
    requires r'.producer == Add32(r.producer, |data|) && r'.consumer == r.consumer
    ensures Contents(r') == Contents(r) + data
  {
    var n := |Contents(r)|;
    forall i | 0 <= i < n + |data|
      ensures Contents(r')[i] == (Contents(r) + data)[i]
    {
      ProduceAt(|r.storage|, r.consumer, n, |data|, i);
    }
  }

  lemma ProduceAt(size: nat, consumer: u32, n: nat, length: nat, i: nat)
    requires RingSize(size) && n + length <= size && i < n + length
    requires Slot(size, Low32(consumer + n)) + length <= size
    ensures var slot, offset := Slot(size, consumer + i), Slot(size, Low32(consumer + n));
      if i < n then !(offset <= slot < offset + length) else slot == offset + (i - n)
  {
    SlotOfLow32(size, consumer + n);
    if i < n {
      OutsideWindow(size, consumer, n, length, i);
    } else {
      SlotOfSum(size, consumer + n, i - n);
    }
  }

  /** One byte over a full queue pushes the oldest byte out of it. */
  lemma OverwriteAppends(r: Ring, r': Ring, value: byte)
    requires RingSize(|r.storage|)
    requires Sub32(r.producer, r.consumer) <= |r.storage|
    requires r'.storage == r.storage[Slot(|r.storage|, r.producer) := value]
    requires r'.producer == Add32(r.producer, 1) && r'.consumer == r.consumer
    ensures var full := |Contents(r)| == |r.storage|;
      && PendingOverflow(|r'.storage|, r'.producer, r'.consumer) == (if full then 1 else 0)
      && Contents(r') == (Contents(r) + [value])[if full then 1 else 0..]
  {
    if |Contents(r)| < |r.storage| {
      ProduceAppends(r, r', [value]);
      assert (Contents(r) + [value])[0..] == Contents(r) + [value];
    } else {
      forall i | 0 <= i < |r.storage|
        ensures Contents(r')[i] == (Contents(r) + [value])[1 + i]
      {
        FullOverwriteAt(|r.storage|, r.consumer, i);
      }
    }
  }

  lemma FullOverwriteAt(size: nat, consumer: u32, i: nat)
    requires RingSize(size) && i < size
    ensures var slot := Slot(size, Low32(consumer + 1) + i);
      && slot == Slot(size, consumer + 1 + i)
      && (slot == Slot(size, Low32(consumer + size)) <==> i + 1 == size)
  {
    SlotAfterWrap(size, consumer, i);
    SlotAfterWrap(size, consumer, size - 1);
    if i + 1 < size {
      SlotsDiffer(size, consumer + 1 + i, consumer + size);
    }
  }

  lemma SlotAfterWrap(size: nat, consumer: u32, i: nat)
    requires RingSize(size) && i < size
    ensures Slot(size, Low32(consumer + 1) + i) == Slot(size, consumer + 1 + i)
    ensures Slot(size, Low32(consumer + 1 + i)) == Slot(size, consumer + 1 + i)
  {
    SlotOfLow32(size, consumer + 1);
    SlotOfLow32(size, consumer + 1 + i);
    SlotOfSum(size, consumer + 1, i);
    SlotOfSum(size, Low32(consumer + 1), i);
  }

  /** The ring as the firmware keeps it: shared storage and cursors updated in place. */
  class RingBuffer {
    const storage: array<byte>
    var producer: u32
    var consumer: u32
    var highWatermark: u32
    var overflowCount: u32
    var producerReservedSequence: u32
    var producerReservedCount: u32
    var consumerReservedSequence: u32
    var consumerReservedCount: u32

    ghost function View(): Ring
      reads this, storage
    {
      Ring(storage[..], producer, consumer, highWatermark, overflowCount, producerReservedSequence,
           producerReservedCount, consumerReservedSequence, consumerReservedCount)
    }

    ghost predicate Valid()
      reads this, storage
    {
      RingSize(storage.Length) && highWatermark <= storage.Length
    }

    /** The queued bytes. */
    ghost function Queue(): seq<byte>
      requires Valid()
      reads this, storage
    {
      Contents(View())
    }

    /** No byte has been overwritten before the consumer reached it. */
    ghost predicate Intact()
      reads this
    {
      Sub32(producer, consumer) <= storage.Length
    }

    constructor (storage: array<byte>)
      requires RingSize(storage.Length)
      ensures Valid() && Intact() && this.storage == storage && Queue() == []
      ensures producer == consumer == 0 && overflowCount == 0
    {
      this.storage := storage;
      producer, consumer, highWatermark, overflowCount := 0, 0, 0, 0;
      producerReservedSequence, producerReservedCount := 0, 0;
      consumerReservedSequence, consumerReservedCount := 0, 0;
    }

    method Clear()
      requires Valid()
      modifies this
      ensures Valid() && Intact() && Queue() == []
      ensures producer == consumer == 0
      ensures overflowCount == old(overflowCount) && highWatermark == old(highWatermark)
    {
      producer := 0;
      consumer := 0;
      producerReservedSequence := 0;
      producerReservedCount := 0;
      consumerReservedSequence := 0;
      consumerReservedCount := 0;
    }

    method UpdateHighWatermark()
      requires Valid()
      modifies this`highWatermark
      ensures Valid()
      ensures highWatermark == if |Queue()| > old(highWatermark) then |Queue()| else old(highWatermark)
    {
      var available := Available(storage.Length, producer, consumer);
      if available > highWatermark {
        highWatermark := available;
      }
    }

    method RecoverOverflow() returns (overwritten: nat)
      requires Valid()
      modifies this
      ensures View() == RecoverAt(old(View()), producer)
      ensures overwritten == old(PendingOverflow(storage.Length, producer, consumer))
      ensures Valid() && Intact() && Queue() == old(Queue()) && unchanged(storage)
    {
      RecoverKeepsContents(View());
      overwritten := PendingOverflow(storage.Length, producer, consumer);
      if overwritten != 0 {
        consumer := Add32(consumer, overwritten);
        overflowCount := SaturatingAdd(overflowCount, overwritten);
        consumerReservedCount := 0;
      }
    }

    /** A port restart empties the receive ring without changing the loss that a statistics sample shows. */
    method Restart()
      requires Valid()
      modifies this
      ensures Valid() && Intact() && Queue() == [] && unchanged(storage)
      ensures SaturatingAdd(overflowCount, PendingOverflow(storage.Length, producer, consumer)) ==
              old(SaturatingAdd(overflowCount, PendingOverflow(storage.Length, producer, consumer)))
    {
      var overwritten := RecoverOverflow();
      Clear();
    }

    /** Offer the readable front of the queue; empty exactly when the queue is. */
    method ReadSpan() returns (offset: nat, length: nat)
      requires Valid()
      modifies this
      ensures Valid() && Intact() && unchanged(storage)
      ensures View() == ReserveReadAt(RecoverAt(old(View()), producer), producer)
      ensures offset + length <= storage.Length && length == consumerReservedCount
      ensures Queue() == old(Queue()) && length <= |Queue()| && (length == 0 <==> Queue() == [])
      ensures storage[offset..offset + length] == Queue()[..length]
      ensures length != 0 ==> consumer == consumerReservedSequence
      ensures length == 0 || length == |Queue()| || offset + length == storage.Length
    {
      var lost := RecoverOverflow();
      var occupancy := Available(storage.Length, producer, consumer);
      if occupancy == 0 {
        consumerReservedCount := 0;
        return 0, 0;
      }
      offset := Slot(storage.Length, consumer);
      length := Min(occupancy, storage.Length - offset);
      consumerReservedSequence := consumer;
      consumerReservedCount := length;
      SpanIsFront(View(), offset, length);
    }

    method CommitConsumed(count: nat) returns (ok: bool)
      requires Valid()
      modifies this
      ensures Valid() && unchanged(storage)
      ensures (View(), ok) == CommitConsumedAt(old(View()), producer, count)
      ensures old(Intact() && consumer == consumerReservedSequence && count <= consumerReservedCount <= |Queue()|)
        ==> ok && Intact() && Queue() == old(Queue())[count..] && overflowCount == old(overflowCount)
    {
      if consumer != consumerReservedSequence || count > consumerReservedCount {
        return false;
      }
      var producerNow := producer;
      if Sub32(producerNow, consumerReservedSequence) > storage.Length {
        var safeConsumer := Sub32(producerNow, storage.Length);
        overflowCount := SaturatingAdd(overflowCount, Sub32(safeConsumer, consumer));
        consumer := safeConsumer;
        consumerReservedCount := 0;
        return false;
      }
      ghost var before := View();
      consumer := Add32(consumer, count);
      consumerReservedCount := 0;
      if count <= |Contents(before)| {
        ConsumeDropsFront(before, View(), count);
      }
      return true;
    }

    /** Offer free space behind the queue. */
    method WriteSpan() returns (offset: nat, length: nat)
      requires Valid()
      modifies this
      ensures Valid() && unchanged(storage) && unchanged(`producer, `consumer, `overflowCount, `highWatermark)
      ensures offset + length <= storage.Length && length == producerReservedCount
      ensures length <= storage.Length - |Queue()| && (length == 0 <==> |Queue()| == storage.Length)
      ensures length != 0 ==> offset == Slot(storage.Length, producer) && producer == producerReservedSequence
      ensures length == 0 || length == storage.Length - |Queue()| || offset + length == storage.Length
      ensures Queue() == old(Queue())
    {
      var free := storage.Length - Available(storage.Length, producer, consumer);
      if free == 0 {
        producerReservedCount := 0;
        return 0, 0;
      }
      offset := Slot(storage.Length, producer);
      length := Min(free, storage.Length - offset);
      producerReservedSequence := producer;
      producerReservedCount := length;
    }

    method CommitProduced(count: nat) returns (ok: bool)
      requires Valid()
      modifies this
      ensures Valid() && unchanged(storage) && unchanged(`consumer, `overflowCount)
      ensures ok <==> old(producer == producerReservedSequence && count <= producerReservedCount)
      ensures producer == if ok then Add32(old(producer), count) else old(producer)
    {
      if producer != producerReservedSequence || count > producerReservedCount {
        return false;
      }
      producer := Add32(producer, count);
      producerReservedCount := 0;
      UpdateHighWatermark();
      return true;
    }

    /** `memcpy` into the reserved window. */
    method CopyIn(offset: nat, data: seq<byte>)
      requires offset + |data| <= storage.Length
      modifies storage
      ensures Placed(old(storage[..]), storage[..], offset, data)
    {
      for i := 0 to |data|
        invariant Placed(old(storage[..]), storage[..], offset, data[..i])
      {
        storage[offset + i] := data[i];
      }
      assert data[..|data|] == data;
    }

    /** Append as much of `data` as fits: exactly the free space, in order, whatever the sequences are. */
    method Write(data: seq<byte>) returns (written: nat)
      requires Valid()
      modifies this, storage
      ensures Valid() && unchanged(`consumer, `overflowCount)
      ensures written == Min(|data|, storage.Length - |old(Queue())|)
      ensures written > 0 || old(Intact()) ==> Queue() == old(Queue()) + data[..written]
      ensures old(Intact()) ==> Intact()
      ensures |old(Queue())| == storage.Length ==> written == 0 && Queue() == old(Queue())
    {
      written := 0;
      while written < |data|
        invariant Valid() && unchanged(`consumer, `overflowCount)
        invariant written <= Min(|data|, storage.Length - |old(Queue())|)
        invariant Queue() == old(Queue()) + data[..written]
        invariant old(Intact()) ==> Intact()
        decreases |data| - written
      {
        var offset, length := WriteSpan();
        if length == 0 {
          break;
        }
        var chunk := Min(|data| - written, length);
        ghost var before := View();
        CopyIn(offset, data[written..written + chunk]);
        var ok := CommitProduced(chunk);
        ProduceAppends(before, View(), data[written..written + chunk]);
        assert data[..written + chunk] == data[..written] + data[written..written + chunk];
        written := written + chunk;
      }
    }

    method WriteByteOverwrite(value: byte)
      requires Valid()
      modifies this, storage
      ensures Valid() && unchanged(`consumer, `overflowCount)
      ensures producer == Add32(old(producer), 1)
      ensures old(Intact()) ==>
        PendingOverflow(storage.Length, producer, consumer) == (if |old(Queue())| == storage.Length then 1 else 0)
      ensures old(Intact()) ==> Queue() == (old(Queue()) + [value])[if |old(Queue())| == storage.Length then 1 else 0..]
    {
      ghost var before := View();
      storage[Slot(storage.Length, producer)] := value;
      producer := Add32(producer, 1);
      producerReservedCount := 0;
      UpdateHighWatermark();
      if Sub32(before.producer, before.consumer) <= storage.Length {
        OverwriteAppends(before, View(), value);
      }
    }

    /** One pass of the read loop: a contiguous piece of the front, non-empty unless the queue is. */
    method ReadPiece(limit: nat) returns (piece: seq<byte>)
      requires Valid() && limit > 0
      modifies this
      ensures Valid() && Intact() && unchanged(storage) && unchanged(`producer)
      ensures |piece| <= Min(limit, |old(Queue())|) && (piece == [] <==> old(Queue()) == [])
      ensures piece == old(Queue())[..|piece|] && Queue() == old(Queue())[|piece|..]
      ensures overflowCount ==
              SaturatingAdd(old(overflowCount), old(PendingOverflow(storage.Length, producer, consumer)))
    {
      var offset, span := ReadSpan();
      if span == 0 {
        return [];
      }
      var chunk := Min(limit, span);
      FrontOfSlice(storage[..], offset, span, chunk);
      piece := storage[offset..offset + chunk];
      var ok := CommitConsumed(chunk);
    }

    /** Take bytes from the front: exactly the available ones, in order; overwritten bytes are skipped first. */
    method Read(length: nat) returns (data: seq<byte>)
      requires Valid()
      modifies this
      ensures Valid() && unchanged(storage) && unchanged(`producer)
      ensures |data| == Min(length, |old(Queue())|)
      ensures data == old(Queue())[..|data|] && Queue() == old(Queue())[|data|..]
      ensures length > 0 ==> Intact()
      ensures overflowCount == if length == 0 then old(overflowCount) else
        SaturatingAdd(old(overflowCount), old(PendingOverflow(storage.Length, producer, consumer)))
    {
      data := [];
      ghost var queue := Queue();
      ghost var expected := if length == 0 then overflowCount else
        SaturatingAdd(overflowCount, PendingOverflow(storage.Length, producer, consumer));
      while |data| < length
        invariant Valid() && unchanged(storage) && unchanged(`producer)
        invariant |data| <= Min(length, |queue|)
        invariant data == queue[..|data|] && Queue() == queue[|data|..]
        invariant |data| > 0 ==> Intact() && overflowCount == expected
        invariant |data| == 0 ==> unchanged(this)
        decreases length - |data|
      {
        var piece := ReadPiece(length - |data|);
        if piece == [] {
          break;
        }
        FrontPieces(queue, |data|, |piece|);
        data := data + piece;
      }
    }
  }

  /** The boot-time self-check passes on the ring above: overwrite, reservation limits and sequence wrap. */
  method SelfCheck() returns (ok: bool)
    ensures ok
  {
    var storage := new byte[8](i => 0);
    var input: seq<byte> := [0, 1, 2, 3, 4, 5, 6, 7];
    PowerOfTwoIsRingSize(8);
    ok := SelfCheckOverwrite(storage, input);
    if !ok {
      return false;
    }
    ok := SelfCheckReservations(storage, input);
  }

  method SelfCheckOverwrite(storage: array<byte>, input: seq<byte>) returns (ok: bool)
    requires storage.Length == 8 && input == [0, 1, 2, 3, 4, 5, 6, 7]
    modifies storage
    ensures ok
  {
    PowerOfTwoIsRingSize(8);
    var ring := new RingBuffer(storage);
    var written := ring.Write(input);
    if written != 8 {
      return false;
    }
    assert [] + input[..8] == input;
    ring.WriteByteOverwrite(8);
    if PendingOverflow(8, ring.producer, ring.consumer) != 1 {
      return false;
    }
    assert ring.Queue() == [1, 2, 3, 4, 5, 6, 7, 8];
    ok := SelfCheckRecovery(ring);
  }

  /** After the overwrite: one byte is recovered and counted, and the newest eight come out in order. */
  method SelfCheckRecovery(ring: RingBuffer) returns (ok: bool)
    requires ring.Valid() && ring.storage.Length == 8 && ring.Queue() == [1, 2, 3, 4, 5, 6, 7, 8]
    requires ring.overflowCount == 0 && PendingOverflow(8, ring.producer, ring.consumer) == 1
    modifies ring
    ensures ok
  {
    ghost var queue := ring.Queue();
    var recovered := ring.RecoverOverflow();
    if recovered != 1 || ring.overflowCount != 1 || PendingOverflow(8, ring.producer, ring.consumer) != 0 {
      return false;
    }
    var output := ring.Read(8);
    if |output| != 8 {
      return false;
    }
    assert output == queue[..8] == queue;
    for index := 0 to 8 {
      if output[index] != index + 1 {
        return false;
      }
    }
    ok := true;
  }

  method SelfCheckReservations(storage: array<byte>, input: seq<byte>) returns (ok: bool)
    requires storage.Length == 8 && |input| == 8
    modifies storage
    ensures ok
  {
    PowerOfTwoIsRingSize(8);
    var ring := new RingBuffer(storage);
    var written := ring.Write(input[..6]);
    var output := ring.Read(4);
    if written != 6 || |output| != 4 {
      return false;
    }
    assert ring.producer == 6 && ring.consumer == 4;
    var offset, length := ring.WriteSpan();
    if length != 2 {
      return false;
    }
    var committed := ring.CommitProduced(3);
    if committed {
      return false;
    }
    ring := new RingBuffer(storage);
    written := ring.Write(input[..4]);
    offset, length := ring.ReadSpan();
    if written != 4 || length != 4 {
      return false;
    }
    committed := ring.CommitConsumed(5);
    if committed {
      return false;
    }
    committed := ring.CommitConsumed(4);
    if !committed {
      return false;
    }
    ok := SelfCheckWrap(storage);
  }

  method SelfCheckWrap(storage: array<byte>) returns (ok: bool)
    requires storage.Length == 8
    modifies storage
    ensures ok
  {
    PowerOfTwoIsRingSize(8);
    var ring := new RingBuffer(storage);
    ring.producer := MAX32;
    ring.consumer := MAX32;
    ring.WriteByteOverwrite(0x5a);
    var output := ring.Read(1);
    ok := |output| == 1 && output[0] == 0x5a;
  }
}

/**
 The receive path: a DMA channel fills the ring and never waits, the UART worker publishes its progress,
 and the USB core drains the ring while both keep running.

 Memory is sequentially consistent. Everything that is not the draining core is an environment that takes
 atomic steps: single DMA beats, the completion interrupt, and the worker's individual loads and stores.
 The draining core lets the environment run any number of steps before each of its shared loads.
 */
module RxPath {
  import opened Words
  import opened RingBuffers
  import opened PausedProgress

  /** The receive DMA channel as the worker drives it through a live reconfiguration. */
  datatype Channel =
    | Running
    | Pausing   // enable bit cleared, beats in flight may still retire
    | Settled   // the sampler found the countdown stable
    | Flushed   // the settled progress is published
    | Stopped   // aborted, not started again yet
    | Released  // given back by a deinit

  /** Where the worker stands inside one publication. */
  datatype Publication =
    | Resting
    | Sampled(progress: u32, at: nat)
    | Counted(progress: u32, at: nat)
    | Remembered(produced: u32)

  /** Shared memory, worker and channel; the last block is history that no code reads. */
  datatype Env = Env(
    ring: Ring,
    max: u32,
    statsSequence: nat,
    initialized: bool,
    channel: Channel,
    publication: Publication,
    remaining: u32,
    irqPending: bool,
    writeIndex: nat,
    tracking: Tracking,
    lastProgress: u32,
    rxBytes: u32,
    // history
    countdowns: seq<u32>,
    received: seq<byte>,
    published: nat,
    sampled: nat,
    armed: nat,
    consumed: nat,
    rxBefore: nat)
  {
    function Size(): nat {
      |ring.storage|
    }

    /** The progress register: transfers since the countdown was loaded. */
    function Progress(): u32 {
      Sub32(max, remaining)
    }
  }

  datatype EnvStep =
    | Beat(value: byte)
    | CompletionIrq
    | BeginUpdate
    | SampleProgress
    | CountBytes
    | RememberProgress
    | PublishProducer
    | PollRearm
    | PauseChannel
    | SampleCountdown
    | ResumeChannel
    | AbortChannel
    | StartChannel
    | GiveUp
    | ReleaseChannel
    | EndUpdate

  /** Bytes between two progress samples of one countdown, a re-arm included. */
  function BytesProduced(progress: u32, lastProgress: u32, max: u32): u32 {
    if progress < lastProgress then Add32(Sub32(max, lastProgress), progress) else progress - lastProgress
  }

  /**
   The progress arithmetic is exact if and only if fewer than `max` bytes arrived since the last sample, or the
   countdown was not re-armed in between: `rearms` is the number of reloads that happened on the way.
   */
  lemma BytesProducedExact(progress: u32, lastProgress: u32, max: u32, advance: nat, rearms: nat)
    requires 0 < max && progress <= max && lastProgress <= max
    requires lastProgress + advance == progress + rearms * max
    ensures BytesProduced(progress, lastProgress, max) == advance <==> advance < max || rearms == 0
  {
    if rearms >= 2 {
      Multiple(rearms - 1, max);
      assert rearms * max == (rearms - 1) * max + max;
    }
  }

  /** A concrete lap: one whole countdown between two samples is reported as nothing. */
  lemma WholeCountdownIsLost(max: u32, lastProgress: u32)
    requires 0 < lastProgress <= max
    ensures lastProgress + max == lastProgress + 1 * max
    ensures BytesProduced(lastProgress, lastProgress, max) == 0 != max
  {
  }

  /** Consecutive repeats after which a paused countdown counts as settled. */
  const STABLE_SAMPLES: nat := 3

  /** What code and hardware can do next. */
  predicate Possible(e: Env, step: EnvStep) {
    match step
    case Beat(_) =>
      && e.initialized && e.channel != Stopped && e.channel != Released && e.remaining > 0
      // The deployment assumptions: the worker and the consumer come back in time.
      && |e.received| + 1 < e.sampled + e.max
      && |e.received| + 1 < e.consumed + TWO32
    case CompletionIrq => e.channel == Running && e.irqPending
    case BeginUpdate => e.statsSequence % 2 == 0 && e.initialized
    case SampleProgress =>
      e.statsSequence % 2 == 1 && e.publication == Resting && (e.channel == Running || e.channel == Settled)
    case CountBytes => e.publication.Sampled?
    case RememberProgress => e.publication.Counted?
    case PublishProducer => e.publication.Remembered?
    case PollRearm => Busy(e) && e.channel == Running && e.remaining == 0
    case PauseChannel => Busy(e) && e.channel == Running
    case SampleCountdown => e.channel == Pausing
    case ResumeChannel => e.channel == Pausing && e.countdowns != []
    case AbortChannel => e.channel == Flushed
    case StartChannel => e.channel == Stopped && e.initialized
    case GiveUp => e.channel == Stopped && e.initialized
    case ReleaseChannel => Busy(e) && e.channel == Running && e.initialized
    case EndUpdate => Busy(e) && (e.channel == Running || !e.initialized)
  }

  /** The settled progress has been sampled, and the channel is not restarted yet. */
  predicate AfterSample(e: Env) {
    (e.channel == Settled && e.publication != Resting) || e.channel == Flushed
  }

  /**
   The hardware assumption behind a live reconfiguration: once a paused countdown was found stable and has been
   sampled, no beat retires before the restart. `PauseLosesTheStrays` says what happens without it.
   */
  predicate Stray(e: Env, step: EnvStep) {
    step.Beat? && AfterSample(e)
  }

  predicate Enabled(e: Env, step: EnvStep) {
    Possible(e, step) && !Stray(e, step)
  }

  /** The worker is inside a bracketed update and not in the middle of a publication. */
  predicate Busy(e: Env) {
    e.statsSequence % 2 == 1 && e.publication == Resting
  }

  function NextIndex(size: nat, index: nat): nat {
    if index + 1 == size then 0 else index + 1
  }

  function Apply(e: Env, step: EnvStep): Env
    requires RingSize(e.Size()) && e.writeIndex < e.Size() && e.remaining <= e.max
    requires step.SampleCountdown? ==> e.channel == Pausing
  {
    match step
    case Beat(value) =>
      if e.remaining == 0 then e else
        e.(ring := e.ring.(storage := e.ring.storage[e.writeIndex := value]),
           writeIndex := NextIndex(e.Size(), e.writeIndex),
           remaining := e.remaining - 1,
           irqPending := e.irqPending || e.remaining == 1,
           received := e.received + [value])
    case CompletionIrq =>
      if e.remaining == 0 then Rearmed(e) else e.(irqPending := false)
    case BeginUpdate => e.(statsSequence := e.statsSequence + 1)
    case SampleProgress => e.(publication := Sampled(e.Progress(), |e.received|))
    case CountBytes =>
      if !e.publication.Sampled? then e else
        var produced := BytesProduced(e.publication.progress, e.lastProgress, e.max);
        e.(rxBytes := Add32(e.rxBytes, produced),
           publication := Counted(e.publication.progress, e.publication.at))
    case RememberProgress =>
      if !e.publication.Counted? then e else
        var produced := BytesProduced(e.publication.progress, e.lastProgress, e.max);
        e.(lastProgress := e.publication.progress,
           sampled := e.publication.at,
           publication := Remembered(produced))
    case PublishProducer =>
      if !e.publication.Remembered? then e else
        var ring := ProduceExternal(e.ring, e.publication.produced);
        e.(ring := ring,
           published := e.published + e.publication.produced,
           publication := Resting,
           channel := if e.channel == Settled then Flushed else e.channel)
    case PollRearm => Rearmed(e)
    case PauseChannel => e.(channel := Pausing, countdowns := [])
    case SampleCountdown => Sampling(e)
    case ResumeChannel => e.(channel := Running)
    case AbortChannel => e.(channel := Stopped, irqPending := false)
    case StartChannel =>
      e.(channel := Running,
         writeIndex := Slot(e.Size(), e.ring.producer),
         remaining := e.max,
         irqPending := false,
         lastProgress := 0,
         armed := |e.received|)
    case GiveUp => e.(initialized := false)
    case ReleaseChannel => e.(channel := Released, irqPending := false, initialized := false)
    case EndUpdate => e.(statsSequence := e.statsSequence + 1)
  }

  /** One look at the paused countdown: the first sets the sampler up, a later one may settle the channel. */
  function Sampling(e: Env): Env {
    if e.countdowns == [] then
      e.(tracking := Tracking(e.remaining, 0), countdowns := [e.remaining])
    else
      var (tracking, stable) := Feed(e.tracking, e.remaining, STABLE_SAMPLES);
      e.(tracking := tracking, countdowns := e.countdowns + [e.remaining],
         channel := if stable then Settled else Pausing)
  }

  /** Reload of the countdown; the write address is left alone. */
  function Rearmed(e: Env): Env {
    e.(remaining := e.max, irqPending := false, armed := |e.received|)
  }

  function ProduceExternal(r: Ring, count: u32): Ring
    requires RingSize(|r.storage|)
  {
    if count == 0 then r else
      var producer := Add32(r.producer, count);
      var occupancy := Available(|r.storage|, producer, r.consumer);
      r.(producer := producer, producerReservedCount := 0,
         highWatermark := if occupancy > r.highWatermark then occupancy else r.highWatermark)
  }

  /** The storage holds the newest bytes, each in the slot of its position. */
  ghost predicate HoldsNewest(storage: seq<byte>, received: seq<byte>)
    requires 0 < |storage|
  {
    forall i {:trigger Slot(|storage|, i)} ::
      0 <= i < |received| <= i + |storage| ==> storage[Slot(|storage|, i)] == received[i]
  }

  /** The last remembered sample, read against the present countdown. */
  ghost predicate SampleFits(progress: u32, at: nat, armed: nat, max: u32) {
    || (armed <= at && progress == at - armed)
    || (at <= armed && progress == at + max - armed)
  }

  ghost predicate PublicationFits(e: Env) {
    match e.publication
    case Resting => e.published == e.sampled && e.rxBytes == Low32(e.rxBefore + e.sampled)
    case Sampled(progress, at) =>
      && e.published == e.sampled <= at <= |e.received| && SampleFits(progress, at, e.armed, e.max)
      && BytesProduced(progress, e.lastProgress, e.max) == at - e.sampled
      && e.rxBytes == Low32(e.rxBefore + e.sampled)
      && (e.channel == Settled ==> at == |e.received|)
    case Counted(progress, at) =>
      && e.published == e.sampled <= at <= |e.received| && SampleFits(progress, at, e.armed, e.max)
      && BytesProduced(progress, e.lastProgress, e.max) == at - e.sampled
      && e.rxBytes == Low32(e.rxBefore + at)
      && (e.channel == Settled ==> at == |e.received|)
    case Remembered(produced) =>
      && e.published + produced == e.sampled
      && e.rxBytes == Low32(e.rxBefore + e.sampled)
      && (e.channel == Settled ==> e.sampled == |e.received|)
  }

  ghost predicate Inv(e: Env) {
    && RingSize(e.Size()) && 0 < e.max
    && e.ring.producer == Low32(e.published) && e.ring.consumer == Low32(e.consumed)
    && e.consumed <= e.published <= e.sampled <= |e.received| < e.consumed + TWO32
    && |e.received| < e.sampled + e.max
    && e.ring.highWatermark <= e.Size()
    && HoldsNewest(e.ring.storage, e.received)
    && e.writeIndex < e.Size()
    && e.remaining <= e.max
    && (e.channel != Stopped ==>
      && e.writeIndex == Slot(e.Size(), |e.received|)
      && e.armed + e.Progress() == |e.received|
      && SampleFits(e.lastProgress, e.sampled, e.armed, e.max))
    && PublicationFits(e)
    && (e.publication != Resting ==>
      e.statsSequence % 2 == 1 && (e.channel == Running || e.channel == Settled))
    && (e.channel == Flushed || e.channel == Stopped ==> e.published == |e.received|)
    && (e.channel != Running ==> e.statsSequence % 2 == 1 || !e.initialized)
    && (!e.initialized ==> e.channel == Stopped || e.channel == Released)
    && (e.channel == Released ==> !e.initialized)
    && SettledByVerdict(e)
  }

  /** A paused channel is settled exactly on the sampler's verdict over all samples since the pause. */
  ghost predicate SettledByVerdict(e: Env) {
    && (e.channel == Pausing ==> e.countdowns == [] || Tracks(e.tracking, e.countdowns))
    && (e.channel == Settled ==> Streak(e.countdowns) >= STABLE_SAMPLES)
  }

  /** What the draining core may rely on while the environment runs. */
  ghost predicate Rely(e: Env, f: Env) {
    && f.Size() == e.Size() && f.max == e.max && f.rxBefore == e.rxBefore
    && f.ring.consumer == e.ring.consumer && f.ring.overflowCount == e.ring.overflowCount
    && f.ring.consumerReservedSequence == e.ring.consumerReservedSequence
    && f.ring.consumerReservedCount == e.ring.consumerReservedCount
    && f.consumed == e.consumed
    && e.received <= f.received
    && e.published <= f.published && e.sampled <= f.sampled
    && e.statsSequence <= f.statsSequence
    // An even statistics sequence that has not moved means the worker published nothing.
    && (e.statsSequence == f.statsSequence && e.statsSequence % 2 == 0 ==>
      && f.published == e.published && f.ring.producer == e.ring.producer
      && f.sampled == e.sampled && f.lastProgress == e.lastProgress && f.initialized == e.initialized)
  }

  lemma RelyTransitive(e: Env, f: Env, g: Env)
    requires Rely(e, f) && Rely(f, g)
    ensures Rely(e, g)
  {
  }

  /** The progress register and the remembered sample always tell the exact number of unpublished bytes. */
  lemma UnpublishedExact(e: Env)
    requires Inv(e) && e.channel != Stopped
    ensures BytesProduced(e.Progress(), e.lastProgress, e.max) == |e.received| - e.sampled
  {
  }

  /**
   Exactly-once publication: the DMA write index is the slot of the published sequence advanced by the
   unpublished progress, and every published byte is a received byte published once, in order.
   */
  lemma WriteIndexTracksProducer(e: Env)
    requires Inv(e) && e.channel != Stopped && e.publication == Resting
    ensures var unpublished := BytesProduced(e.Progress(), e.lastProgress, e.max);
      && e.writeIndex == Slot(e.Size(), Add32(e.ring.producer, unpublished))
      && e.published + unpublished == |e.received|
  {
    UnpublishedExact(e);
    SumFollows(e.published, |e.received| - e.published);
    SlotOfLow32(e.Size(), |e.received|);
  }

  lemma BeatKeepsNewest(storage: seq<byte>, received: seq<byte>, value: byte)
    requires 0 < |storage| && HoldsNewest(storage, received)
    ensures HoldsNewest(storage[Slot(|storage|, |received|) := value], received + [value])
  {
    forall i | 0 <= i < |received| && |received| + 1 <= i + |storage|
      ensures Slot(|storage|, i) != Slot(|storage|, |received|)
    {
      SlotsDiffer(|storage|, i, |received|);
    }
  }

  lemma IndexFollows(size: nat, n: nat)
    requires 0 < size
    ensures NextIndex(size, Slot(size, n)) == Slot(size, n + 1)
  {
    SlotOfSum(size, n, 1);
  }

  lemma BeatKeeps(e: Env, value: byte)
    requires Inv(e) && Enabled(e, Beat(value))
    ensures Inv(Apply(e, Beat(value))) && Rely(e, Apply(e, Beat(value)))
  {
    BeatKeepsNewest(e.ring.storage, e.received, value);
    IndexFollows(e.Size(), |e.received|);
  }

  lemma SampleKeeps(e: Env)
    requires Inv(e) && Enabled(e, SampleProgress)
    ensures Inv(Apply(e, SampleProgress)) && Rely(e, Apply(e, SampleProgress))
  {
    UnpublishedExact(e);
  }

  lemma CountKeeps(e: Env)
    requires Inv(e) && Enabled(e, CountBytes)
    ensures Inv(Apply(e, CountBytes)) && Rely(e, Apply(e, CountBytes))
  {
    SumFollows(e.rxBefore + e.sampled, e.publication.at - e.sampled);
  }

  lemma PublishKeeps(e: Env)
    requires Inv(e) && Enabled(e, PublishProducer)
    ensures Inv(Apply(e, PublishProducer)) && Rely(e, Apply(e, PublishProducer))
  {
    SumFollows(e.published, e.publication.produced);
  }

  /** Each load and store of a publication, whatever happens between two of them. */
  lemma PublicationKeeps(e: Env, step: EnvStep)
    requires Inv(e) && Enabled(e, step)
    requires step.SampleProgress? || step.CountBytes? || step.RememberProgress? || step.PublishProducer?
    ensures Inv(Apply(e, step)) && Rely(e, Apply(e, step))
  {
    match step
    case SampleProgress => SampleKeeps(e);
    case CountBytes => CountKeeps(e);
    case RememberProgress =>
    case PublishProducer => PublishKeeps(e);
  }

  lemma ReloadKeeps(e: Env)
    requires Inv(e) && e.channel == Running && e.remaining == 0
    ensures Inv(Rearmed(e)) && Rely(e, Rearmed(e))
  {
  }

  lemma RearmKeeps(e: Env, step: EnvStep)
    requires Inv(e) && Enabled(e, step) && (step.CompletionIrq? || step.PollRearm?)
    ensures Inv(Apply(e, step)) && Rely(e, Apply(e, step))
  {
    if e.remaining == 0 {
      ReloadKeeps(e);
    }
  }

  lemma StartKeeps(e: Env)
    requires Inv(e) && Enabled(e, StartChannel)
    ensures Inv(Apply(e, StartChannel)) && Rely(e, Apply(e, StartChannel))
  {
    SlotOfLow32(e.Size(), e.published);
  }

  lemma PauseKeeps(e: Env, step: EnvStep)
    requires Inv(e) && Enabled(e, step) && (step.PauseChannel? || step.ResumeChannel? || step.AbortChannel?)
    ensures Inv(Apply(e, step)) && Rely(e, Apply(e, step))
  {
  }

  lemma EndKeeps(e: Env, step: EnvStep)
    requires Inv(e) && Enabled(e, step)
    requires step.BeginUpdate? || step.EndUpdate? || step.GiveUp? || step.ReleaseChannel?
    ensures Inv(Apply(e, step)) && Rely(e, Apply(e, step))
  {
  }

  /** Re-arm by interrupt or poll, pause, resume, abort, restart, give-up and release. */
  lemma ChannelKeeps(e: Env, step: EnvStep)
    requires Inv(e) && Enabled(e, step)
    requires !step.Beat? && !step.SampleProgress? && !step.CountBytes? && !step.RememberProgress?
    requires !step.PublishProducer? && !step.SampleCountdown?
    ensures Inv(Apply(e, step)) && Rely(e, Apply(e, step))
  {
    match step
    case CompletionIrq => RearmKeeps(e, step);
    case PollRearm => RearmKeeps(e, step);
    case StartChannel => StartKeeps(e);
    case PauseChannel => PauseKeeps(e, step);
    case ResumeChannel => PauseKeeps(e, step);
    case AbortChannel => PauseKeeps(e, step);
    case _ => EndKeeps(e, step);
  }

  /** A look at the paused countdown settles the channel exactly after three repeats in a row. */
  lemma SettlingKeeps(e: Env)
    requires Inv(e) && Enabled(e, SampleCountdown)
    ensures var next := Apply(e, SampleCountdown);
      && Inv(next) && Rely(e, next) && next.countdowns == e.countdowns + [e.remaining]
      && (next.channel == Settled <==> Streak(next.countdowns) >= STABLE_SAMPLES)
  {
    if e.countdowns == [] {
      assert [e.remaining] == e.countdowns + [e.remaining];
    } else {
      FeedTracks(e.tracking, e.countdowns, e.remaining, STABLE_SAMPLES);
    }
  }

  /** Outside a restart of the channel, a countdown is loaded again only once it has run out. */
  lemma RearmOnlyWhenExhausted(e: Env, step: EnvStep)
    requires Inv(e) && Enabled(e, step) && !step.StartChannel? && e.remaining != 0
    ensures var next := Apply(e, step);
      next.armed == e.armed && next.remaining == if step.Beat? then e.remaining - 1 else e.remaining
  {
  }

  /** Every environment step keeps the invariant and stays within what the draining core relies on. */
  lemma StepKeeps(e: Env, step: EnvStep)
    requires Inv(e) && Enabled(e, step)
    ensures Inv(Apply(e, step)) && Rely(e, Apply(e, step))
  {
    match step
    case Beat(value) => BeatKeeps(e, value);
    case SampleProgress => PublicationKeeps(e, step);
    case CountBytes => PublicationKeeps(e, step);
    case RememberProgress => PublicationKeeps(e, step);
    case PublishProducer => PublicationKeeps(e, step);
    case SampleCountdown => SettlingKeeps(e);
    case _ => ChannelKeeps(e, step);
  }

  // ---- Beats after the sample ------------------------------------------------------------------------------

  /** The bytes of the beats among `steps`. */
  function Beats(steps: seq<EnvStep>): nat {
    if steps == [] then 0 else (if steps[0].Beat? then 1 else 0) + Beats(steps[1..])
  }

  /** Between the sample of the settled progress and the restart. */
  predicate InRestart(e: Env) {
    AfterSample(e) || e.channel == Stopped
  }

  /** What can happen from `e` on: the steps up to and including the restart of the channel. */
  ghost predicate Restarts(e: Env, steps: seq<EnvStep>)
    decreases |steps|
  {
    && steps != [] && RingSize(e.Size()) && e.writeIndex < e.Size() && e.remaining <= e.max
    && e.channel != Pausing && Possible(e, steps[0])
    && if steps[0].StartChannel? then |steps| == 1 else Restarts(Apply(e, steps[0]), steps[1..])
  }

  ghost function Restarted(e: Env, steps: seq<EnvStep>): Env
    requires Restarts(e, steps)
    decreases |steps|
  {
    if steps[0].StartChannel? then Apply(e, steps[0]) else Restarted(Apply(e, steps[0]), steps[1..])
  }

  /** `e` is `kept` after `strays` more beats that nothing has sampled. */
  ghost predicate Strayed(kept: Env, e: Env, strays: nat) {
    && e.Size() == kept.Size() && |e.received| == |kept.received| + strays && kept.received <= e.received
    && e.writeIndex < e.Size() && e.remaining <= e.max
    && (strays == 0 ==> e == kept)
    && e == kept.(ring := kept.ring.(storage := e.ring.storage), writeIndex := e.writeIndex,
                  remaining := e.remaining, irqPending := e.irqPending, received := e.received)
  }

  lemma StrayStep(kept: Env, e: Env, strays: nat, step: EnvStep)
    requires Inv(kept) && InRestart(kept) && Strayed(kept, e, strays) && Possible(e, step) && !step.StartChannel?
    ensures var next := Apply(e, step);
      if step.Beat? then Strayed(kept, next, strays + 1)
      else
        && Enabled(kept, step) && Inv(Apply(kept, step)) && InRestart(Apply(kept, step))
        && Strayed(Apply(kept, step), next, strays)
  {
    if !step.Beat? {
      StepKeeps(kept, step);
    }
  }

  lemma StrayStart(kept: Env, e: Env, strays: nat)
    requires Inv(kept) && InRestart(kept) && Strayed(kept, e, strays) && Possible(e, StartChannel)
    ensures var next := Apply(e, StartChannel);
      |next.received| == next.published + strays && (Inv(next) <==> strays == 0)
  {
    if strays == 0 {
      StepKeeps(kept, StartChannel);
    }
  }

  /**
   A live restart loses exactly the beats that retire after the settled progress was sampled: that many received
   bytes are never published, and the receive invariant survives the restart if and only if there is none.
   */
  lemma {:induction false} PauseLosesTheStrays(kept: Env, e: Env, strays: nat, steps: seq<EnvStep>)
    requires Inv(kept) && InRestart(kept) && Strayed(kept, e, strays) && Restarts(e, steps)
    ensures var end := Restarted(e, steps);
      && |end.received| == end.published + strays + Beats(steps)
      && (Inv(end) <==> strays + Beats(steps) == 0)
    decreases |steps|
  {
    if steps[0].StartChannel? {
      StrayStart(kept, e, strays);
      assert steps[1..] == [];
    } else {
      StrayStep(kept, e, strays, steps[0]);
      if steps[0].Beat? {
        PauseLosesTheStrays(kept, Apply(e, steps[0]), strays + 1, steps[1..]);
      } else {
        PauseLosesTheStrays(Apply(kept, steps[0]), Apply(e, steps[0]), strays, steps[1..]);
      }
    }
  }

  /** The same from the sample on, where nothing has strayed yet. */
  lemma RestartIsExact(e: Env, steps: seq<EnvStep>)
    requires Inv(e) && e.channel == Settled && e.publication.Sampled? && Restarts(e, steps)
    ensures var end := Restarted(e, steps);
      && |end.received| - end.published == Beats(steps)
      && (Inv(end) <==> Beats(steps) == 0)
  {
    PauseLosesTheStrays(e, e, 0, steps);
  }
}

/** When a paused DMA countdown counts as settled: the same value in enough consecutive samples. */
module PausedProgress {
  import opened Words

  /** The sampler's two words: the latest sample, and how often it has repeated. */
  datatype Tracking = Tracking(last: u32, stableCount: nat)

  /** One more sample, and whether the countdown now counts as settled. */
  function Feed(t: Tracking, now: u32, needed: nat): (Tracking, bool) {
    if needed == 0 then (t, false)
    else if now == t.last then (Tracking(now, t.stableCount + 1), t.stableCount + 1 >= needed)
    else (Tracking(now, 0), false)
  }

  /** How many of the latest samples repeat the one before them without a break. */
  function Streak(samples: seq<u32>): nat {
    if |samples| < 2 then 0
    else if samples[|samples| - 1] != samples[|samples| - 2] then 0
    else Streak(samples[..|samples| - 1]) + 1
  }

  /** A streak is a constant tail: its samples and the one before them are all equal. */
  lemma {:induction false} StreakIsConstantTail(samples: seq<u32>, n: nat)
    requires 0 < n
    ensures Streak(samples) >= n <==>
      n < |samples| && forall i :: |samples| - n - 1 <= i < |samples| ==> samples[i] == samples[|samples| - 1]
    decreases |samples|
  {
    if |samples| >= 2 {
      var front := samples[..|samples| - 1];
      assert samples[|samples| - 2] == front[|front| - 1];
      if n > 1 {
        StreakIsConstantTail(front, n - 1);
        assert forall i :: 0 <= i < |front| ==> front[i] == samples[i];
      }
    }
  }

  /** The two words know the streak of everything sampled so far. */
  ghost predicate Tracks(t: Tracking, samples: seq<u32>) {
    samples != [] && t.last == samples[|samples| - 1] && t.stableCount == Streak(samples)
  }

  /** The verdict is exactly that the last `needed` samples repeat the one before them. */
  lemma FeedTracks(t: Tracking, samples: seq<u32>, now: u32, needed: nat)
    requires Tracks(t, samples) && needed != 0
    ensures var (next, stable) := Feed(t, now, needed);
      && Tracks(next, samples + [now])
      && (stable <==> Streak(samples + [now]) >= needed)
  {
    var longer := samples + [now];
    assert longer[..|longer| - 1] == samples;
    assert longer[|longer| - 1] == now && longer[|longer| - 2] == samples[|samples| - 1];
  }

  class Tracker {
    var last: u32
    var stableCount: nat
    ghost var samples: seq<u32>

    ghost predicate Valid()
      reads this
    {
      Tracks(Tracking(last, stableCount), samples)
    }

    constructor (first: u32)
      ensures Valid() && samples == [first]
    {
      last, stableCount, samples := first, 0, [first];
    }

    /** Feed one sample; the count may be published exactly when the last `needed` samples repeat. */
    method Sample(now: u32, needed: nat) returns (stable: bool)
      requires Valid()
      modifies this
      ensures Valid() && samples == if needed == 0 then old(samples) else old(samples) + [now]
      ensures (Tracking(last, stableCount), stable) == Feed(Tracking(old(last), old(stableCount)), now, needed)
      ensures stable <==> needed != 0 && Streak(samples) >= needed
    {
      if needed == 0 {
        return false;
      }
      FeedTracks(Tracking(last, stableCount), samples, now, needed);
      samples := samples + [now];
      if now == last {
        stableCount := stableCount + 1;
        return stableCount >= needed;
      }
      last := now;
      stableCount := 0;
      return false;
    }
  }
}

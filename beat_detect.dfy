/**
 * The beat detector and tempo estimator (`BPMDetect`): a bounded FIFO of
 * frame energies, a FIFO of beat times kept to a trailing 10-second window,
 * a three-gate beat test, and a tempo taken from the median inter-beat
 * interval.
 */
module BeatDetection {
  import opened Time
  import opened Statistics
  import opened Sorting

  /** Capacity of the energy history (about one second of frames). */
  const HistorySize: nat := 43
  /** A beat needs the energy to exceed the mean by 30%. */
  const BeatThreshold: real := 1.3
  /** A beat needs the history's variance to exceed this. */
  const VarianceThreshold: real := 0.01
  /** A beat needs more than this many milliseconds since the previous one. */
  const MinBeatIntervalMs: int := 300
  /** Beat times more than this many milliseconds old are evicted. */
  const BeatWindowMs: int := 10000

  function Min(a: int, b: int): int { if a <= b then a else b }

  // ---------------------------------------------------------------------
  // Energy history

  /** The history after enqueueing `energy`: the oldest entry goes once it overflows. */
  function PushEnergy(history: seq<real>, energy: real): seq<real>
  {
    var h := history + [energy];
    if |h| > HistorySize then h[1..] else h
  }

  /** The energy history of a fresh detector after it was fed `energies` in order. */
  function History(energies: seq<real>): seq<real>
  {
    if energies == [] then []
    else PushEnergy(History(energies[..|energies| - 1]), energies[|energies| - 1])
  }

  /**
   * The history holds the most recent `min(n, 43)` energies, in arrival
   * order: it never exceeds its capacity and always drops the oldest.
   */
  lemma {:induction false} HistoryKeepsNewest(energies: seq<real>)
    ensures |History(energies)| == Min(|energies|, HistorySize)
    ensures History(energies) == energies[|energies| - Min(|energies|, HistorySize)..]
  {
    if energies != [] {
      var init := energies[..|energies| - 1];
      HistoryKeepsNewest(init);
      var k := Min(|init|, HistorySize);
      assert init[|init| - k..] + [energies[|energies| - 1]] == energies[|init| - k..];
    }
  }

  /** The newest `min(n, 43)` of `energies`, in arrival order. */
  function Newest(energies: seq<real>): seq<real>
  {
    energies[|energies| - Min(|energies|, HistorySize)..]
  }

  /** Pushing onto the newest energies gives the newest energies of the longer sequence. */
  lemma PushKeepsNewest(energies: seq<real>, energy: real)
    ensures PushEnergy(Newest(energies), energy) == Newest(energies + [energy])
  {
    var w := energies + [energy];
    var k := Min(|energies|, HistorySize);
    assert Newest(energies) + [energy] == w[|energies| - k..];
  }

  /** Pushing a non-negative energy keeps the history non-negative. */
  lemma PushKeepsNonNegative(history: seq<real>, energy: real)
    requires NonNegative(history) && energy >= 0.0
    ensures NonNegative(PushEnergy(history, energy))
  {
    var h := history + [energy];
    var pushed := PushEnergy(history, energy);
    forall i | 0 <= i < |pushed|
      ensures pushed[i] >= 0.0
    {
      if |h| > HistorySize {
        assert pushed[i] == h[i + 1];
      }
    }
  }

  /**
   * The beat test: the history is full, the current energy exceeds 1.3 times
   * the mean, the variance exceeds 0.01, and more than 300 ms passed since
   * the last beat.
   */
  predicate IsBeat(history: seq<real>, energy: real, lastBeat: Stamp, now: int)
  {
    |history| >= HistorySize &&
    energy > Mean(history) * BeatThreshold &&
    Variance(history) > VarianceThreshold &&
    ElapsedExceeds(lastBeat, now, MinBeatIntervalMs)
  }

  /** Warm-up: the first 42 calls on a fresh detector never report a beat. */
  lemma WarmUp(energies: seq<real>, lastBeat: Stamp, now: int)
    requires 0 < |energies| < HistorySize
    ensures !IsBeat(History(energies), energies[|energies| - 1], lastBeat, now)
  {
    HistoryKeepsNewest(energies);
  }

  /** A steady history (all energies equal) has zero variance, so it never beats. */
  lemma SteadyHistoryNeverBeats(history: seq<real>, energy: real, lastBeat: Stamp, now: int)
    requires |history| > 0 && Constant(history, history[0])
    ensures !IsBeat(history, energy, lastBeat, now)
  {
    ConstantHasNoVariance(history, history[0]);
  }

  /** A silent frame (energy 0) never beats over a history of non-negative energies. */
  lemma SilenceNeverBeats(history: seq<real>, lastBeat: Stamp, now: int)
    requires forall i :: 0 <= i < |history| ==> history[i] >= 0.0
    ensures !IsBeat(history, 0.0, lastBeat, now)
  {
    if |history| > 0 {
      MeanOfNonNegative(history);
    }
  }

  // ---------------------------------------------------------------------
  // Beat times

  /** The interval between beat `i` and beat `i + 1`, in milliseconds. */
  function Gap(times: seq<int>, i: nat): int
    requires i + 1 < |times|
  {
    times[i + 1] - times[i]
  }

  /** Consecutive beat times are more than the minimum beat interval apart. */
  ghost predicate Spaced(times: seq<int>)
  {
    forall i :: 0 <= i < |times| - 1 ==> Gap(times, i) > MinBeatIntervalMs
  }

  /** No entry is more than the window older than `newest`. */
  ghost predicate InWindow(times: seq<int>, newest: int)
  {
    forall i :: 0 <= i < |times| ==> newest - times[i] <= BeatWindowMs
  }

  /**
   * What the detector keeps about beats: the times are spaced; none is
   * recorded before the first beat; after one, the newest time is the last
   * beat and every time lies in the 10-second window before it.
   */
  ghost predicate BeatLog(times: seq<int>, lastBeat: Stamp)
  {
    Spaced(times) &&
    (lastBeat.MinValue? ==> times == []) &&
    (lastBeat.At? ==> times != [] && times[|times| - 1] == lastBeat.ms && InWindow(times, lastBeat.ms))
  }

  /** A beat time more than 10 s before `now`. */
  predicate Stale(t: int, now: int)
  {
    now - t > BeatWindowMs
  }

  /**
   * How many beat times the eviction loop dequeues: it stops at the first
   * entry that is not stale (or when the queue is empty).
   */
  function StalePrefix(times: seq<int>, now: int): (k: nat)
    ensures k <= |times|
    ensures forall j :: 0 <= j < k ==> Stale(times[j], now)
    ensures k < |times| ==> !Stale(times[k], now)
    decreases |times|
  {
    if |times| > 0 && Stale(times[0], now) then 1 + StalePrefix(times[1..], now) else 0
  }

  /** The queue left by the eviction loop. */
  function EvictStale(times: seq<int>, now: int): seq<int>
  {
    times[StalePrefix(times, now)..]
  }

  /** The beat times after a beat at `now` was recorded. */
  function RecordBeat(times: seq<int>, now: int): seq<int>
  {
    EvictStale(times + [now], now)
  }

  lemma {:induction false} SpacedIncreasing(times: seq<int>, i: nat, j: nat)
    requires Spaced(times) && i < j < |times|
    ensures times[j] - times[i] > MinBeatIntervalMs
    decreases j - i
  {
    assert Gap(times, j - 1) > MinBeatIntervalMs;
    if i + 1 < j {
      SpacedIncreasing(times, i, j - 1);
    }
  }

  /**
   * In a spaced queue whose newest entry is `now`, eviction removes exactly
   * the stale entries: an entry survives if and only if it is at most 10 s
   * older than `now`. The newest entry always survives.
   */
  lemma EvictionRemovesExactlyStale(times: seq<int>, now: int)
    requires Spaced(times) && times != [] && times[|times| - 1] == now
    ensures StalePrefix(times, now) < |times|
    ensures forall i :: 0 <= i < |times| ==> (i >= StalePrefix(times, now) <==> !Stale(times[i], now))
  {
    var k := StalePrefix(times, now);
    assert !Stale(times[|times| - 1], now);
    forall i | k < i < |times|
      ensures !Stale(times[i], now)
    {
      SpacedIncreasing(times, k, i);
    }
  }

  /**
   * After eviction relative to `now`, where `now` is the newest entry of a
   * spaced queue, `now` is still the newest, the queue stays spaced, and
   * every entry lies in the 10-second window before `now`.
   */
  lemma EvictionKeepsWindow(times: seq<int>, now: int)
    requires Spaced(times) && times != [] && times[|times| - 1] == now
    ensures var r := EvictStale(times, now);
      r != [] && r[|r| - 1] == now && Spaced(r) && InWindow(r, now)
  {
    EvictionRemovesExactlyStale(times, now);
    var k := StalePrefix(times, now);
    var r := times[k..];
    forall i | 0 <= i < |r| - 1
      ensures Gap(r, i) > MinBeatIntervalMs
    {
      assert Gap(r, i) == Gap(times, k + i);
    }
  }

  /** Recording a beat that passed the interval gate keeps the beat log consistent. */
  lemma RecordBeatKeepsLog(times: seq<int>, lastBeat: Stamp, now: int)
    requires BeatLog(times, lastBeat)
    requires ElapsedExceeds(lastBeat, now, MinBeatIntervalMs)
    ensures BeatLog(RecordBeat(times, now), At(now))
  {
    var t := times + [now];
    forall i | 0 <= i < |t| - 1
      ensures Gap(t, i) > MinBeatIntervalMs
    {
      if i < |times| - 1 {
        assert Gap(t, i) == Gap(times, i);
      }
    }
    EvictionKeepsWindow(t, now);
  }

  // ---------------------------------------------------------------------
  // Tempo

  /** The consecutive inter-beat intervals, in milliseconds. */
  function Intervals(times: seq<int>): (r: seq<int>)
    ensures |r| == if times == [] then 0 else |times| - 1
    ensures forall i :: 0 <= i < |r| ==> r[i] == times[i + 1] - times[i]
  {
    if times == [] then []
    else seq(|times| - 1, i requires 0 <= i < |times| - 1 => times[i + 1] - times[i])
  }

  /** The interval the estimator takes: index `count / 2` of the sorted intervals. */
  function MedianInterval(times: seq<int>): (m: int)
    requires |times| >= 2
  {
    Sort(Intervals(times))[(|times| - 1) / 2]
  }

  /** The median interval is one of the intervals; under spacing it is above 300 ms. */
  lemma MedianIsAnInterval(times: seq<int>)
    requires |times| >= 2 && Spaced(times)
    ensures exists i :: 0 <= i < |times| - 1 && MedianInterval(times) == Gap(times, i)
    ensures MedianInterval(times) > MinBeatIntervalMs
  {
    var iv := Intervals(times);
    SortElementOf(iv, (|times| - 1) / 2);
    var m := MedianInterval(times);
    assert m in iv;
    var k :| 0 <= k < |iv| && iv[k] == m;
    assert Gap(times, k) == iv[k];
  }

  function Seconds(ms: int): real
  {
    ms as real / 1000.0
  }

  /**
   * Beats per minute of an interval: 60 over the interval in seconds. A
   * non-positive interval, which the 300 ms gate rules out (see
   * `MedianIsAnInterval`), is given rate 0.
   */
  function RateOf(ms: int): real
  {
    if ms > 0 then 60.0 / Seconds(ms) else 0.0
  }

  /** Beats per minute from the beat times: 0 with fewer than two, else 60 / median interval. */
  function Tempo(times: seq<int>): real
  {
    if |times| < 2 then 0.0 else RateOf(MedianInterval(times))
  }

  /** In a consistent log every inter-beat interval lies in (300 ms, 10 s]. */
  lemma GapWithinWindow(times: seq<int>, lastBeat: Stamp, i: nat)
    requires BeatLog(times, lastBeat) && i + 1 < |times|
    ensures MinBeatIntervalMs < Gap(times, i) <= BeatWindowMs
  {
    var last := |times| - 1;
    assert times[0] <= times[i] by {
      if i > 0 { SpacedIncreasing(times, 0, i); }
    }
    assert times[i + 1] <= times[last] by {
      if i + 1 < last { SpacedIncreasing(times, i + 1, last); }
    }
    assert times[last] - times[0] <= BeatWindowMs;
  }

  /** In a consistent log the median interval lies in (300 ms, 10 s]. */
  lemma MedianWithinWindow(times: seq<int>, lastBeat: Stamp)
    requires BeatLog(times, lastBeat) && |times| >= 2
    ensures MinBeatIntervalMs < MedianInterval(times) <= BeatWindowMs
  {
    MedianIsAnInterval(times);
    var i :| 0 <= i < |times| - 1 && MedianInterval(times) == Gap(times, i);
    GapWithinWindow(times, lastBeat, i);
  }

  /** An interval in (300 ms, 10 s] gives a rate in [6, 200) beats per minute. */
  lemma RateOfInterval(m: int)
    requires MinBeatIntervalMs < m <= BeatWindowMs
    ensures 6.0 <= 60.0 / Seconds(m) < 200.0
  {
    QuotientBounds(60.0, Seconds(m), 6.0, 200.0);
  }

  /**
   * With at least two beats in a consistent log the tempo lies in [6, 200):
   * the 300 ms gate caps it at 200 BPM and the 10 s window floors it at 6.
   */
  lemma TempoRange(times: seq<int>, lastBeat: Stamp)
    requires BeatLog(times, lastBeat) && |times| >= 2
    ensures 6.0 <= Tempo(times) < 200.0
  {
    MedianWithinWindow(times, lastBeat);
    RateOfInterval(MedianInterval(times));
  }

  /**
   * With three beats there are two intervals, and index 2 / 2 = 1 of the
   * sorted pair picks the longer one: the tempo follows the longer interval.
   */
  lemma MedianOfThreeBeats(a: int, b: int, c: int)
    ensures MedianInterval([a, b, c]) == if b - a <= c - b then c - b else b - a
  {
    IntervalsOfThree(a, b, c);
    assert MedianInterval([a, b, c]) == Sort([b - a, c - b])[1];
    SortTwo(b - a, c - b);
  }

  lemma IntervalsOfThree(a: int, b: int, c: int)
    ensures Intervals([a, b, c]) == [b - a, c - b]
  {
    var r := Intervals([a, b, c]);
    assert |r| == 2 && r[0] == b - a && r[1] == c - b;
  }

  /** Beats at 0, 0.5 and 1.0 s: intervals [0.5, 0.5], median 0.5 s, 120 BPM. */
  lemma TempoOfSteadyBeats()
    ensures Tempo([0, 500, 1000]) == 120.0
  {
    var times := [0, 500, 1000];
    assert Gap(times, 0) == 500 && Gap(times, 1) == 500;
    MedianOfThreeBeats(0, 500, 1000);
    assert Seconds(500) == 0.5;
  }

  /**
   * Beats at 0, 0.4 and 1.2 s: sorted intervals [0.4, 0.8]; the upper middle,
   * 0.8 s, gives 75 BPM.
   */
  lemma TempoTakesUpperMiddle()
    ensures Tempo([0, 400, 1200]) == 75.0
  {
    var times := [0, 400, 1200];
    assert Gap(times, 0) == 400 && Gap(times, 1) == 800;
    MedianOfThreeBeats(0, 400, 1200);
    assert Seconds(800) == 0.8;
  }

  // ---------------------------------------------------------------------
  // The detector object

  class BPMDetect {
    var energyHistory: seq<real>
    var beatTimes: seq<int>
    var lastBeatTime: Stamp

    ghost predicate Valid()
      reads this
    {
      |energyHistory| <= HistorySize && BeatLog(beatTimes, lastBeatTime)
    }

    constructor ()
      ensures Valid()
      ensures energyHistory == [] && beatTimes == [] && lastBeatTime == MinValue
    {
      energyHistory := [];
      beatTimes := [];
      lastBeatTime := MinValue;
    }

    /**
     * Feeds one frame energy observed at time `now`. The history takes the
     * energy (dropping its oldest entry on overflow); a beat is reported
     * exactly when `IsBeat` holds of the new history, and only then are the
     * last-beat time and the beat-time queue updated.
     */
    method DetectBeat(currentEnergy: real, now: int) returns (isBeat: bool)
      requires Valid()
      modifies this
      ensures Valid()
      ensures energyHistory == PushEnergy(old(energyHistory), currentEnergy)
      ensures isBeat == IsBeat(energyHistory, currentEnergy, old(lastBeatTime), now)
      ensures isBeat ==> lastBeatTime == At(now) && beatTimes == RecordBeat(old(beatTimes), now)
      ensures !isBeat ==> lastBeatTime == old(lastBeatTime) && beatTimes == old(beatTimes)
    {
      energyHistory := energyHistory + [currentEnergy];
      if |energyHistory| > HistorySize {
        energyHistory := energyHistory[1..];
      }
      if |energyHistory| < HistorySize {
        return false;
      }
      var averageEnergy := Mean(energyHistory);
      var variance := Variance(energyHistory);
      isBeat := currentEnergy > averageEnergy * BeatThreshold &&
                variance > VarianceThreshold &&
                ElapsedExceeds(lastBeatTime, now, MinBeatIntervalMs);
      if isBeat {
        RecordBeatKeepsLog(beatTimes, lastBeatTime, now);
        lastBeatTime := At(now);
        beatTimes := beatTimes + [now];
        EvictStaleBeats(now);
      }
    }

    /** Dequeues the beat times more than 10 s before `now`, oldest first. */
    method EvictStaleBeats(now: int)
      modifies this`beatTimes
      ensures beatTimes == EvictStale(old(beatTimes), now)
    {
      ghost var queued := beatTimes;
      ghost var dropped := 0;
      while |beatTimes| > 0 && now - beatTimes[0] > BeatWindowMs
        invariant dropped <= StalePrefix(queued, now)
        invariant beatTimes == queued[dropped..]
        decreases |beatTimes|
      {
        beatTimes := beatTimes[1..];
        dropped := dropped + 1;
      }
      assert dropped == StalePrefix(queued, now);
    }

    /** The tempo estimate over the stored beat times; see `Tempo` and `TempoRange`. */
    method GetCurrentBPM() returns (bpm: real)
      requires Valid()
      ensures bpm == Tempo(beatTimes)
    {
      if |beatTimes| < 2 {
        return 0.0;
      }
      var beats := beatTimes;
      var intervals := new int[|beats| - 1];
      for i := 1 to |beats|
        invariant forall j :: 0 <= j < i - 1 ==> intervals[j] == beats[j + 1] - beats[j]
      {
        intervals[i - 1] := beats[i] - beats[i - 1];
      }
      assert intervals[..] == Intervals(beats);
      SortInPlace(intervals);
      MedianIsAnInterval(beats);
      var medianInterval := intervals[intervals.Length / 2];
      bpm := 60.0 / Seconds(medianInterval);
    }
  }
}

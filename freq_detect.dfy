/**
 * The frequency detector (`FrequencyDetector`): it accumulates the first
 * channel of each capture chunk into a 2048-sample buffer and, each time the
 * buffer fills, analyses the frame: RMS energy into the beat detector, a
 * tempo refresh at most once per second, and bass/treble band levels from
 * the frame's spectrum. Each analysis raises one result.
 */
module FrequencyDetection {
  import opened Time
  import opened BeatDetection
  import opened FrameAccumulation
  import opened SpectralBands
  import opened Statistics

  /** The cached tempo is refreshed when at least this many milliseconds have passed. */
  const BpmRefreshMs: int := 1000

  /**
   * What the detector takes from its runtime: the clock reading at the
   * `k`-th analysis within one capture callback, the square root used for
   * the RMS energy, and the magnitude of each bin of a frame's windowed FFT.
   */
  datatype Platform = Platform(
    clock: nat -> int,
    squareRoot: real -> Magnitude,
    spectrum: (seq<real>, nat) -> Magnitude)

  /** One raised result: band presence, band levels, beat flag and cached tempo. */
  datatype AnalysisResult = AnalysisResult(
    hasBass: bool, hasTreble: bool,
    bassLevel: real, trebleLevel: real,
    beatDetected: bool, currentBPM: real)

  function SumSquares(s: seq<real>): (r: real)
    ensures r >= 0.0
  {
    if s == [] then 0.0 else SumSquares(s[..|s| - 1]) + s[|s| - 1] * s[|s| - 1]
  }

  /** A frame of silence has zero energy before the root. */
  lemma {:induction false} SilentFrameSquares(s: seq<real>)
    requires forall i :: 0 <= i < |s| ==> s[i] == 0.0
    ensures SumSquares(s) == 0.0
  {
    if s != [] {
      SilentFrameSquares(s[..|s| - 1]);
    }
  }

  /** The RMS energy of a frame, with the root supplied by the runtime. */
  function Energy(frame: seq<real>, squareRoot: real -> Magnitude): real
  {
    squareRoot(SumSquares(frame) / FrameSize as real)
  }

  /** The magnitudes of bins `0 .. Half - 1` of a frame. */
  function Magnitudes(platform: Platform, frame: seq<real>): (m: seq<Magnitude>)
    ensures |m| == Half
  {
    seq<Magnitude>(Half, i requires 0 <= i < Half => platform.spectrum(frame, i))
  }

  /** The mean of the squared samples of the buffer, fed to the root. */
  method FrameEnergy(buffer: array<real>, squareRoot: real -> Magnitude) returns (energy: real)
    requires buffer.Length == FrameSize
    ensures energy == Energy(buffer[..], squareRoot)
  {
    var sum := 0.0;
    for i := 0 to buffer.Length
      invariant sum == SumSquares(buffer[..i])
    {
      assert buffer[..i + 1][..i] == buffer[..i];
      sum := sum + buffer[i] * buffer[i];
    }
    assert buffer[..] == buffer[..buffer.Length];
    energy := squareRoot(sum / FrameSize as real);
  }

  /**
   * The average magnitude of the bass and treble bands of a frame; each is
   * non-negative and at most its band's peak magnitude.
   */
  method BandLevels(frame: seq<real>, sampleRate: nat, platform: Platform) returns (bassAverage: real, trebleAverage: real)
    ensures var spectrum := Bands(Magnitudes(platform, frame), sampleRate);
      bassAverage == Average(spectrum.bass) && trebleAverage == Average(spectrum.treble)
    ensures var spectrum := Bands(Magnitudes(platform, frame), sampleRate);
      0.0 <= bassAverage <= spectrum.bass.peakMagnitude && 0.0 <= trebleAverage <= spectrum.treble.peakMagnitude
  {
    var mags := Magnitudes(platform, frame);
    var bass, treble := AggregateBands(mags, sampleRate);
    bassAverage := if bass.count > 0 then bass.sum / bass.count as real else 0.0;
    trebleAverage := if treble.count > 0 then treble.sum / treble.count as real else 0.0;
    AverageWithinPeak(mags, BinsAt(sampleRate), Bass, Half);
    AverageWithinPeak(mags, BinsAt(sampleRate), Treble, Half);
  }

  /**
   * What every raised result satisfies: presence means the level exceeds
   * the threshold, each level lies between 0 and the running maximum, and the
   * tempo is 0 or in [6, 200).
   */
  predicate Consistent(r: AnalysisResult, maxBass: real, maxTreble: real)
  {
    (r.hasBass <==> r.bassLevel > BassThreshold) &&
    (r.hasTreble <==> r.trebleLevel > TrebleThreshold) &&
    0.0 <= r.bassLevel <= maxBass &&
    0.0 <= r.trebleLevel <= maxTreble &&
    (r.currentBPM == 0.0 || 6.0 <= r.currentBPM < 200.0)
  }

  /** Every result in `results` is consistent with the given running maxima. */
  predicate AllConsistent(results: seq<AnalysisResult>, maxBass: real, maxTreble: real)
  {
    forall k :: 0 <= k < |results| ==> Consistent(results[k], maxBass, maxTreble)
  }

  /**
   * Raising the running maxima keeps earlier results consistent, so results
   * raised before and after a raise are consistent with the new maxima.
   */
  lemma AppendConsistent(earlier: seq<AnalysisResult>, later: seq<AnalysisResult>,
                         maxBass: real, maxTreble: real, newMaxBass: real, newMaxTreble: real)
    requires AllConsistent(earlier, maxBass, maxTreble) && AllConsistent(later, newMaxBass, newMaxTreble)
    requires maxBass <= newMaxBass && maxTreble <= newMaxTreble
    ensures AllConsistent(earlier + later, newMaxBass, newMaxTreble)
  {
    forall k | 0 <= k < |earlier + later|
      ensures Consistent((earlier + later)[k], newMaxBass, newMaxTreble)
    {
      if k < |earlier| {
        assert (earlier + later)[k] == earlier[k] && Consistent(earlier[k], maxBass, maxTreble);
      } else {
        assert (earlier + later)[k] == later[k - |earlier|];
      }
    }
  }

  // ---------------------------------------------------------------------
  // The analysis as a function of the detector's state

  /** What an analysis reads and updates: the beat detector, the cached tempo and the running maxima. */
  datatype DetectorState = DetectorState(
    energyHistory: seq<real>, beatTimes: seq<int>, lastBeatTime: Stamp,
    lastBPM: real, lastBPMUpdate: Stamp,
    maxBassLevel: real, maxTrebleLevel: real)

  /** One analysis: the raised result and the state after it. */
  datatype Step = Step(result: AnalysisResult, next: DetectorState)

  /** A sequence of analyses: the raised results, in order, and the final state. */
  datatype Outcome = Outcome(raised: seq<AnalysisResult>, final: DetectorState)

  /** A running maximum after seeing `level`: raised only by a strictly greater level. */
  function Larger(current: real, level: real): real
  {
    if level > current then level else current
  }

  /** Recording a beat exactly when one passed the gates keeps the beat log consistent. */
  lemma BeatKeepsLog(times: seq<int>, lastBeat: Stamp, now: int, beat: bool)
    requires BeatLog(times, lastBeat)
    requires beat ==> ElapsedExceeds(lastBeat, now, MinBeatIntervalMs)
    ensures BeatLog(if beat then RecordBeat(times, now) else times, if beat then At(now) else lastBeat)
  {
    if beat {
      RecordBeatKeepsLog(times, lastBeat, now);
    }
  }

  /**
   * The analysis of `frame` at clock reading `now` from state `s`: the beat
   * test over the history with the frame's energy pushed, the tempo refresh
   * when at least a second has passed, and the band levels of the frame's
   * spectrum with the running maxima raised to them.
   */
  function Analysis(s: DetectorState, frame: seq<real>, now: int, sampleRate: nat, platform: Platform): Step
  {
    var energy := Energy(frame, platform.squareRoot);
    var history := PushEnergy(s.energyHistory, energy);
    var beat := IsBeat(history, energy, s.lastBeatTime, now);
    var beatTimes := if beat then RecordBeat(s.beatTimes, now) else s.beatTimes;
    var lastBeat := if beat then At(now) else s.lastBeatTime;
    var refresh := ElapsedAtLeast(s.lastBPMUpdate, now, BpmRefreshMs);
    var bpm := if refresh then Tempo(beatTimes) else s.lastBPM;
    var spectrum := Bands(Magnitudes(platform, frame), sampleRate);
    var bass := Average(spectrum.bass);
    var treble := Average(spectrum.treble);
    Step(AnalysisResult(HasBass(spectrum), HasTreble(spectrum), bass, treble, beat, bpm),
         DetectorState(history, beatTimes, lastBeat, bpm, if refresh then At(now) else s.lastBPMUpdate,
                       Larger(s.maxBassLevel, bass), Larger(s.maxTrebleLevel, treble)))
  }

  /**
   * A result and a state that agree with each part of an analysis (the
   * energy pushed, the beat test and its record, the tempo refresh, the band
   * levels and the raised maxima) are that analysis.
   */
  lemma AnalysisOfParts(s: DetectorState, frame: seq<real>, now: int, sampleRate: nat, platform: Platform,
                        result: AnalysisResult, next: DetectorState)
    requires var energy := Energy(frame, platform.squareRoot);
      next.energyHistory == PushEnergy(s.energyHistory, energy) &&
      result.beatDetected == IsBeat(next.energyHistory, energy, s.lastBeatTime, now)
    requires next.lastBeatTime == if result.beatDetected then At(now) else s.lastBeatTime
    requires next.beatTimes == if result.beatDetected then RecordBeat(s.beatTimes, now) else s.beatTimes
    requires if ElapsedAtLeast(s.lastBPMUpdate, now, BpmRefreshMs)
      then next.lastBPM == Tempo(next.beatTimes) && next.lastBPMUpdate == At(now)
      else next.lastBPM == s.lastBPM && next.lastBPMUpdate == s.lastBPMUpdate
    requires result.currentBPM == next.lastBPM
    requires var spectrum := Bands(Magnitudes(platform, frame), sampleRate);
      result.bassLevel == Average(spectrum.bass) && result.trebleLevel == Average(spectrum.treble) &&
      result.hasBass == HasBass(spectrum) && result.hasTreble == HasTreble(spectrum)
    requires next.maxBassLevel == Larger(s.maxBassLevel, result.bassLevel)
    requires next.maxTrebleLevel == Larger(s.maxTrebleLevel, result.trebleLevel)
    ensures Analysis(s, frame, now, sampleRate, platform) == Step(result, next)
  {
  }

  /**
   * The analyses of `frames` in order from state `s`, the `k`-th at clock
   * reading `platform.clock(k)`.
   */
  function Run(s: DetectorState, frames: seq<seq<real>>, sampleRate: nat, platform: Platform): (o: Outcome)
    ensures |o.raised| == |frames|
    decreases |frames|
  {
    if frames == [] then Outcome([], s)
    else
      var earlier := Run(s, frames[..|frames| - 1], sampleRate, platform);
      var step := Analysis(earlier.final, frames[|frames| - 1], platform.clock(|frames| - 1), sampleRate, platform);
      Outcome(earlier.raised + [step.result], step.next)
  }

  /**
   * One more frame adds its analysis, at the next clock reading, from the
   * state the earlier frames left.
   */
  lemma RunSnoc(s: DetectorState, frames: seq<seq<real>>, frame: seq<real>, sampleRate: nat, platform: Platform,
                done: seq<AnalysisResult>, state: DetectorState, step: Step)
    requires Run(s, frames, sampleRate, platform) == Outcome(done, state)
    requires Analysis(state, frame, platform.clock(|frames|), sampleRate, platform) == step
    ensures Run(s, frames + [frame], sampleRate, platform) == Outcome(done + [step.result], step.next)
  {
    assert (frames + [frame])[..|frames|] == frames;
  }

  /** The newest `FrameSize` samples of a stream. */
  function LastFrame(stream: seq<real>): (frame: seq<real>)
    requires |stream| >= FrameSize
    ensures |frame| == FrameSize
  {
    stream[|stream| - FrameSize..]
  }

  /**
   * The `k`-th result is the analysis of frame `k` at clock reading
   * `clock(k)`, from the state the frames before it left: later frames do
   * not affect earlier results.
   */
  lemma RunStep(s: DetectorState, frames: seq<seq<real>>, sampleRate: nat, platform: Platform, k: nat)
    requires k < |frames|
    ensures Run(s, frames, sampleRate, platform).raised[k] ==
      Analysis(Run(s, frames[..k], sampleRate, platform).final, frames[k], platform.clock(k), sampleRate, platform).result
  {
    RunStepAt(s, frames, |frames|, sampleRate, platform, k);
    assert frames[..|frames|] == frames;
  }

  /** `RunStep` for the run of the first `m` frames, by induction on `m`. */
  lemma {:induction false} RunStepAt(s: DetectorState, frames: seq<seq<real>>, m: nat, sampleRate: nat, platform: Platform,
                                     k: nat)
    requires k < m <= |frames|
    ensures Run(s, frames[..m], sampleRate, platform).raised[k] ==
      Analysis(Run(s, frames[..k], sampleRate, platform).final, frames[k], platform.clock(k), sampleRate, platform).result
    decreases m
  {
    if k < m - 1 {
      RunStepAt(s, frames, m - 1, sampleRate, platform, k);
      RunPrefixAt(s, frames, m, sampleRate, platform, k);
    } else {
      RunLastAt(s, frames, m, sampleRate, platform);
    }
  }

  /** A prefix of a prefix is a prefix, and keeps its elements. */
  lemma TakeOfTake<T>(s: seq<T>, n: nat, k: nat)
    requires k < n <= |s|
    ensures s[..n][..k] == s[..k] && s[..n][k] == s[k]
  {
  }

  /** Dropping the last of the first `m` frames keeps every earlier result. */
  lemma RunPrefixAt(s: DetectorState, frames: seq<seq<real>>, m: nat, sampleRate: nat, platform: Platform, k: nat)
    requires k < m - 1 && m <= |frames|
    ensures Run(s, frames[..m], sampleRate, platform).raised[k] == Run(s, frames[..m - 1], sampleRate, platform).raised[k]
  {
    TakeOfTake(frames, m, m - 1);
  }

  /** The last result of the first `m` frames is the analysis of frame `m - 1` from the state the others left. */
  lemma RunLastAt(s: DetectorState, frames: seq<seq<real>>, m: nat, sampleRate: nat, platform: Platform)
    requires 0 < m <= |frames|
    ensures Run(s, frames[..m], sampleRate, platform).raised[m - 1] ==
      Analysis(Run(s, frames[..m - 1], sampleRate, platform).final, frames[m - 1], platform.clock(m - 1),
               sampleRate, platform).result
  {
    TakeOfTake(frames, m, m - 1);
  }

  /**
   * `raised` and `states` record a run of `frames` from `start` one analysis
   * at a time: result `k` and state `k + 1` are the analysis of frame `k`,
   * at clock reading `clock(k)`, from state `k`.
   */
  ghost predicate Chained(start: DetectorState, frames: seq<seq<real>>, raised: seq<AnalysisResult>,
                          states: seq<DetectorState>, sampleRate: nat, platform: Platform)
  {
    |frames| == |raised| && |states| == |raised| + 1 && states[0] == start &&
    forall k {:trigger Analysis(states[k], frames[k], platform.clock(k), sampleRate, platform)} ::
      0 <= k < |raised| ==>
        Analysis(states[k], frames[k], platform.clock(k), sampleRate, platform) == Step(raised[k], states[k + 1])
  }

  /** One more analysis, from the last recorded state, extends the record. */
  lemma ChainSnoc(start: DetectorState, frames: seq<seq<real>>, raised: seq<AnalysisResult>,
                  states: seq<DetectorState>, sampleRate: nat, platform: Platform,
                  frame: seq<real>, r: AnalysisResult, next: DetectorState)
    requires Chained(start, frames, raised, states, sampleRate, platform)
    requires Analysis(states[|states| - 1], frame, platform.clock(|frames|), sampleRate, platform) == Step(r, next)
    ensures Chained(start, frames + [frame], raised + [r], states + [next], sampleRate, platform)
  {
    var frames', raised', states' := frames + [frame], raised + [r], states + [next];
    forall k | 0 <= k < |raised'|
      ensures Analysis(states'[k], frames'[k], platform.clock(k), sampleRate, platform) == Step(raised'[k], states'[k + 1])
    {
      if k < |raised| {
        assert states'[k] == states[k] && frames'[k] == frames[k] && raised'[k] == raised[k] && states'[k + 1] == states[k + 1];
        assert Analysis(states[k], frames[k], platform.clock(k), sampleRate, platform) == Step(raised[k], states[k + 1]);
      }
    }
  }

  /** Dropping the last analysis of a record leaves a record of the earlier frames. */
  lemma ChainPrefix(start: DetectorState, frames: seq<seq<real>>, raised: seq<AnalysisResult>,
                    states: seq<DetectorState>, sampleRate: nat, platform: Platform)
    requires Chained(start, frames, raised, states, sampleRate, platform) && frames != []
    ensures var n := |frames|;
      Chained(start, frames[..n - 1], raised[..n - 1], states[..n], sampleRate, platform)
  {
    var n := |frames|;
    var frames', raised', states' := frames[..n - 1], raised[..n - 1], states[..n];
    forall k | 0 <= k < |raised'|
      ensures Analysis(states'[k], frames'[k], platform.clock(k), sampleRate, platform) == Step(raised'[k], states'[k + 1])
    {
      assert states'[k] == states[k] && frames'[k] == frames[k] && raised'[k] == raised[k] && states'[k + 1] == states[k + 1];
    }
  }

  /** A record of analyses one at a time is the run of those frames. */
  lemma {:induction false} ChainRun(start: DetectorState, frames: seq<seq<real>>, raised: seq<AnalysisResult>,
                                    states: seq<DetectorState>, sampleRate: nat, platform: Platform)
    requires Chained(start, frames, raised, states, sampleRate, platform)
    ensures Run(start, frames, sampleRate, platform) == Outcome(raised, states[|states| - 1])
    decreases |frames|
  {
    var n := |frames|;
    if n > 0 {
      assert frames[..n - 1] + [frames[n - 1]] == frames;
      assert raised[..n - 1] + [raised[n - 1]] == raised;
      ChainPrefix(start, frames, raised, states, sampleRate, platform);
      ChainRun(start, frames[..n - 1], raised[..n - 1], states[..n], sampleRate, platform);
      ChainLast(start, frames, raised, states, sampleRate, platform);
      RunSnoc(start, frames[..n - 1], frames[n - 1], sampleRate, platform, raised[..n - 1], states[n - 1],
              Step(raised[n - 1], states[n]));
    }
  }

  /** The last entry of a non-empty record is the analysis of the last frame from the state before it. */
  lemma ChainLast(start: DetectorState, frames: seq<seq<real>>, raised: seq<AnalysisResult>,
                  states: seq<DetectorState>, sampleRate: nat, platform: Platform)
    requires Chained(start, frames, raised, states, sampleRate, platform) && frames != []
    ensures var n := |frames|;
      Analysis(states[n - 1], frames[n - 1], platform.clock(n - 1), sampleRate, platform) == Step(raised[n - 1], states[n])
  {
  }

  /** The levels and presence flags a result carries are those of the frame's spectrum. */
  predicate LevelsOf(r: AnalysisResult, frame: seq<real>, sampleRate: nat, platform: Platform)
  {
    var spectrum := Bands(Magnitudes(platform, frame), sampleRate);
    r.bassLevel == Average(spectrum.bass) && r.trebleLevel == Average(spectrum.treble) &&
    r.hasBass == HasBass(spectrum) && r.hasTreble == HasTreble(spectrum)
  }

  /** Each result carries the levels and presence flags of its own frame. */
  lemma RunLevels(s: DetectorState, frames: seq<seq<real>>, sampleRate: nat, platform: Platform)
    ensures forall k :: 0 <= k < |frames| ==>
      LevelsOf(Run(s, frames, sampleRate, platform).raised[k], frames[k], sampleRate, platform)
  {
    forall k | 0 <= k < |frames|
      ensures LevelsOf(Run(s, frames, sampleRate, platform).raised[k], frames[k], sampleRate, platform)
    {
      RunStep(s, frames, sampleRate, platform, k);
    }
  }

  /** The RMS energies of `frames`, in order. */
  function Energies(frames: seq<seq<real>>, squareRoot: real -> Magnitude): (es: seq<real>)
    ensures |es| == |frames|
  {
    seq(|frames|, k requires 0 <= k < |frames| => Energy(frames[k], squareRoot))
  }

  /**
   * Every analysed frame feeds its energy to the beat detector exactly once,
   * in order: the final history is the newest 43 of the old history
   * followed by the frames' energies.
   */
  lemma {:induction false} RunEnergyHistory(s: DetectorState, frames: seq<seq<real>>, sampleRate: nat, platform: Platform)
    requires |s.energyHistory| <= HistorySize
    ensures Run(s, frames, sampleRate, platform).final.energyHistory ==
      Newest(s.energyHistory + Energies(frames, platform.squareRoot))
    decreases |frames|
  {
    if frames == [] {
      assert s.energyHistory + Energies(frames, platform.squareRoot) == s.energyHistory;
    } else {
      var init := frames[..|frames| - 1];
      RunEnergyHistory(s, init, sampleRate, platform);
      EnergiesSnoc(frames, platform.squareRoot);
      HistoryStep(s.energyHistory, Energies(init, platform.squareRoot),
                  Run(s, init, sampleRate, platform).final.energyHistory, Energy(frames[|frames| - 1], platform.squareRoot));
    }
  }

  /**
   * What the analyses of `frames` from state `s` account for: they raise
   * `raised` and leave `final`, each result carries its own frame's levels,
   * and the energy history ends with the frames' energies in order.
   */
  ghost predicate Accounts(s: DetectorState, frames: seq<seq<real>>, raised: seq<AnalysisResult>, final: DetectorState,
                           sampleRate: nat, platform: Platform)
  {
    Run(s, frames, sampleRate, platform) == Outcome(raised, final) &&
    (forall k :: 0 <= k < |raised| ==> LevelsOf(raised[k], frames[k], sampleRate, platform)) &&
    final.energyHistory == Newest(s.energyHistory + Energies(frames, platform.squareRoot))
  }

  /** A chain record of analyses accounts for its frames. */
  lemma ChainAccounts(start: DetectorState, frames: seq<seq<real>>, raised: seq<AnalysisResult>,
                      states: seq<DetectorState>, sampleRate: nat, platform: Platform)
    requires Chained(start, frames, raised, states, sampleRate, platform)
    requires |start.energyHistory| <= HistorySize
    ensures Accounts(start, frames, raised, states[|states| - 1], sampleRate, platform)
  {
    ChainRun(start, frames, raised, states, sampleRate, platform);
    RunLevels(start, frames, sampleRate, platform);
    RunEnergyHistory(start, frames, sampleRate, platform);
  }

  /** No frames raise nothing and change nothing. */
  lemma NothingToAccount(s: DetectorState, sampleRate: nat, platform: Platform)
    requires |s.energyHistory| <= HistorySize
    ensures Accounts(s, [], [], s, sampleRate, platform)
  {
    RunEnergyHistory(s, [], sampleRate, platform);
  }

  /** The energies of a non-empty sequence of frames end with the energy of its last frame. */
  lemma EnergiesSnoc(frames: seq<seq<real>>, squareRoot: real -> Magnitude)
    requires frames != []
    ensures Energies(frames, squareRoot) ==
      Energies(frames[..|frames| - 1], squareRoot) + [Energy(frames[|frames| - 1], squareRoot)]
  {
  }

  /** Pushing one more energy onto the newest window of a sequence gives the newest window of the longer one. */
  lemma HistoryStep(h: seq<real>, es: seq<real>, history: seq<real>, e: real)
    requires history == Newest(h + es)
    ensures PushEnergy(history, e) == Newest(h + (es + [e]))
  {
    PushKeepsNewest(h + es, e);
    assert h + (es + [e]) == (h + es) + [e];
  }

  /**
   * The state invariant of a detector: a bounded history of non-negative
   * energies, a consistent beat log, a cached tempo of 0 or in [6, 200), and
   * non-negative running maxima.
   */
  ghost predicate Sound(s: DetectorState)
  {
    |s.energyHistory| <= HistorySize && NonNegative(s.energyHistory) &&
    BeatLog(s.beatTimes, s.lastBeatTime) &&
    (s.lastBPM == 0.0 || 6.0 <= s.lastBPM < 200.0) &&
    0.0 <= s.maxBassLevel && 0.0 <= s.maxTrebleLevel
  }

  /** An analysis keeps the state sound, and its result is consistent with the new maxima. */
  lemma AnalysisKeepsSound(s: DetectorState, frame: seq<real>, now: int, sampleRate: nat, platform: Platform)
    requires Sound(s)
    ensures var st := Analysis(s, frame, now, sampleRate, platform);
      Sound(st.next) && Consistent(st.result, st.next.maxBassLevel, st.next.maxTrebleLevel) &&
      s.maxBassLevel <= st.next.maxBassLevel && s.maxTrebleLevel <= st.next.maxTrebleLevel
  {
    var st := Analysis(s, frame, now, sampleRate, platform);
    var mags := Magnitudes(platform, frame);
    AverageWithinPeak(mags, BinsAt(sampleRate), Bass, Half);
    AverageWithinPeak(mags, BinsAt(sampleRate), Treble, Half);
    PushKeepsNonNegative(s.energyHistory, Energy(frame, platform.squareRoot));
    BeatKeepsLog(s.beatTimes, s.lastBeatTime, now, st.result.beatDetected);
    if ElapsedAtLeast(s.lastBPMUpdate, now, BpmRefreshMs) && |st.next.beatTimes| >= 2 {
      TempoRange(st.next.beatTimes, st.next.lastBeatTime);
    }
  }

  /**
   * A frame of silence raises neither a beat, bass nor treble, from any
   * sound state, given a root with root(0) = 0 and a spectrum that is all
   * zero for that frame.
   */
  lemma SilentFrameIsQuiet(s: DetectorState, frame: seq<real>, now: int, sampleRate: nat, platform: Platform)
    requires Sound(s)
    requires forall i :: 0 <= i < |frame| ==> frame[i] == 0.0
    requires platform.squareRoot(0.0) == 0.0
    requires forall i :: 0 <= i < Half ==> platform.spectrum(frame, i) == 0.0
    ensures var r := Analysis(s, frame, now, sampleRate, platform).result;
      !r.beatDetected && !r.hasBass && !r.hasTreble
  {
    SilentFrameSquares(frame);
    assert Energy(frame, platform.squareRoot) == 0.0;
    var history := PushEnergy(s.energyHistory, 0.0);
    PushKeepsNonNegative(s.energyHistory, 0.0);
    SilenceNeverBeats(history, s.lastBeatTime, now);
    var mags := Magnitudes(platform, frame);
    SilenceHasNoBands(mags, sampleRate);
    var r := Analysis(s, frame, now, sampleRate, platform).result;
    assert r.beatDetected == IsBeat(history, 0.0, s.lastBeatTime, now);
    assert r.hasBass == HasBass(Bands(mags, sampleRate)) && r.hasTreble == HasTreble(Bands(mags, sampleRate));
  }

  class FrequencyDetector {
    const audioBuffer: array<real>
    const beatDetector: BPMDetect
    var audioBufferPosition: nat
    var analysisCounter: nat
    var maxBassLevel: real
    var maxTrebleLevel: real
    var lastBPM: real
    var lastBPMUpdate: Stamp
    /** Every frame handed to the analysis so far, in order. */
    ghost var analyzedFrames: seq<seq<real>>

    /** The object invariant; the write position reaches `FrameSize` only while a full frame is analysed. */
    ghost predicate Valid()
      reads this, beatDetector
    {
      audioBuffer.Length == FrameSize &&
      audioBufferPosition <= FrameSize &&
      beatDetector.Valid() && NonNegative(beatDetector.energyHistory) &&
      0.0 <= maxBassLevel && 0.0 <= maxTrebleLevel &&
      (lastBPM == 0.0 || 6.0 <= lastBPM < 200.0)
    }

    /** Between callbacks the buffer is never full. */
    ghost predicate Ready()
      reads this, beatDetector
    {
      Valid() && audioBufferPosition < FrameSize
    }

    /** The part of the detector an analysis reads and updates. */
    ghost function State(): DetectorState
      reads this`lastBPM, this`lastBPMUpdate, this`maxBassLevel, this`maxTrebleLevel, beatDetector
    {
      DetectorState(beatDetector.energyHistory, beatDetector.beatTimes, beatDetector.lastBeatTime,
                    lastBPM, lastBPMUpdate, maxBassLevel, maxTrebleLevel)
    }

    /** Every valid detector is in a sound state. */
    lemma ValidIsSound()
      requires Valid()
      ensures Sound(State())
    {
    }

    constructor ()
      ensures Ready() && fresh(audioBuffer) && fresh(beatDetector)
      ensures audioBufferPosition == 0 && analysisCounter == 0 && analyzedFrames == []
      ensures maxBassLevel == 0.0 && maxTrebleLevel == 0.0
      ensures lastBPM == 0.0 && lastBPMUpdate == MinValue
      ensures beatDetector.energyHistory == [] && beatDetector.beatTimes == []
      ensures beatDetector.lastBeatTime == MinValue
    {
      audioBuffer := new real[FrameSize];
      beatDetector := new BPMDetect();
      audioBufferPosition := 0;
      analysisCounter := 0;
      maxBassLevel, maxTrebleLevel := 0.0, 0.0;
      lastBPM := 0.0;
      lastBPMUpdate := MinValue;
      analyzedFrames := [];
    }

    /** Refreshes the cached tempo if at least a second has passed since the last refresh. */
    method RefreshTempo(now: int)
      requires Valid()
      modifies this`lastBPM, this`lastBPMUpdate
      ensures Valid()
      ensures if ElapsedAtLeast(old(lastBPMUpdate), now, BpmRefreshMs)
        then lastBPM == Tempo(beatDetector.beatTimes) && lastBPMUpdate == At(now)
        else lastBPM == old(lastBPM) && lastBPMUpdate == old(lastBPMUpdate)
    {
      if ElapsedAtLeast(lastBPMUpdate, now, BpmRefreshMs) {
        lastBPM := beatDetector.GetCurrentBPM();
        lastBPMUpdate := At(now);
        if |beatDetector.beatTimes| >= 2 {
          TempoRange(beatDetector.beatTimes, beatDetector.lastBeatTime);
        }
      }
    }

    /** Raises each running maximum to the frame's level when the level exceeds it. */
    method TrackMaxLevels(bassAverage: real, trebleAverage: real)
      requires Valid()
      modifies this`maxBassLevel, this`maxTrebleLevel
      ensures Valid()
      ensures maxBassLevel == if bassAverage > old(maxBassLevel) then bassAverage else old(maxBassLevel)
      ensures maxTrebleLevel == if trebleAverage > old(maxTrebleLevel) then trebleAverage else old(maxTrebleLevel)
    {
      if bassAverage > maxBassLevel {
        maxBassLevel := bassAverage;
      }
      if trebleAverage > maxTrebleLevel {
        maxTrebleLevel := trebleAverage;
      }
    }

    /**
     * Analyses the frame in the buffer at time `now`: the RMS energy goes to
     * the beat detector, the cached tempo is refreshed if at least a second
     * has passed, the band levels come from the frame's spectrum, and the
     * running maxima follow the levels.
     */
    method PerformAnalysis(sampleRate: nat, now: int, platform: Platform) returns (result: AnalysisResult)
      requires Valid()
      modifies this, beatDetector
      ensures Valid()
      ensures audioBufferPosition == old(audioBufferPosition)
      ensures analysisCounter == old(analysisCounter) + 1
      ensures analyzedFrames == old(analyzedFrames) + [audioBuffer[..]]
      ensures var energy := Energy(audioBuffer[..], platform.squareRoot);
        beatDetector.energyHistory == PushEnergy(old(beatDetector.energyHistory), energy) &&
        result.beatDetected == IsBeat(beatDetector.energyHistory, energy, old(beatDetector.lastBeatTime), now)
      ensures beatDetector.lastBeatTime ==
        if result.beatDetected then At(now) else old(beatDetector.lastBeatTime)
      ensures beatDetector.beatTimes ==
        if result.beatDetected then RecordBeat(old(beatDetector.beatTimes), now) else old(beatDetector.beatTimes)
      ensures if ElapsedAtLeast(old(lastBPMUpdate), now, BpmRefreshMs)
        then lastBPM == Tempo(beatDetector.beatTimes) && lastBPMUpdate == At(now)
        else lastBPM == old(lastBPM) && lastBPMUpdate == old(lastBPMUpdate)
      ensures result.currentBPM == lastBPM
      ensures var spectrum := Bands(Magnitudes(platform, audioBuffer[..]), sampleRate);
        result.bassLevel == Average(spectrum.bass) && result.trebleLevel == Average(spectrum.treble) &&
        result.hasBass == HasBass(spectrum) && result.hasTreble == HasTreble(spectrum)
      ensures maxBassLevel == if result.bassLevel > old(maxBassLevel) then result.bassLevel else old(maxBassLevel)
      ensures maxTrebleLevel == if result.trebleLevel > old(maxTrebleLevel) then result.trebleLevel else old(maxTrebleLevel)
      ensures Consistent(result, maxBassLevel, maxTrebleLevel)
    {
      analysisCounter := analysisCounter + 1;
      analyzedFrames := analyzedFrames + [audioBuffer[..]];
      var beatDetected := AnalyseRhythm(now, platform);
      var bassAverage, trebleAverage := AnalyseSpectrum(sampleRate, platform);
      var hasBass := bassAverage > BassThreshold;
      var hasTreble := trebleAverage > TrebleThreshold;
      result := AnalysisResult(hasBass, hasTreble, bassAverage, trebleAverage, beatDetected, lastBPM);
    }

    /**
     * The rhythm half of an analysis: the frame's RMS energy goes to the beat
     * detector, and the cached tempo is refreshed if at least a second has
     * passed since the last refresh.
     */
    method AnalyseRhythm(now: int, platform: Platform) returns (beatDetected: bool)
      requires Valid()
      modifies beatDetector, this`lastBPM, this`lastBPMUpdate
      ensures Valid()
      ensures var energy := Energy(audioBuffer[..], platform.squareRoot);
        beatDetector.energyHistory == PushEnergy(old(beatDetector.energyHistory), energy) &&
        beatDetected == IsBeat(beatDetector.energyHistory, energy, old(beatDetector.lastBeatTime), now)
      ensures beatDetector.lastBeatTime ==
        if beatDetected then At(now) else old(beatDetector.lastBeatTime)
      ensures beatDetector.beatTimes ==
        if beatDetected then RecordBeat(old(beatDetector.beatTimes), now) else old(beatDetector.beatTimes)
      ensures if ElapsedAtLeast(old(lastBPMUpdate), now, BpmRefreshMs)
        then lastBPM == Tempo(beatDetector.beatTimes) && lastBPMUpdate == At(now)
        else lastBPM == old(lastBPM) && lastBPMUpdate == old(lastBPMUpdate)
    {
      var energy := FrameEnergy(audioBuffer, platform.squareRoot);
      beatDetected := beatDetector.DetectBeat(energy, now);
      PushKeepsNonNegative(old(beatDetector.energyHistory), energy);
      RefreshTempo(now);
    }

    /**
     * The spectral half of an analysis: the average bass and treble levels of
     * the frame's spectrum, with the running maxima raised to them.
     */
    method AnalyseSpectrum(sampleRate: nat, platform: Platform) returns (bassAverage: real, trebleAverage: real)
      requires Valid()
      modifies this`maxBassLevel, this`maxTrebleLevel
      ensures Valid()
      ensures var spectrum := Bands(Magnitudes(platform, audioBuffer[..]), sampleRate);
        bassAverage == Average(spectrum.bass) && trebleAverage == Average(spectrum.treble)
      ensures maxBassLevel == if bassAverage > old(maxBassLevel) then bassAverage else old(maxBassLevel)
      ensures maxTrebleLevel == if trebleAverage > old(maxTrebleLevel) then trebleAverage else old(maxTrebleLevel)
      ensures 0.0 <= bassAverage <= maxBassLevel && 0.0 <= trebleAverage <= maxTrebleLevel
    {
      bassAverage, trebleAverage := BandLevels(audioBuffer[..], sampleRate, platform);
      TrackMaxLevels(bassAverage, trebleAverage);
    }

    /** The buffer holds the incomplete last frame of `stream`. */
    ghost predicate HoldsTail(stream: seq<real>)
      reads this, audioBuffer
    {
      audioBufferPosition == |stream| % FrameSize && audioBufferPosition <= |stream| &&
      audioBufferPosition <= audioBuffer.Length &&
      audioBuffer[..audioBufferPosition] == stream[|stream| - audioBufferPosition..]
    }

    /**
     * Writes one sample at the buffer position; when that fills the buffer,
     * the frame is analysed at time `now` and writing restarts at 0. The
     * (zero or one) analysis results are returned. Seen as a stream of
     * samples, the buffer goes on holding the stream's incomplete last frame
     * and every frame the sample completes is analysed.
     */
    method BufferSample(sample: real, sampleRate: nat, now: int, platform: Platform,
                        ghost stream: seq<real>, ghost before: seq<seq<real>>,
                        ghost start: DetectorState, ghost done: seq<AnalysisResult>, ghost states: seq<DetectorState>)
      returns (analysed: seq<AnalysisResult>, ghost states': seq<DetectorState>)
      requires Ready() && HoldsTail(stream) && analyzedFrames == before + Blocks(stream)
      requires Chained(start, Blocks(stream), done, states, sampleRate, platform) && states[|states| - 1] == State()
      requires now == platform.clock(|done|)
      modifies this, audioBuffer, beatDetector
      ensures Ready() && HoldsTail(stream + [sample])
      ensures analyzedFrames == before + Blocks(stream + [sample])
      ensures Chained(start, Blocks(stream + [sample]), done + analysed, states', sampleRate, platform)
      ensures states' == if analysed == [] then states else states + [State()]
      ensures states'[|states'| - 1] == State()
      ensures |analysed| <= 1 && |analysed| == |stream + [sample]| / FrameSize - |stream| / FrameSize
      ensures analysisCounter == old(analysisCounter) + |analysed|
      ensures old(maxBassLevel) <= maxBassLevel && old(maxTrebleLevel) <= maxTrebleLevel
      ensures AllConsistent(analysed, maxBassLevel, maxTrebleLevel)
      ensures AllConsistent(done, old(maxBassLevel), old(maxTrebleLevel)) ==>
        AllConsistent(done + analysed, maxBassLevel, maxTrebleLevel)
    {
      StoreSample(sample, stream);
      if audioBufferPosition == FrameSize {
        var result := FlushFrame(sampleRate, now, platform, start, Blocks(stream), done, states);
        analysed, states' := [result], states + [State()];
        assert HoldsTail(stream + [sample]);
        assert Chained(start, Blocks(stream + [sample]), done + analysed, states', sampleRate, platform);
      } else {
        analysed, states' := [], states;
        assert done + [] == done;
        assert Chained(start, Blocks(stream + [sample]), done + analysed, states', sampleRate, platform);
      }
      if AllConsistent(done, old(maxBassLevel), old(maxTrebleLevel)) {
        AppendConsistent(done, analysed, old(maxBassLevel), old(maxTrebleLevel), maxBassLevel, maxTrebleLevel);
      }
    }

    /**
     * Writes one sample at the buffer position. Either the buffer now holds
     * the newest complete frame of the extended stream, or it goes on
     * holding its incomplete last frame.
     */
    method StoreSample(sample: real, ghost stream: seq<real>)
      requires Ready() && HoldsTail(stream)
      modifies audioBuffer, this`audioBufferPosition
      ensures Valid()
      ensures audioBufferPosition == old(audioBufferPosition) + 1
      ensures audioBuffer[..] == old(audioBuffer[..])[old(audioBufferPosition) := sample]
      ensures var longer := stream + [sample];
        if audioBufferPosition == FrameSize then
          audioBuffer[..] == LastFrame(longer) && Blocks(longer) == Blocks(stream) + [audioBuffer[..]] &&
          |longer| / FrameSize == |stream| / FrameSize + 1 && |longer| % FrameSize == 0
        else
          HoldsTail(longer) && Blocks(longer) == Blocks(stream) && |longer| / FrameSize == |stream| / FrameSize
    {
      ghost var filled := audioBuffer[..audioBufferPosition] + [sample];
      TailSnoc(stream, audioBuffer[..audioBufferPosition], sample);
      audioBuffer[audioBufferPosition] := sample;
      audioBufferPosition := audioBufferPosition + 1;
      assert audioBuffer[..audioBufferPosition] == filled;
      if audioBufferPosition == FrameSize {
        assert audioBuffer[..] == filled;
      }
    }

    /**
     * A full buffer is analysed and writing restarts at 0. Given a record of
     * the analyses so far that ends in the current state, the analysis of
     * the buffer at clock reading `now` extends it.
     */
    method FlushFrame(sampleRate: nat, now: int, platform: Platform,
                      ghost start: DetectorState, ghost frames: seq<seq<real>>,
                      ghost done: seq<AnalysisResult>, ghost states: seq<DetectorState>)
      returns (result: AnalysisResult)
      requires Valid() && audioBufferPosition == FrameSize
      requires Chained(start, frames, done, states, sampleRate, platform) && states[|states| - 1] == State()
      requires now == platform.clock(|frames|)
      modifies this, beatDetector
      ensures Ready() && audioBufferPosition == 0
      ensures analysisCounter == old(analysisCounter) + 1
      ensures analyzedFrames == old(analyzedFrames) + [audioBuffer[..]]
      ensures old(maxBassLevel) <= maxBassLevel && old(maxTrebleLevel) <= maxTrebleLevel
      ensures Consistent(result, maxBassLevel, maxTrebleLevel)
      ensures Chained(start, frames + [audioBuffer[..]], done + [result], states + [State()], sampleRate, platform)
    {
      result := PerformAnalysis(sampleRate, now, platform);
      audioBufferPosition := 0;
      AnalysisOfParts(old(State()), audioBuffer[..], now, sampleRate, platform, result, State());
      ChainSnoc(start, frames, done, states, sampleRate, platform, audioBuffer[..], result, State());
    }

    /**
     * What handling a chunk promises. With `stream` the buffered samples
     * followed by the samples taken from the chunk: the detector stays ready,
     * one analysis runs per complete frame of `stream`, the frames analysed
     * are exactly those frames, the buffer keeps the incomplete remainder,
     * the maxima only rise and every result is consistent with them, and the
     * results and the new beat detector, tempo and maxima are exactly the
     * run of those frames from the old state.
     */
    twostate predicate Captured(format: WaveFormat, chunk: Chunk, platform: Platform, raised: seq<AnalysisResult>)
      requires old(Ready()) && CaptureEnds(format, chunk)
      reads this, audioBuffer, beatDetector
    {
      Ready() &&
      (var stream := old(audioBuffer[..audioBufferPosition]) + Taken(format, chunk);
       |raised| == |stream| / FrameSize &&
       audioBufferPosition == |stream| % FrameSize &&
       audioBuffer[..audioBufferPosition] == stream[|stream| - audioBufferPosition..] &&
       analyzedFrames == old(analyzedFrames) + Blocks(stream)) &&
      analysisCounter == old(analysisCounter) + |raised| &&
      old(maxBassLevel) <= maxBassLevel && old(maxTrebleLevel) <= maxTrebleLevel &&
      AllConsistent(raised, maxBassLevel, maxTrebleLevel) &&
      Accounts(old(State()), Blocks(old(audioBuffer[..audioBufferPosition]) + Taken(format, chunk)), raised, State(),
               format.sampleRate, platform)
    }

    /**
     * Handles one capture callback. The first channel of each interleaved
     * group is converted and appended to the buffer; each time the buffer
     * fills, the frame is analysed (at clock reading `clock(k)` for the
     * `k`-th analysis of this call) and writing restarts at 0. A chunk
     * with nothing to convert changes nothing.
     */
    method OnDataAvailable(format: WaveFormat, chunk: Chunk, platform: Platform)
      returns (raised: seq<AnalysisResult>)
      requires Ready() && CaptureEnds(format, chunk)
      modifies this, audioBuffer, beatDetector
      ensures Captured(format, chunk, platform, raised)
      ensures !Supported(format) || format.channels == 0 ==> raised == [] && unchanged(this, audioBuffer, beatDetector)
    {
      if format.bitsPerSample / 8 == 0 || !Supported(format) || format.channels == 0 {
        // For a width under 8 bits the division by zero raises and the handler
        // only logs it; for any other width but 32 or 16 bits the capture loop
        // reads no sample; with zero channels the loop ends only when there is
        // no sample to read. Either way nothing changes.
        assert Taken(format, chunk) == [];
        ShortStream(audioBuffer[..audioBufferPosition]);
        assert audioBuffer[..audioBufferPosition] + [] == audioBuffer[..audioBufferPosition];
        NothingToAccount(State(), format.sampleRate, platform);
        return [];
      }
      raised := CaptureChunk(format, chunk, platform);
    }

    /**
     * The capture of a chunk with samples to convert: the loop's record of
     * analyses, one per complete frame, is the run of those frames.
     */
    method CaptureChunk(format: WaveFormat, chunk: Chunk, platform: Platform)
      returns (raised: seq<AnalysisResult>)
      requires Ready() && Supported(format) && format.channels > 0
      modifies this, audioBuffer, beatDetector
      ensures Captured(format, chunk, platform, raised)
    {
      ghost var start, frames := State(), Blocks(audioBuffer[..audioBufferPosition] + Taken(format, chunk));
      ghost var states;
      raised, states := CaptureSamples(format, chunk, platform);
      ChainAccounts(start, frames, raised, states, format.sampleRate, platform);
    }

    /** The capture loop of `OnDataAvailable` for 32- and 16-bit samples. */
    method CaptureSamples(format: WaveFormat, chunk: Chunk, platform: Platform)
      returns (raised: seq<AnalysisResult>, ghost states: seq<DetectorState>)
      requires Ready() && Supported(format) && format.channels > 0
      modifies this, audioBuffer, beatDetector
      ensures Ready()
      ensures var stream := old(audioBuffer[..audioBufferPosition]) + Taken(format, chunk);
        |raised| == |stream| / FrameSize &&
        audioBufferPosition == |stream| % FrameSize &&
        audioBuffer[..audioBufferPosition] == stream[|stream| - audioBufferPosition..] &&
        analyzedFrames == old(analyzedFrames) + Blocks(stream)
      ensures analysisCounter == old(analysisCounter) + |raised|
      ensures old(maxBassLevel) <= maxBassLevel && old(maxTrebleLevel) <= maxTrebleLevel
      ensures AllConsistent(raised, maxBassLevel, maxTrebleLevel)
      ensures Chained(old(State()), Blocks(old(audioBuffer[..audioBufferPosition]) + Taken(format, chunk)),
                      raised, states, format.sampleRate, platform)
      ensures states[|states| - 1] == State()
    {
      var channels := format.channels;
      var samplesAvailable := chunk.bytesRecorded / (format.bitsPerSample / 8);
      raised := [];
      // The samples received so far: the buffered ones, then those taken from the chunk.
      ghost var received := audioBuffer[..audioBufferPosition];
      ghost var stream := received + Taken(format, chunk);
      ghost var start := State();
      states := [start];

      assert samplesAvailable == SamplesAvailable(format, chunk);
      ShortStream(received);
      assert Taken(format, chunk) == TakenFrom(format, chunk, 0);
      var i := 0;
      while i < samplesAvailable
        invariant Ready()
        invariant received + TakenFrom(format, chunk, i) == stream
        invariant HoldsTail(received) && |raised| == |received| / FrameSize
        invariant analyzedFrames == old(analyzedFrames) + Blocks(received)
        invariant analysisCounter == old(analysisCounter) + |raised|
        invariant old(maxBassLevel) <= maxBassLevel && old(maxTrebleLevel) <= maxTrebleLevel
        invariant AllConsistent(raised, maxBassLevel, maxTrebleLevel)
        invariant Chained(start, Blocks(received), raised, states, format.sampleRate, platform)
        invariant states[|states| - 1] == State()
        decreases samplesAvailable - i
      {
        // 32-bit samples are read as floats and 16-bit ones as scaled PCM.
        var sample := Decode(format, chunk, i);
        TakeOne(format, chunk, i, received, stream);
        var analysed;
        analysed, states := BufferSample(sample, format.sampleRate, platform.clock(|raised|), platform,
                                         received, old(analyzedFrames), start, raised, states);
        raised := raised + analysed;
        received := received + [sample];
        i := i + channels;
      }
      assert received + [] == received;
    }
  }
}

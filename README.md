# reactivo: beat, tempo and frequency-band detection

reactivo listens to the system's audio output and reports for every
analysis frame whether bass and treble are present, their levels, whether
a beat occurred and the current tempo in beats per minute. This project
models its analysis core:

- `FrequencyDetector.OnDataAvailable` takes the first channel of each
  interleaved group of a capture chunk. It converts 32-bit float or 16-bit
  PCM samples to floats and appends them to a 2048-sample buffer. Each
  time the buffer fills, the frame is analysed and writing restarts at 0.
- `FrequencyDetector.PerformAnalysis` computes the frame's RMS energy and
  feeds it to the beat detector. It refreshes the cached tempo when at
  least one second has passed since the last refresh. It sums the bin
  magnitudes of the bass band [20, 200] Hz and of the treble band
  [4000, 20000] Hz, averages each band and tracks the running maxima. It
  then raises one result.
- `BPMDetect.DetectBeat` keeps the last 43 energies. It declares a beat
  when the history is full, the energy exceeds 1.3 times the mean, the
  variance exceeds 0.01 and more than 300 ms passed since the last beat.
  Beat times older than 10 s are evicted.
- `BPMDetect.GetCurrentBPM` returns 0 with fewer than two beats.
  Otherwise it returns 60 divided by the interval at index `count / 2` of
  the ascending-sorted inter-beat intervals.

The model has seven modules, one file each:

- `Time` (time.dfy): millisecond clock readings and `DateTime.MinValue`.
- `Statistics` (stats.dfy): sum, mean and variance of the energy history.
- `Sorting` (sorting.dfy): the interval sort.
- `BeatDetection` (beat_detect.dfy): class `BPMDetect`.
- `FrameAccumulation` (frames.dfy): sample decoding and framing.
- `SpectralBands` (bands.dfy): band aggregation.
- `FrequencyDetection` (freq_detect.dfy): class `FrequencyDetector`.

What the model takes from the runtime and the caller:

- Clock readings are integer milliseconds passed in by the caller. Within
  one capture callback, the `k`-th analysis reads `platform.clock(k)`, and
  the beat test and the tempo throttle share that reading.
- The square root and the windowed FFT come in as the `Platform`
  functions `squareRoot` and `spectrum`.
- The capture chunk's words come in already read as 16-bit integers and
  as 32-bit floats (`Chunk.int16At`, `Chunk.singleAt`).

Both detectors are classes whose methods update their fields, as in the
source. Invariants kept by the objects:

- `BPMDetect.Valid`: the history holds at most 43 entries. The beat times
  are more than 300 ms apart. They end at the last beat and lie within 10
  s of it.
- `FrequencyDetector.Valid` and `Ready`: the buffer position is below
  2048 between callbacks. The energy history is non-negative, the running
  maxima are non-negative, and the cached tempo is 0 or in [6, 200).
- A ghost field `analyzedFrames` records every frame handed to the
  analysis. `OnDataAvailable` is proved against the stream view: one
  analysis runs per complete 2048-sample frame of the buffered samples
  followed by the chunk's samples. The analysed frames are exactly those
  frames, and the buffer keeps the incomplete remainder. The two-state
  predicate `Captured` collects these promises for one callback.
- The function `Analysis` gives one analysis on values: the result and
  the new beat detector, tempo and maxima from the old ones, the frame and
  the clock reading. `Run` folds it over a sequence of frames. The
  methods are proved to produce exactly `Run` of the frames they analyse.

## Model

| member | source | states |
|---|---|---|
| BeatDetection.HistoryKeepsNewest | Classes/BPMDetect.cs:26-28 | after `n` pushes the history is exactly the newest `min(n, 43)` energies, in arrival order |
| BeatDetection.WarmUp | Classes/BPMDetect.cs:30-31 | no beat is reported while fewer than 43 energies have been seen |
| BeatDetection.SteadyHistoryNeverBeats | Classes/BPMDetect.cs:33-38 | a history of equal energies has variance 0 and so never yields a beat |
| BeatDetection.SilenceNeverBeats | Classes/BPMDetect.cs:33-37 | an energy of 0 over non-negative energies never exceeds 1.3 times the mean |
| BeatDetection.StalePrefix | Classes/BPMDetect.cs:47-48 | the eviction loop dequeues a prefix of stale entries and stops at the first entry not older than 10 s |
| BeatDetection.SpacedIncreasing | Classes/BPMDetect.cs:37-39 | in a queue of gated beats any later beat is more than 300 ms after any earlier one |
| BeatDetection.EvictionRemovesExactlyStale | Classes/BPMDetect.cs:44-48 | after a beat at `now`, an entry survives eviction if and only if it is at most 10 s older than `now`, and the newest survives |
| BeatDetection.EvictionKeepsWindow | Classes/BPMDetect.cs:41-49 | after eviction the queue ends at `now`, stays spaced, and every entry lies within 10 s of `now` |
| BeatDetection.RecordBeatKeepsLog | Classes/BPMDetect.cs:37-49 | recording a beat that passed the 300 ms gate keeps the beat log invariant with the new last-beat time |
| BeatDetection.MedianIsAnInterval | Classes/BPMDetect.cs:59-72 | the sorted interval at index `count / 2` is one of the actual inter-beat intervals and exceeds 300 ms |
| BeatDetection.GapWithinWindow | Classes/BPMDetect.cs:37-48 | in a consistent log every inter-beat interval lies in (300 ms, 10 s] |
| BeatDetection.MedianWithinWindow | Classes/BPMDetect.cs:70-72 | in a consistent log the median interval lies in (300 ms, 10 s] |
| BeatDetection.RateOfInterval | Classes/BPMDetect.cs:74 | 60 divided by an interval in (0.3 s, 10 s] lies in [6, 200) beats per minute |
| BeatDetection.TempoRange | Classes/BPMDetect.cs:54-75 | with two or more beats in a consistent log the tempo lies in [6, 200) |
| BeatDetection.MedianOfThreeBeats | Classes/BPMDetect.cs:71-72 | with three beats the median is the longer of the two intervals (index 2 / 2 = 1 of the sorted pair) |
| BeatDetection.TempoOfSteadyBeats | Classes/BPMDetect.cs:54-75 | beats at 0, 0.5 and 1.0 s give 120 BPM |
| BeatDetection.TempoTakesUpperMiddle | Classes/BPMDetect.cs:72 | beats at 0, 0.4 and 1.2 s give 75 BPM: the upper middle interval, 0.8 s, is taken |
| BeatDetection.BPMDetect.constructor | Classes/BPMDetect.cs:16-22 | a fresh detector has empty queues, a last-beat time of `MinValue`, and satisfies the invariant |
| BeatDetection.BPMDetect.DetectBeat | Classes/BPMDetect.cs:24-52 | the history takes the energy and drops its oldest entry on overflow; the result is `IsBeat` of the new history; only on a beat are the last-beat time and the evicted beat queue updated; the invariant is kept |
| BeatDetection.BPMDetect.EvictStaleBeats | Classes/BPMDetect.cs:46-48 | the loop leaves exactly the queue with its stale prefix removed |
| BeatDetection.BPMDetect.GetCurrentBPM | Classes/BPMDetect.cs:54-75 | the result is the tempo of the stored beat times: 0 with fewer than two, else 60 over the median interval |
| Statistics.Variance | Classes/BPMDetect.cs:34 | the population variance is never negative |
| Statistics.ConstantHasNoVariance | Classes/BPMDetect.cs:33-34 | equal values have that value as mean and variance 0 |
| Statistics.MeanOfNonNegative | Classes/BPMDetect.cs:33 | the mean of non-negative energies is non-negative |
| Sorting.SortSpec | Classes/BPMDetect.cs:71 | the reference sort yields a sorted permutation of its input |
| Sorting.SortedUnique | Classes/BPMDetect.cs:71 | two sorted sequences with the same elements are equal, so the sorted order is unique |
| Sorting.SortTwo | Classes/BPMDetect.cs:71 | two intervals sort with the smaller first |
| Sorting.InsertNext | Classes/BPMDetect.cs:71 | one insertion step extends the sorted prefix of the array by one element and permutes its contents |
| Sorting.SortInPlace | Classes/BPMDetect.cs:71 | sorting the interval array in place leaves exactly the reference sort of its old contents |
| FrameAccumulation.Pcm16ToSample | Classes/FreqDetect.cs:91 | a 16-bit sample divided by 32768 lies in [-1, 1) and keeps its sign and its zero |
| FrameAccumulation.StridedShape | Classes/FreqDetect.cs:81 | the loop visits `ceil((limit - from) / channels)` indices, the `j`-th being `from + j * channels`, all below the limit |
| FrameAccumulation.TakenFromStrided | Classes/FreqDetect.cs:81-92 | the samples taken from a chunk are the decoded words at the visited indices, in order |
| FrameAccumulation.TakenShape | Classes/FreqDetect.cs:77-96 | an unsupported width, or zero channels with no sample available, contributes nothing; otherwise the chunk contributes `ceil(samplesAvailable / channels)` samples, the `j`-th being the first channel of group `j` |
| FrameAccumulation.BlocksSnoc | Classes/FreqDetect.cs:98-105 | appending a sample completes a frame exactly when the length reaches a multiple of 2048, and that frame is the last 2048 samples |
| FrameAccumulation.TailSnoc | Classes/FreqDetect.cs:98-105 | a buffer holding the stream's incomplete last frame, extended by one sample, is either the newest complete frame or the new incomplete tail |
| SpectralBands.Classify | Classes/FreqDetect.cs:172-187 | a bin is bass if and only if `bin * sampleRate` lies in [20 * 2048, 200 * 2048], and treble if and only if it lies in [4000 * 2048, 20000 * 2048]; bass is tested first |
| SpectralBands.ClassifyInHz | Classes/FreqDetect.cs:172-187 | in Hz: a bin is bass if and only if its centre frequency lies in [20, 200] Hz, and treble if and only if it lies in [4000, 20000] Hz |
| SpectralBands.BandsAt48k | Classes/FreqDetect.cs:170-187 | at 48 kHz bins 1 to 8 are bass, bin 9 is in neither band, and bins 171 to 853 are treble |
| SpectralBands.CountZeroIffNoBin | Classes/FreqDetect.cs:170-199 | a band's count is 0 exactly when no examined bin falls into it, which is when the average guard yields 0 |
| SpectralBands.PeakIsMaximum | Classes/FreqDetect.cs:181-185 | the band's peak magnitude is non-negative and no magnitude in the band exceeds it |
| SpectralBands.PeakIsFirstMaximum | Classes/FreqDetect.cs:177-196 | a positive peak is the magnitude of the first bin of the band attaining the maximum, and the peak frequency is that bin's frequency |
| SpectralBands.SilentBand | Classes/FreqDetect.cs:170-197 | with only zero magnitudes in the band, its sum, peak and peak frequency stay 0 |
| SpectralBands.SumWithinBound | Classes/FreqDetect.cs:177-197 | a band's sum lies between 0 and its count times any bound on the band's magnitudes, such as its peak (the product written as a repeated sum) |
| SpectralBands.AverageWithinPeak | Classes/FreqDetect.cs:199-200 | a band's average lies between 0 and its peak magnitude |
| SpectralBands.SilenceHasNoBands | Classes/FreqDetect.cs:199-206 | an all-zero spectrum shows neither bass nor treble |
| SpectralBands.AggregateBands | Classes/FreqDetect.cs:158-197 | the single pass over bins 1 to 1023 computes exactly the accumulated bass and treble bands |
| FrequencyDetection.SumSquares | Classes/FreqDetect.cs:121-125 | the sum of squared samples is never negative |
| FrequencyDetection.SilentFrameSquares | Classes/FreqDetect.cs:121-126 | a silent frame has a sum of squares of 0 |
| FrequencyDetection.SilentFrameIsQuiet | Classes/FreqDetect.cs:118-206 | from any sound state (which every valid detector is in, its energy history being non-negative), an all-zero frame has energy 0 and raises neither a beat, bass nor treble, given a root with root(0) = 0 and a zero spectrum |
| FrequencyDetection.FrameEnergy | Classes/FreqDetect.cs:121-126 | the loop computes the root of the mean squared sample of the buffer |
| FrequencyDetection.BandLevels | Classes/FreqDetect.cs:170-200 | the levels are the band averages of the frame's spectrum, each between 0 and its band's peak |
| FrequencyDetection.AppendConsistent | Classes/FreqDetect.cs:202-203 | raising the running maxima keeps every earlier result within them |
| FrequencyDetection.FrequencyDetector.StoreSample | Classes/FreqDetect.cs:98-100 | writing one sample either completes the newest frame of the extended stream, exactly when its length reaches a multiple of 2048, or keeps the buffer its incomplete tail |
| FrequencyDetection.AnalysisKeepsSound | Classes/FreqDetect.cs:114-206 | one analysis keeps a bounded non-negative energy history, a consistent beat log, a tempo of 0 or in [6, 200) and non-negative maxima that never fall, and its result is consistent with them |
| FrequencyDetection.RunStep | Classes/FreqDetect.cs:98-105 | the `k`-th result of a sequence of analyses is the analysis of frame `k` at clock reading `clock(k)` from the state the earlier frames left |
| FrequencyDetection.RunLevels | Classes/FreqDetect.cs:170-206 | every result of a sequence of analyses carries the band levels and presence flags of its own frame |
| FrequencyDetection.RunEnergyHistory | Classes/FreqDetect.cs:121-129 | each analysed frame feeds its RMS energy to the beat detector exactly once, in order: the final history is the newest 43 of the old history followed by the frames' energies |
| FrequencyDetection.ChainRun | Classes/FreqDetect.cs:98-105 | analyses recorded one at a time, each from the state the previous one left, are the run of those frames |
| FrequencyDetection.FrequencyDetector.constructor | Classes/FreqDetect.cs:30-43 | a fresh detector has buffer position 0, zero counters, maxima and tempo, and a fresh beat detector |
| FrequencyDetection.FrequencyDetector.RefreshTempo | Classes/FreqDetect.cs:131-137 | the cached tempo and its time are replaced by the current tempo and `now` exactly when at least 1000 ms have passed; the cached tempo stays 0 or in [6, 200) |
| FrequencyDetection.FrequencyDetector.TrackMaxLevels | Classes/FreqDetect.cs:202-203 | each running maximum is raised to the frame's level exactly when the level exceeds it |
| FrequencyDetection.FrequencyDetector.AnalyseRhythm | Classes/FreqDetect.cs:120-137 | the frame's RMS energy goes to the beat detector with its full beat contract, then the tempo throttle applies |
| FrequencyDetection.FrequencyDetector.AnalyseSpectrum | Classes/FreqDetect.cs:157-203 | the levels are the band averages of the frame, the maxima follow them, and each level lies between 0 and its new maximum |
| FrequencyDetection.FrequencyDetector.PerformAnalysis | Classes/FreqDetect.cs:114-226 | one analysis: the counter rises by one, the frame is recorded, beat and tempo as above, the levels and presence flags come from the frame's spectrum, the maxima follow the levels, and the result is consistent with them |
| FrequencyDetection.FrequencyDetector.BufferSample | Classes/FreqDetect.cs:98-105 | storing a sample keeps the buffer the incomplete tail of the stream; the frame the sample completes (if any) is analysed, and its result and the new state extend the record of analyses one at a time (`Chained`) |
| FrequencyDetection.FrequencyDetector.FlushFrame | Classes/FreqDetect.cs:101-105 | a full buffer is analysed once and the write position returns to 0; the result and the new detector state are exactly `Analysis` of the buffered frame from the old state at clock reading `now` |
| FrequencyDetection.FrequencyDetector.CaptureSamples | Classes/FreqDetect.cs:77-106 | the capture loop analyses exactly the complete frames of the buffered samples followed by the chunk's samples, the `k`-th result and state being the analysis of frame `k` from the state before it, and leaves the remainder in the buffer |
| FrequencyDetection.FrequencyDetector.CaptureChunk | Classes/FreqDetect.cs:77-106 | for a supported width and at least one channel, the capture accounts for the chunk: the results and the new beat detector, tempo and maxima are exactly `Run` of the stream's complete frames from the old state, and the buffer keeps the remainder (`Captured`) |
| FrequencyDetection.FrequencyDetector.OnDataAvailable | Classes/FreqDetect.cs:73-112 | `Captured`: one result per complete frame of the stream; the results and the new beat detector, tempo and maxima are exactly `Run` of those frames from the old state, so each result carries its own frame's levels and flags and the energy history ends with the frames' energies in order; the buffer keeps the remainder, every result is consistent, and an unsupported width or zero channels changes nothing |

## Left out

- Floating point: samples, energies, magnitudes and levels are reals. `float` rounding and the `(float)` casts are not modelled.
- The Hamming window, the FFT, `Math.Sqrt` and `Math.Log` (Classes/FreqDetect.cs:139-155, 126, 173) are taken as the `Platform` functions `squareRoot` and `spectrum`. Their numerics are not modelled.
- Magnitudes are assumed non-negative (`Magnitude`), as a modulus divided by the frame size is.
- `BitConverter` byte decoding is left out: a `Chunk` supplies each word already read as an `Int16` and as a float.
- `DateTime.Now` becomes an integer millisecond parameter. Once the energy history is full, the source reads the clock twice per analysis (Classes/BPMDetect.cs:36 and Classes/FreqDetect.cs:132); while it is still filling, `DetectBeat` returns at Classes/BPMDetect.cs:30-31 before reading it. The model uses one reading per analysis for both.
- Capture is left out: `StartMonitoring`, `StopMonitoring`, `OnRecordingStopped`, the NAudio device objects and the `FrequencyDetected` event subscription. Each analysis result is returned instead of raised.
- Console output and the debug print every 10 analyses are left out. The startup message says bass is 20-250 Hz, but the code uses 200 Hz; the model follows the code.
- Exception handling is left out. The `catch` blocks only log. The one exception the core can raise is the division by zero for sample widths below 8 bits. `OnDataAvailable` models it as returning with nothing changed.
- OnDataAvailable: for 8-bit or other unsupported widths that are at least 8 bits, the source runs the loop, but every iteration reaches `continue`. The model returns before the loop with the same effect.
- OnDataAvailable: requires that the capture loop ends (`CaptureEnds`). With zero channels and at least one sample available, the loop at Classes/FreqDetect.cs:81 never advances and does not terminate; the model does not represent that. With zero channels and no sample available, or a width under 8 bits, the source does nothing, and so does the model.
- The WebSocket server, the named-pipe output and the program entry point are not part of this model.
- `_fftBuffer` is not modelled. It only carries the window and FFT stage that `Platform.spectrum` stands for.
- `List.Sort` is modelled by an in-place insertion sort, proved to produce the unique sorted permutation. Its stability and algorithm do not matter for integers.
- The `intervals.Count == 0` guard (Classes/BPMDetect.cs:67-68) is not modelled. It can never fire, because two or more beats give at least one interval.
- The even-count median takes index `count / 2`, the upper of the two middle intervals (Classes/BPMDetect.cs:72); the model follows it.

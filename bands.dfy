/**
 * Band aggregation over one frame's spectrum: each positive-frequency bin
 * `1 <= i < N/2` is classified by its frequency `i * sampleRate / N` into
 * bass [20, 200] Hz, treble [4000, 20000] Hz or neither, and each band
 * accumulates a sum, a count and a strictly-greater running peak.
 */
module SpectralBands {
  import opened FrameAccumulation
  import opened Statistics

  /** Bins examined are `1 .. Half - 1`. */
  const Half: nat := FrameSize / 2

  const BassMinHz: nat := 20
  const BassMaxHz: nat := 200
  const TrebleMinHz: nat := 4000
  const TrebleMaxHz: nat := 20000

  /** A band is present when its average magnitude exceeds its threshold. */
  const BassThreshold: real := 0.001
  const TrebleThreshold: real := 0.001

  /** A spectral magnitude (a modulus divided by the frame size). */
  type Magnitude = r: real | 0.0 <= r

  datatype BandKind = Bass | Treble | Neither

  /**
   * The band of bin `bin`. The frequency `bin * sampleRate / FrameSize` is
   * compared exactly, by scaling the limits by `FrameSize`; bass is checked
   * first, so a bin belongs to at most one band.
   */
  function Classify(bin: nat, sampleRate: nat): (k: BandKind)
    ensures k == Bass <==> BassMinHz * FrameSize <= bin * sampleRate <= BassMaxHz * FrameSize
    ensures k == Treble <==> TrebleMinHz * FrameSize <= bin * sampleRate <= TrebleMaxHz * FrameSize
  {
    var scaled := bin * sampleRate;
    if BassMinHz * FrameSize <= scaled <= BassMaxHz * FrameSize then Bass
    else if TrebleMinHz * FrameSize <= scaled <= TrebleMaxHz * FrameSize then Treble
    else Neither
  }

  /** The centre frequency of bin `bin`, in Hz. */
  function Frequency(bin: nat, sampleRate: nat): real
  {
    (bin * sampleRate) as real / FrameSize as real
  }

  /**
   * In Hz: a bin is bass exactly when its centre frequency lies in
   * [20, 200] Hz, and treble exactly when it lies in [4000, 20000] Hz.
   */
  lemma ClassifyInHz(bin: nat, sampleRate: nat)
    ensures Classify(bin, sampleRate) == Bass <==>
      BassMinHz as real <= Frequency(bin, sampleRate) <= BassMaxHz as real
    ensures Classify(bin, sampleRate) == Treble <==>
      TrebleMinHz as real <= Frequency(bin, sampleRate) <= TrebleMaxHz as real
  {
    var scaled := bin * sampleRate;
    assert Frequency(bin, sampleRate) == scaled as real / FrameSize as real;
    ScaledLimit(scaled, BassMinHz);
    ScaledLimit(scaled, BassMaxHz);
    ScaledLimit(scaled, TrebleMinHz);
    ScaledLimit(scaled, TrebleMaxHz);
  }

  /** Comparing `scaled` with `limit * FrameSize` is comparing `scaled / FrameSize` with `limit`. */
  lemma ScaledLimit(scaled: nat, limit: nat)
    ensures limit * FrameSize <= scaled <==> limit as real <= scaled as real / FrameSize as real
    ensures scaled <= limit * FrameSize <==> scaled as real / FrameSize as real <= limit as real
  {
  }

  /** A bin's band and centre frequency. */
  datatype Bin = Bin(kind: BandKind, frequency: real)

  /** The band and centre frequency of each bin `0 .. Half - 1` at `sampleRate`. */
  function BinsAt(sampleRate: nat): (bins: seq<Bin>)
    ensures |bins| == Half
  {
    seq(Half, i requires 0 <= i < Half => Bin(Classify(i, sampleRate), Frequency(i, sampleRate)))
  }

  /** What a band accumulates: sum and count of magnitudes, peak magnitude and its frequency. */
  datatype Band = Band(sum: real, count: nat, peakMagnitude: real, peakFrequency: real)

  const EmptyBand := Band(0.0, 0, 0.0, 0.0)

  /** Adds one bin; the peak moves only to a strictly greater magnitude. */
  function Add(b: Band, magnitude: real, frequency: real): Band
  {
    if magnitude > b.peakMagnitude then Band(b.sum + magnitude, b.count + 1, magnitude, frequency)
    else Band(b.sum + magnitude, b.count + 1, b.peakMagnitude, b.peakFrequency)
  }

  /** The band `kind` accumulated over bins `1 .. hi - 1`, in increasing order. */
  function Accumulated(mags: seq<Magnitude>, bins: seq<Bin>, kind: BandKind, hi: nat): Band
    requires hi <= |mags| && hi <= |bins|
  {
    if hi <= 1 then EmptyBand
    else
      var b := Accumulated(mags, bins, kind, hi - 1);
      if bins[hi - 1].kind == kind then Add(b, mags[hi - 1], bins[hi - 1].frequency)
      else b
  }

  /** Bin `i` is one of the examined bins below `hi` and lies in band `kind`. */
  predicate InBand(bins: seq<Bin>, kind: BandKind, hi: nat, i: int)
  {
    1 <= i < hi <= |bins| && bins[i].kind == kind
  }

  /** The average magnitude of a band, 0 when no bin fell into it. */
  function Average(b: Band): real
  {
    if b.count > 0 then b.sum / b.count as real else 0.0
  }

  /** A band's count is 0 exactly when no examined bin lies in it. */
  lemma {:induction false} CountZeroIffNoBin(mags: seq<Magnitude>, bins: seq<Bin>, kind: BandKind, hi: nat)
    requires hi <= |mags| && hi <= |bins|
    ensures Accumulated(mags, bins, kind, hi).count == 0 <==>
      forall i :: 0 <= i < hi ==> !InBand(bins, kind, hi, i)
  {
    if hi > 1 {
      CountZeroIffNoBin(mags, bins, kind, hi - 1);
      if Accumulated(mags, bins, kind, hi).count == 0 {
        forall i | 0 <= i < hi
          ensures !InBand(bins, kind, hi, i)
        {
          if i < hi - 1 {
            assert !InBand(bins, kind, hi - 1, i);
          }
        }
      } else if bins[hi - 1].kind != kind {
        var i :| 0 <= i < hi - 1 && InBand(bins, kind, hi - 1, i);
        assert InBand(bins, kind, hi, i);
      } else {
        assert InBand(bins, kind, hi, hi - 1);
      }
    }
  }

  /** The peak is non-negative and no magnitude in the band exceeds it. */
  lemma {:induction false} PeakIsMaximum(mags: seq<Magnitude>, bins: seq<Bin>, kind: BandKind, hi: nat)
    requires hi <= |mags| && hi <= |bins|
    ensures var b := Accumulated(mags, bins, kind, hi);
      b.peakMagnitude >= 0.0 &&
      forall i :: 0 <= i < hi && InBand(bins, kind, hi, i) ==> mags[i] <= b.peakMagnitude
  {
    if hi > 1 {
      PeakIsMaximum(mags, bins, kind, hi - 1);
      assert forall i :: InBand(bins, kind, hi, i) && i != hi - 1 ==> InBand(bins, kind, hi - 1, i);
    }
  }

  /**
   * A positive peak is attained by the first bin of the band holding the
   * maximum: earlier bins of the band are strictly smaller, and the peak
   * frequency is that bin's frequency.
   */
  lemma {:induction false} PeakIsFirstMaximum(mags: seq<Magnitude>, bins: seq<Bin>, kind: BandKind, hi: nat)
    requires hi <= |mags| && hi <= |bins|
    ensures var b := Accumulated(mags, bins, kind, hi);
      b.peakMagnitude > 0.0 ==>
        exists j :: 0 <= j < hi && InBand(bins, kind, hi, j) &&
          mags[j] == b.peakMagnitude && b.peakFrequency == bins[j].frequency &&
          forall i :: 0 <= i < j && InBand(bins, kind, hi, i) ==> mags[i] < b.peakMagnitude
  {
    if hi > 1 {
      var prev := Accumulated(mags, bins, kind, hi - 1);
      var b := Accumulated(mags, bins, kind, hi);
      PeakIsFirstMaximum(mags, bins, kind, hi - 1);
      PeakIsMaximum(mags, bins, kind, hi - 1);
      assert forall i :: InBand(bins, kind, hi - 1, i) ==> InBand(bins, kind, hi, i);
      assert forall i :: InBand(bins, kind, hi, i) && i < hi - 1 ==> InBand(bins, kind, hi - 1, i);
      if b.peakMagnitude > 0.0 && b != prev && b.peakMagnitude != prev.peakMagnitude {
        var j := hi - 1;
        assert InBand(bins, kind, hi, j);
        assert mags[j] == b.peakMagnitude && mags[j] > prev.peakMagnitude;
      } else if b.peakMagnitude > 0.0 {
        assert b.peakMagnitude == prev.peakMagnitude && b.peakFrequency == prev.peakFrequency;
        var j :| 0 <= j < hi - 1 && InBand(bins, kind, hi - 1, j) &&
          mags[j] == prev.peakMagnitude && prev.peakFrequency == bins[j].frequency &&
          forall i :: 0 <= i < j && InBand(bins, kind, hi - 1, i) ==> mags[i] < prev.peakMagnitude;
        assert InBand(bins, kind, hi, j);
      }
    }
  }

  /** With no positive magnitude in the band, its sum, peak and peak frequency all stay 0. */
  lemma {:induction false} SilentBand(mags: seq<Magnitude>, bins: seq<Bin>, kind: BandKind, hi: nat)
    requires hi <= |mags| && hi <= |bins|
    requires forall i :: 0 <= i < hi && InBand(bins, kind, hi, i) ==> mags[i] == 0.0
    ensures var b := Accumulated(mags, bins, kind, hi);
      b.sum == 0.0 && b.peakMagnitude == 0.0 && b.peakFrequency == 0.0
  {
    if hi > 1 {
      assert forall i :: InBand(bins, kind, hi - 1, i) ==> InBand(bins, kind, hi, i);
      SilentBand(mags, bins, kind, hi - 1);
    }
  }

  /** `p` added up `count` times. */
  function Repeated(count: nat, p: real): real
  {
    if count == 0 then 0.0 else Repeated(count - 1, p) + p
  }

  /** Adding `p` up `count` times gives `count * p`. */
  lemma {:induction false} RepeatedIsProduct(count: nat, p: real)
    ensures Repeated(count, p) == count as real * p
  {
    if count > 0 {
      RepeatedIsProduct(count - 1, p);
      assert count as real * p == (count - 1) as real * p + p;
    }
  }

  /**
   * The sum is between 0 and `p` added up `count` times, for any `p` that
   * bounds every magnitude in the band.
   */
  lemma {:induction false} SumWithinBound(mags: seq<Magnitude>, bins: seq<Bin>, kind: BandKind, hi: nat, p: real)
    requires hi <= |mags| && hi <= |bins|
    requires forall i :: 0 <= i < hi && InBand(bins, kind, hi, i) ==> mags[i] <= p
    ensures var b := Accumulated(mags, bins, kind, hi);
      0.0 <= b.sum <= Repeated(b.count, p)
  {
    if hi > 1 {
      assert forall i :: InBand(bins, kind, hi - 1, i) ==> InBand(bins, kind, hi, i);
      SumWithinBound(mags, bins, kind, hi - 1, p);
      if bins[hi - 1].kind == kind {
        assert InBand(bins, kind, hi, hi - 1);
      }
    }
  }

  /** A band's average lies between 0 and its peak magnitude. */
  lemma AverageWithinPeak(mags: seq<Magnitude>, bins: seq<Bin>, kind: BandKind, hi: nat)
    requires hi <= |mags| && hi <= |bins|
    ensures var b := Accumulated(mags, bins, kind, hi);
      0.0 <= Average(b) <= b.peakMagnitude
  {
    var b := Accumulated(mags, bins, kind, hi);
    PeakIsMaximum(mags, bins, kind, hi);
    SumWithinBound(mags, bins, kind, hi, b.peakMagnitude);
    AverageBounds(b);
  }

  /** A band whose sum lies between 0 and `count` times its peak has its average between 0 and its peak. */
  lemma AverageBounds(b: Band)
    requires 0.0 <= b.peakMagnitude && 0.0 <= b.sum <= Repeated(b.count, b.peakMagnitude)
    ensures 0.0 <= Average(b) <= b.peakMagnitude
  {
    RepeatedIsProduct(b.count, b.peakMagnitude);
    if b.count > 0 {
      QuotientBounds(b.sum, b.count as real, 0.0, b.peakMagnitude);
    }
  }

  /** Both bands of one frame. */
  datatype Spectrum = Spectrum(bass: Band, treble: Band)

  function Bands(mags: seq<Magnitude>, sampleRate: nat): Spectrum
    requires |mags| == Half
  {
    Spectrum(Accumulated(mags, BinsAt(sampleRate), Bass, Half), Accumulated(mags, BinsAt(sampleRate), Treble, Half))
  }

  /** Presence: the average magnitude exceeds the threshold. */
  function HasBass(s: Spectrum): bool { Average(s.bass) > BassThreshold }
  function HasTreble(s: Spectrum): bool { Average(s.treble) > TrebleThreshold }

  /** An all-zero spectrum shows neither bass nor treble. */
  lemma SilenceHasNoBands(mags: seq<Magnitude>, sampleRate: nat)
    requires |mags| == Half
    requires forall i :: 0 <= i < Half ==> mags[i] == 0.0
    ensures !HasBass(Bands(mags, sampleRate)) && !HasTreble(Bands(mags, sampleRate))
  {
    SilentBand(mags, BinsAt(sampleRate), Bass, Half);
    SilentBand(mags, BinsAt(sampleRate), Treble, Half);
  }

  /**
   * At 48 kHz over 2048-sample frames bins are 23.4375 Hz apart: bins 1..8
   * (up to 187.5 Hz) are bass, bin 9 (210.9 Hz) is in neither band, and
   * bins 171..853 are treble.
   */
  lemma BandsAt48k(i: nat)
    requires 1 <= i < Half
    ensures Classify(i, 48000) == Bass <==> i <= 8
    ensures Classify(i, 48000) == Treble <==> 171 <= i <= 853
    ensures Frequency(8, 48000) == 187.5 && Classify(8, 48000) == Bass
    ensures Classify(9, 48000) == Neither
  {
  }

  /**
   * Aggregates both bands over bins `1 .. Half - 1` in one pass, keeping
   * per band a sum, a count and a strictly-greater running peak.
   */
  method AggregateBands(mags: seq<Magnitude>, sampleRate: nat) returns (bass: Band, treble: Band)
    requires |mags| == Half
    ensures bass == Accumulated(mags, BinsAt(sampleRate), Bass, Half)
    ensures treble == Accumulated(mags, BinsAt(sampleRate), Treble, Half)
  {
    var bassSum, trebleSum := 0.0, 0.0;
    var bassCount, trebleCount := 0, 0;
    var maxBassFreq, maxTrebleFreq := 0.0, 0.0;
    var maxBassMag, maxTrebleMag := 0.0, 0.0;
    for i := 1 to Half
      invariant Band(bassSum, bassCount, maxBassMag, maxBassFreq) == Accumulated(mags, BinsAt(sampleRate), Bass, i)
      invariant Band(trebleSum, trebleCount, maxTrebleMag, maxTrebleFreq) == Accumulated(mags, BinsAt(sampleRate), Treble, i)
    {
      var frequency := Frequency(i, sampleRate);
      var magnitude := mags[i];
      var band := Classify(i, sampleRate);
      assert BinsAt(sampleRate)[i] == Bin(band, frequency);
      if band == Bass {
        bassSum := bassSum + magnitude;
        bassCount := bassCount + 1;
        if magnitude > maxBassMag {
          maxBassMag := magnitude;
          maxBassFreq := frequency;
        }
      } else if band == Treble {
        trebleSum := trebleSum + magnitude;
        trebleCount := trebleCount + 1;
        if magnitude > maxTrebleMag {
          maxTrebleMag := magnitude;
          maxTrebleFreq := frequency;
        }
      }
    }
    bass := Band(bassSum, bassCount, maxBassMag, maxBassFreq);
    treble := Band(trebleSum, trebleCount, maxTrebleMag, maxTrebleFreq);
  }
}

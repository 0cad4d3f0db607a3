/**
 * Frame accumulation for the frequency detector: which samples of an
 * interleaved capture chunk are taken (the first channel of each group),
 * how they are converted to floats, and how the resulting stream is cut
 * into fixed frames of 2048 samples.
 */
module FrameAccumulation {
  /** Samples per analysis frame. */
  const FrameSize: nat := 2048

  type Int16 = x: int | -32768 <= x < 32768

  /** The capture format: sample rate in Hz, interleaved channels, bits per sample. */
  datatype WaveFormat = WaveFormat(sampleRate: nat, channels: nat, bitsPerSample: nat)

  /**
   * One capture callback's data: the number of bytes recorded and, for each
   * sample index, the word stored there read as a signed 16-bit integer
   * and as a 32-bit float. Decoding the bytes themselves is not modelled.
   */
  datatype Chunk = Chunk(bytesRecorded: nat, int16At: nat -> Int16, singleAt: nat -> real)

  /** A 16-bit PCM sample scaled by 1/32768 lies in [-1, 1). */
  function Pcm16ToSample(s: Int16): (r: real)
    ensures -1.0 <= r < 1.0
    ensures (r < 0.0 <==> s < 0) && (r == 0.0 <==> s == 0)
  {
    s as real / 32768.0
  }

  /** Only 16-bit PCM and 32-bit float samples are converted; other depths are skipped. */
  predicate Supported(format: WaveFormat)
  {
    format.bitsPerSample == 32 || format.bitsPerSample == 16
  }

  function BytesPerSample(format: WaveFormat): nat
  {
    format.bitsPerSample / 8
  }

  function SamplesAvailable(format: WaveFormat, chunk: Chunk): nat
    requires BytesPerSample(format) > 0
  {
    chunk.bytesRecorded / BytesPerSample(format)
  }

  /** The float value of the sample word at `index`. */
  function Decode(format: WaveFormat, chunk: Chunk, index: nat): real
    requires Supported(format)
  {
    if format.bitsPerSample == 32 then chunk.singleAt(index)
    else Pcm16ToSample(chunk.int16At(index))
  }

  /** The indices `from, from + stride, ...` below `limit`, as the capture loop visits them. */
  function Strided(from: nat, limit: nat, stride: nat): seq<nat>
    requires stride > 0
    decreases limit - from
  {
    if from >= limit then [] else [from] + Strided(from + stride, limit, stride)
  }

  lemma MulMonotone(a: int, b: int, d: int)
    requires a <= b && d >= 0
    ensures a * d <= b * d
  {
    assert b * d - a * d == (b - a) * d;
  }

  /** Euclidean division is determined by quotient and remainder. */
  lemma DivUnique(x: int, d: int, q: int, r: int)
    requires d > 0 && 0 <= r < d && x == q * d + r
    ensures x / d == q
  {
    var q', r' := x / d, x % d;
    assert x == q' * d + r';
    if q' > q {
      assert (q + 1) * d == q * d + d;
      MulMonotone(q + 1, q', d);
    } else if q' < q {
      assert (q' + 1) * d == q' * d + d;
      MulMonotone(q' + 1, q, d);
    }
  }

  lemma DivStep(x: nat, d: nat)
    requires d > 0
    ensures (x + d) / d == x / d + 1
  {
    DivUnique(x + d, d, x / d + 1, x % d);
  }

  /** Appending one sample to a stream advances its frame position, wrapping at a full frame. */
  lemma FrameStep(n: nat)
    ensures var wraps := n % FrameSize + 1 == FrameSize;
      (n + 1) % FrameSize == (if wraps then 0 else n % FrameSize + 1) &&
      (n + 1) / FrameSize == n / FrameSize + (if wraps then 1 else 0)
  {
    var wraps := n % FrameSize + 1 == FrameSize;
    var q := n / FrameSize + (if wraps then 1 else 0);
    var r := if wraps then 0 else n % FrameSize + 1;
    DivUnique(n + 1, FrameSize, q, r);
  }

  /**
   * The capture loop visits `ceil((limit - from) / stride)` indices, the
   * `j`-th being `from + j * stride`, all below `limit`.
   */
  lemma StridedShape(from: nat, limit: nat, stride: nat)
    requires stride > 0
    ensures |Strided(from, limit, stride)| == if from >= limit then 0 else (limit - from + stride - 1) / stride
    ensures forall j :: 0 <= j < |Strided(from, limit, stride)| ==>
      Strided(from, limit, stride)[j] == from + j * stride < limit
  {
    StridedLength(from, limit, stride);
    StridedElements(from, limit, stride);
  }

  lemma {:induction false} StridedLength(from: nat, limit: nat, stride: nat)
    requires stride > 0
    ensures |Strided(from, limit, stride)| == if from >= limit then 0 else (limit - from + stride - 1) / stride
    decreases limit - from
  {
    if from < limit {
      StridedLength(from + stride, limit, stride);
      assert |Strided(from, limit, stride)| == 1 + |Strided(from + stride, limit, stride)|;
      if from + stride < limit {
        DivStep(limit - from - 1, stride);
        assert limit - from - 1 + stride == limit - (from + stride) + stride - 1 + stride;
      } else {
        DivUnique(limit - from + stride - 1, stride, 1, limit - from - 1);
      }
    }
  }

  lemma {:induction false} StridedElements(from: nat, limit: nat, stride: nat)
    requires stride > 0
    ensures forall j :: 0 <= j < |Strided(from, limit, stride)| ==>
      Strided(from, limit, stride)[j] == from + j * stride < limit
    decreases limit - from
  {
    if from < limit {
      var rest := Strided(from + stride, limit, stride);
      StridedElements(from + stride, limit, stride);
      forall j | 0 < j < |Strided(from, limit, stride)|
        ensures Strided(from, limit, stride)[j] == from + j * stride
      {
        assert Strided(from, limit, stride)[j] == rest[j - 1];
        assert from + stride + (j - 1) * stride == from + j * stride;
      }
    }
  }

  /** The converted samples at indices `from, from + channels, ...` of a chunk, in order. */
  function TakenFrom(format: WaveFormat, chunk: Chunk, from: nat): seq<real>
    requires Supported(format) && format.channels > 0
    decreases SamplesAvailable(format, chunk) - from
  {
    if from >= SamplesAvailable(format, chunk) then []
    else [Decode(format, chunk, from)] + TakenFrom(format, chunk, from + format.channels)
  }

  /**
   * The capture loop ends: it advances by the channel count, so with zero
   * channels it ends only when there is no sample to read (fewer bytes
   * than one sample), or when a width under 8 bits makes the per-sample
   * byte count 0 and the division raises before the loop.
   */
  predicate CaptureEnds(format: WaveFormat, chunk: Chunk)
  {
    format.channels > 0 || BytesPerSample(format) == 0 || chunk.bytesRecorded < BytesPerSample(format)
  }

  /** The converted samples a chunk contributes, in order. */
  function Taken(format: WaveFormat, chunk: Chunk): seq<real>
    requires CaptureEnds(format, chunk)
  {
    if !Supported(format) || format.channels == 0 then [] else TakenFrom(format, chunk, 0)
  }

  /** The samples taken from `from` on are those decoded at the strided indices from `from`. */
  lemma {:induction false} TakenFromStrided(format: WaveFormat, chunk: Chunk, from: nat)
    requires Supported(format) && format.channels > 0
    ensures var indices := Strided(from, SamplesAvailable(format, chunk), format.channels);
      |TakenFrom(format, chunk, from)| == |indices| &&
      forall j :: 0 <= j < |indices| ==> TakenFrom(format, chunk, from)[j] == Decode(format, chunk, indices[j])
    decreases SamplesAvailable(format, chunk) - from
  {
    if from < SamplesAvailable(format, chunk) {
      TakenFromStrided(format, chunk, from + format.channels);
    }
  }

  /**
   * An unsupported depth contributes nothing, and neither does a chunk read
   * with zero channels (it holds no sample). Otherwise a chunk contributes
   * `k = ceil(samplesAvailable / channels)` samples, the `j`-th being the
   * sample at index `j * channels` (the first channel of group `j`).
   */
  lemma TakenShape(format: WaveFormat, chunk: Chunk)
    requires CaptureEnds(format, chunk)
    ensures !Supported(format) || format.channels == 0 ==> Taken(format, chunk) == []
    ensures Supported(format) && format.channels > 0 ==>
      var avail, c := SamplesAvailable(format, chunk), format.channels;
      |Taken(format, chunk)| == (avail + c - 1) / c &&
      forall j :: 0 <= j < |Taken(format, chunk)| ==>
        j * c < avail && Taken(format, chunk)[j] == Decode(format, chunk, j * c)
  {
    if Supported(format) && format.channels > 0 {
      var avail, c := SamplesAvailable(format, chunk), format.channels;
      StridedShape(0, avail, c);
      TakenFromStrided(format, chunk, 0);
      if avail == 0 {
        assert (avail + c - 1) / c == 0;
      }
    }
  }

  /** The complete frames of a sample stream, in order. */
  function Blocks(stream: seq<real>): seq<seq<real>>
  {
    seq(|stream| / FrameSize, j requires 0 <= j < |stream| / FrameSize =>
      stream[j * FrameSize .. (j + 1) * FrameSize])
  }

  /**
   * Appending one sample completes a new frame exactly when the length
   * reaches a multiple of the frame size; the new frame is the last
   * `FrameSize` samples.
   */
  lemma BlocksSnoc(stream: seq<real>, x: real)
    ensures var s := stream + [x];
      if |s| % FrameSize == 0 then Blocks(s) == Blocks(stream) + [s[|s| - FrameSize..]]
      else Blocks(s) == Blocks(stream)
  {
    var s := stream + [x];
    var k := |stream| / FrameSize;
    forall j | 0 <= j < k
      ensures Blocks(s)[j] == Blocks(stream)[j]
    {
      assert s[j * FrameSize .. (j + 1) * FrameSize] == stream[j * FrameSize .. (j + 1) * FrameSize];
    }
    if |s| % FrameSize == 0 {
      assert |s| == (k + 1) * FrameSize;
      assert |s| / FrameSize == k + 1;
      assert Blocks(s)[k] == s[|s| - FrameSize..];
      assert Blocks(s) == Blocks(stream) + [s[|s| - FrameSize..]];
    } else {
      assert |s| / FrameSize == k;
      assert Blocks(s) == Blocks(stream);
    }
  }

  /**
   * Taking the sample at `from` moves it from the front of what is left to
   * the end of what was received.
   */
  lemma TakeOne(format: WaveFormat, chunk: Chunk, from: nat, received: seq<real>, stream: seq<real>)
    requires Supported(format) && format.channels > 0 && from < SamplesAvailable(format, chunk)
    requires received + TakenFrom(format, chunk, from) == stream
    ensures (received + [Decode(format, chunk, from)]) + TakenFrom(format, chunk, from + format.channels) == stream
  {
    assert TakenFrom(format, chunk, from) == [Decode(format, chunk, from)] + TakenFrom(format, chunk, from + format.channels);
  }

  /** A stream shorter than a frame has no complete frame and is its own tail. */
  lemma ShortStream(stream: seq<real>)
    requires |stream| < FrameSize
    ensures Blocks(stream) == [] && |stream| / FrameSize == 0 && |stream| % FrameSize == |stream|
  {
  }

  /**
   * A buffer holding the incomplete tail of `stream`, extended by one
   * sample, is either the newest complete frame of the extended stream or
   * its new incomplete tail.
   */
  lemma TailSnoc(stream: seq<real>, tail: seq<real>, x: real)
    requires |tail| == |stream| % FrameSize && tail == stream[|stream| - |tail|..]
    ensures var s, t := stream + [x], tail + [x];
      t == s[|s| - |t|..] &&
      if |t| == FrameSize then
        |s| / FrameSize == |stream| / FrameSize + 1 && |s| % FrameSize == 0 &&
        Blocks(s) == Blocks(stream) + [t]
      else
        |s| / FrameSize == |stream| / FrameSize && |s| % FrameSize == |t| &&
        Blocks(s) == Blocks(stream)
  {
    var s, t := stream + [x], tail + [x];
    BlocksSnoc(stream, x);
    FrameStep(|stream|);
    assert t == s[|s| - |t|..];
  }
}

/** The spectrum half of audio feature extraction: the FFT chunk, the
    positive-frequency half of the transform, averaging into 64 log-spaced
    bins, and normalisation (app/states/audio_state.py, `process_audio`).
    The transform itself and the bin edges are inputs: the FFT magnitudes
    as a non-negative sequence, the edges as the 65 increasing values that
    `np.logspace(log10(20), log10(sample_rate / 2), 65)` produces. */
module Spectrum {
  import opened Normalization

  const FFT_SIZE: nat := 2048
  const NUM_BINS: nat := 64
  /** Lower edge of the first bin, in Hz. */
  const MIN_FREQUENCY: real := 20.0

  datatype SpectrumPoint = SpectrumPoint(frequency: real, magnitude: real)

  /** `samples[:2048]` when the signal is longer than 2048 samples, the whole
      signal otherwise (no padding). */
  function FftChunk(s: seq<real>): (r: seq<real>)
    ensures r <= s
    ensures |r| == if |s| > FFT_SIZE then FFT_SIZE else |s|
  {
    if |s| > FFT_SIZE then s[..FFT_SIZE] else s
  }

  /** `np.abs(fft_result[:n // 2])`: the magnitudes of the first half of the
      transform, given the magnitudes of the whole transform. */
  function PositiveHalf(fftAbs: seq<real>): (r: seq<real>)
    ensures |r| == |fftAbs| / 2
    ensures r <= fftAbs
    ensures NonNegative(fftAbs) ==> NonNegative(r)
  {
    fftAbs[..|fftAbs| / 2]
  }

  predicate NonNegative(xs: seq<real>) {
    forall i :: 0 <= i < |xs| ==> xs[i] >= 0.0
  }

  /** `np.fft.fftfreq(n, 1 / sample_rate)[:n // 2]`: bin k has frequency
      `k * sample_rate / n`. The list starts at 0, rises by `sample_rate / n`
      per bin and stays below the Nyquist frequency `sample_rate / 2`. */
  function BinFrequencies(n: nat, sampleRate: nat): (r: seq<real>)
    requires n > 0
    ensures |r| == n / 2
    ensures |r| > 0 ==> r[0] == 0.0
    ensures forall k :: 0 <= k < |r| - 1 ==> r[k + 1] - r[k] == sampleRate as real / n as real
    ensures forall k :: 0 <= k < |r| ==> 0.0 <= r[k] < sampleRate as real / 2.0 || sampleRate == 0
  {
    var r := seq(n / 2, k requires 0 <= k < n / 2 => BinFrequency(k, n, sampleRate));
    forall k | 0 <= k < n / 2
      ensures 0.0 <= r[k] < sampleRate as real / 2.0 || sampleRate == 0
    {
      BelowNyquist(k, n, sampleRate);
    }
    forall k | 0 <= k < n / 2 - 1
      ensures r[k + 1] - r[k] == sampleRate as real / n as real
    {
      FrequencyStep(k, n, sampleRate);
    }
    FirstFrequency(n, sampleRate);
    r
  }

  /** Frequency of FFT bin k. */
  function BinFrequency(k: nat, n: nat, sampleRate: nat): real
    requires n > 0
  {
    k as real * sampleRate as real / n as real
  }

  lemma FirstFrequency(n: nat, sampleRate: nat)
    requires n > 0
    ensures BinFrequency(0, n, sampleRate) == 0.0
  {
  }

  /** Neighbouring FFT bins are `sample_rate / n` apart. */
  lemma FrequencyStep(k: nat, n: nat, sampleRate: nat)
    requires n > 0
    ensures BinFrequency(k + 1, n, sampleRate) - BinFrequency(k, n, sampleRate) == sampleRate as real / n as real
  {
    var kr, nr, sr := k as real, n as real, sampleRate as real;
    assert (kr + 1.0) * sr == kr * sr + sr;
  }

  lemma BelowNyquist(k: nat, n: nat, sampleRate: nat)
    requires n > 0 && k < n / 2
    ensures 0.0 <= BinFrequency(k, n, sampleRate)
    ensures sampleRate > 0 ==> BinFrequency(k, n, sampleRate) < sampleRate as real / 2.0
  {
    var kr, nr, sr := k as real, n as real, sampleRate as real;
    assert 2 * k < n;
    assert 2.0 * kr < nr;
    assert kr * sr >= 0.0;
    if sampleRate > 0 {
      assert 2.0 * kr * sr < nr * sr;
      var f := kr * sr / nr;
      assert f * nr == kr * sr;
      assert 2.0 * f * nr < nr * sr;
    }
  }

  /** Edge i is below edge i + 1. */
  predicate RisesAt(edges: seq<real>, i: nat)
    requires i + 1 < |edges|
  {
    edges[i] < edges[i + 1]
  }

  /** The bin edges `np.logspace` produces for a sample rate above 40 Hz:
      65 strictly increasing values from 20 Hz to the Nyquist frequency. */
  predicate ValidEdges(edges: seq<real>, sampleRate: nat) {
    && |edges| == NUM_BINS + 1
    && edges[0] == MIN_FREQUENCY
    && edges[NUM_BINS] == sampleRate as real / 2.0
    && forall i: nat :: i < NUM_BINS ==> RisesAt(edges, i)
  }

  /** Adjacent increase gives increase between any two edges. */
  lemma {:induction false} EdgesIncreasing(edges: seq<real>, sampleRate: nat, i: nat, j: nat)
    requires ValidEdges(edges, sampleRate)
    requires i < j <= NUM_BINS
    ensures edges[i] < edges[j]
    decreases j - i
  {
    assert RisesAt(edges, i);
    if i + 1 < j {
      EdgesIncreasing(edges, sampleRate, i + 1, j);
    }
  }

  /** Only a sample rate above 40 Hz makes the edges increase. */
  lemma ValidEdgesNeedRateAbove40(edges: seq<real>, sampleRate: nat)
    requires ValidEdges(edges, sampleRate)
    ensures sampleRate > 40
  {
    EdgesIncreasing(edges, sampleRate, 0, NUM_BINS);
  }

  /** The half-open bin test `(freqs >= lo) & (freqs < hi)`. */
  predicate InBin(f: real, lo: real, hi: real) {
    lo <= f < hi
  }

  /** Number of frequencies in `[lo, hi)`: the size of `magnitude[mask]`. */
  function MaskCount(freqs: seq<real>, lo: real, hi: real): (c: nat)
    ensures c <= |freqs|
    ensures c > 0 <==> exists j :: 0 <= j < |freqs| && InBin(freqs[j], lo, hi)
  {
    if |freqs| == 0 then 0
    else
      var rest := MaskCount(freqs[..|freqs| - 1], lo, hi);
      assert forall j :: 0 <= j < |freqs| - 1 ==> freqs[..|freqs| - 1][j] == freqs[j];
      rest + if InBin(freqs[|freqs| - 1], lo, hi) then 1 else 0
  }

  /** Sum of the magnitudes whose frequency is in `[lo, hi)`. */
  function MaskSum(freqs: seq<real>, mags: seq<real>, lo: real, hi: real): real
    requires |freqs| == |mags|
  {
    if |freqs| == 0 then 0.0
    else
      MaskSum(freqs[..|freqs| - 1], mags[..|mags| - 1], lo, hi)
        + if InBin(freqs[|freqs| - 1], lo, hi) then mags[|mags| - 1] else 0.0
  }

  lemma PrefixFacts(freqs: seq<real>, mags: seq<real>, n: nat)
    requires |freqs| == |mags| && n <= |freqs|
    ensures forall j :: 0 <= j < n ==> freqs[..n][j] == freqs[j] && mags[..n][j] == mags[j]
  {
  }

  /** With non-negative magnitudes the masked sum is non-negative. */
  lemma {:induction false} MaskSumNonNegative(freqs: seq<real>, mags: seq<real>, lo: real, hi: real)
    requires |freqs| == |mags|
    requires NonNegative(mags)
    ensures 0.0 <= MaskSum(freqs, mags, lo, hi)
  {
    if |freqs| > 0 {
      var n := |freqs| - 1;
      PrefixFacts(freqs, mags, n);
      MaskSumNonNegative(freqs[..n], mags[..n], lo, hi);
    }
  }

  /** With the magnitudes in the bin bounded by `b`, the masked sum is at
      most `b` times the masked count. */
  lemma {:induction false} MaskSumAtMost(freqs: seq<real>, mags: seq<real>, lo: real, hi: real, b: real)
    requires |freqs| == |mags|
    requires forall j :: 0 <= j < |freqs| && InBin(freqs[j], lo, hi) ==> mags[j] <= b
    ensures MaskSum(freqs, mags, lo, hi) <= Repeat(MaskCount(freqs, lo, hi), b)
  {
    if |freqs| > 0 {
      var n := |freqs| - 1;
      PrefixFacts(freqs, mags, n);
      MaskSumAtMost(freqs[..n], mags[..n], lo, hi, b);
      MaskSumStep(freqs, mags, lo, hi, b);
    }
  }

  /** The inductive step of the bound: one more element keeps it. */
  lemma MaskSumStep(freqs: seq<real>, mags: seq<real>, lo: real, hi: real, b: real)
    requires |freqs| == |mags| > 0
    requires InBin(freqs[|freqs| - 1], lo, hi) ==> mags[|mags| - 1] <= b
    requires MaskSum(freqs[..|freqs| - 1], mags[..|mags| - 1], lo, hi)
          <= Repeat(MaskCount(freqs[..|freqs| - 1], lo, hi), b)
    ensures MaskSum(freqs, mags, lo, hi) <= Repeat(MaskCount(freqs, lo, hi), b)
  {
    var n := |freqs| - 1;
    var c := MaskCount(freqs[..n], lo, hi);
    if InBin(freqs[n], lo, hi) {
      assert MaskCount(freqs, lo, hi) == c + 1;
      assert Repeat(c + 1, b) == Repeat(c, b) + b;
    }
  }

  /** `c` copies of `b` added up: the product `c * b` without a
      multiplication, so that induction over the mask stays linear. */
  function Repeat(c: nat, b: real): real {
    if c == 0 then 0.0 else Repeat(c - 1, b) + b
  }

  lemma {:induction false} RepeatIsProduct(c: nat, b: real)
    ensures Repeat(c, b) == c as real * b
  {
    if c > 0 {
      RepeatIsProduct(c - 1, b);
      ScaleSum(c as real, (c - 1) as real, 1.0, b);
    }
  }

  lemma ScaleSum(x: real, y: real, k: real, b: real)
    requires x == y + k
    ensures x * b == y * b + k * b
  {
  }

  /** `np.mean(magnitude[mask])` when some frequency is in `[lo, hi)`, else 0. */
  function BinMean(freqs: seq<real>, mags: seq<real>, lo: real, hi: real): (r: real)
    requires |freqs| == |mags|
    ensures MaskCount(freqs, lo, hi) == 0 ==> r == 0.0
    ensures r * MaskCount(freqs, lo, hi) as real == MaskSum(freqs, mags, lo, hi)
      || MaskCount(freqs, lo, hi) == 0
  {
    var c := MaskCount(freqs, lo, hi);
    if c > 0 then MaskSum(freqs, mags, lo, hi) / c as real else 0.0
  }

  lemma MeanBelowBound(sum: real, count: nat, b: real)
    requires count > 0
    requires 0.0 <= sum <= count as real * b
    ensures 0.0 <= sum / count as real <= b
  {
    var m := sum / count as real;
    assert m * count as real == sum;
  }

  lemma QuotientNonNegative(sum: real, count: nat)
    requires count > 0 && sum >= 0.0
    ensures sum / count as real >= 0.0
  {
  }

  /** With non-negative magnitudes, a bin's mean is non-negative and never
      exceeds a bound on the magnitudes that fall in the bin. */
  lemma BinMeanBounds(freqs: seq<real>, mags: seq<real>, lo: real, hi: real, b: real)
    requires |freqs| == |mags|
    requires NonNegative(mags)
    requires b >= 0.0
    requires forall j :: 0 <= j < |freqs| && InBin(freqs[j], lo, hi) ==> mags[j] <= b
    ensures 0.0 <= BinMean(freqs, mags, lo, hi) <= b
  {
    MaskSumNonNegative(freqs, mags, lo, hi);
    MaskSumAtMost(freqs, mags, lo, hi, b);
    var c := MaskCount(freqs, lo, hi);
    RepeatIsProduct(c, b);
    if c > 0 {
      MeanBelowBound(MaskSum(freqs, mags, lo, hi), c, b);
    }
  }

  /** One mean per bin, `bin_magnitudes` before normalisation. */
  function BinMagnitudes(freqs: seq<real>, mags: seq<real>, edges: seq<real>): (r: seq<real>)
    requires |freqs| == |mags|
    requires |edges| == NUM_BINS + 1
    ensures |r| == NUM_BINS
    ensures forall i :: 0 <= i < NUM_BINS ==> r[i] == BinMean(freqs, mags, edges[i], edges[i + 1])
  {
    seq(NUM_BINS, i requires 0 <= i < NUM_BINS => BinMean(freqs, mags, edges[i], edges[i + 1]))
  }

  /** The bin means normalised by the largest: each in [0, 1], and either
      some bin is exactly 1 or every bin mean was 0. With a positive largest
      mean each bin is its mean divided by that largest one; otherwise the
      means are kept as they are. */
  function NormalizedBins(freqs: seq<real>, mags: seq<real>, edges: seq<real>): (r: seq<real>)
    requires |freqs| == |mags|
    requires |edges| == NUM_BINS + 1
    requires NonNegative(mags)
    ensures |r| == NUM_BINS
    ensures forall i :: 0 <= i < NUM_BINS ==> 0.0 <= r[i] <= 1.0
    ensures (exists i :: 0 <= i < NUM_BINS && r[i] == 1.0)
      || (forall i :: 0 <= i < NUM_BINS ==> r[i] == 0.0 == BinMagnitudes(freqs, mags, edges)[i])
    ensures var bins := BinMagnitudes(freqs, mags, edges);
      && (Max(bins) > 0.0 ==> forall i :: 0 <= i < NUM_BINS ==> r[i] == bins[i] / Max(bins))
      && (Max(bins) <= 0.0 ==> r == bins)
  {
    var bins := BinMagnitudes(freqs, mags, edges);
    BinsNonNegative(freqs, mags, edges);
    MaxNormalize(bins)
  }

  /** `bin_magnitudes` after normalisation: bin the positive-half
      magnitudes of the chunk's transform and divide by the largest bin. */
  function SpectrumMagnitudes(sampleRate: nat, samples: seq<real>, fftAbs: seq<real>, edges: seq<real>)
    : (r: seq<real>)
    requires |samples| > 0
    requires |fftAbs| == |FftChunk(samples)|
    requires NonNegative(fftAbs)
    requires |edges| == NUM_BINS + 1
    ensures |r| == NUM_BINS
    ensures forall i :: 0 <= i < NUM_BINS ==> 0.0 <= r[i] <= 1.0
    ensures (exists i :: 0 <= i < NUM_BINS && r[i] == 1.0)
      || (forall i :: 0 <= i < NUM_BINS ==> r[i] == 0.0)
    ensures (forall k :: 0 <= k < |fftAbs| ==> fftAbs[k] == 0.0) ==>
      forall i :: 0 <= i < NUM_BINS ==> r[i] == 0.0
  {
    var n := |FftChunk(samples)|;
    var mags := PositiveHalf(fftAbs);
    var freqs := BinFrequencies(n, sampleRate);
    SilentBins(freqs, mags, edges);
    NormalizedBins(freqs, mags, edges)
  }

  /** The shape every spectrum has: 64 points labelled by the lower bin
      edges, magnitudes in [0, 1], and some magnitude exactly 1 unless all
      are 0. */
  predicate SpectrumShape(r: seq<SpectrumPoint>, edges: seq<real>)
    requires |edges| == NUM_BINS + 1
  {
    && |r| == NUM_BINS
    && (forall i :: 0 <= i < NUM_BINS ==> r[i].frequency == edges[i])
    && (forall i :: 0 <= i < NUM_BINS ==> 0.0 <= r[i].magnitude <= 1.0)
    && ((exists i :: 0 <= i < NUM_BINS && r[i].magnitude == 1.0)
        || (forall i :: 0 <= i < NUM_BINS ==> r[i].magnitude == 0.0))
  }

  /** The spectrum: the normalised bin magnitudes, each labelled with its
      bin's lower edge; all zero when the transform is. */
  function ExtractSpectrum(sampleRate: nat, samples: seq<real>, fftAbs: seq<real>, edges: seq<real>)
    : (r: seq<SpectrumPoint>)
    requires |samples| > 0
    requires |fftAbs| == |FftChunk(samples)|
    requires NonNegative(fftAbs)
    requires ValidEdges(edges, sampleRate)
    ensures |r| == NUM_BINS
    ensures SpectrumShape(r, edges)
    ensures (forall k :: 0 <= k < |fftAbs| ==> fftAbs[k] == 0.0) ==>
      forall i :: 0 <= i < NUM_BINS ==> r[i].magnitude == 0.0
  {
    var m := SpectrumMagnitudes(sampleRate, samples, fftAbs, edges);
    LabelShape(edges, m);
    Label(edges, m)
  }

  /** Magnitude i of the spectrum `r` is the mean magnitude over the
      frequencies in `[edges[i], edges[i + 1])` (0 for an empty bin),
      divided by the largest bin mean; when no bin mean is positive every
      magnitude is 0. */
  predicate MeansNormalized(r: seq<SpectrumPoint>, freqs: seq<real>, mags: seq<real>, edges: seq<real>)
    requires |freqs| == |mags|
    requires |edges| == NUM_BINS + 1
  {
    var bins := BinMagnitudes(freqs, mags, edges);
    && |r| == NUM_BINS
    && (Max(bins) > 0.0 ==> forall i :: 0 <= i < NUM_BINS ==>
          r[i].magnitude == BinMean(freqs, mags, edges[i], edges[i + 1]) / Max(bins))
    && (Max(bins) <= 0.0 ==> forall i :: 0 <= i < NUM_BINS ==> r[i].magnitude == 0.0)
  }

  /** The spectrum's values: magnitude i is the mean transform magnitude
      over the frequencies in `[edges[i], edges[i + 1])` (0 for an empty
      bin), divided by the largest bin mean; when no bin mean is positive
      the spectrum is all zero. */
  lemma ExtractSpectrumMeans(sampleRate: nat, samples: seq<real>, fftAbs: seq<real>, edges: seq<real>)
    requires |samples| > 0
    requires |fftAbs| == |FftChunk(samples)|
    requires NonNegative(fftAbs)
    requires ValidEdges(edges, sampleRate)
    ensures MeansNormalized(ExtractSpectrum(sampleRate, samples, fftAbs, edges),
                            BinFrequencies(|FftChunk(samples)|, sampleRate), PositiveHalf(fftAbs), edges)
  {
    var freqs := BinFrequencies(|FftChunk(samples)|, sampleRate);
    var mags := PositiveHalf(fftAbs);
    var r := ExtractSpectrum(sampleRate, samples, fftAbs, edges);
    assert r == Label(edges, NormalizedBins(freqs, mags, edges));
    LabelledMeans(freqs, mags, edges, r);
  }

  lemma LabelledMeans(freqs: seq<real>, mags: seq<real>, edges: seq<real>, r: seq<SpectrumPoint>)
    requires |freqs| == |mags|
    requires |edges| == NUM_BINS + 1
    requires NonNegative(mags)
    requires r == Label(edges, NormalizedBins(freqs, mags, edges))
    ensures MeansNormalized(r, freqs, mags, edges)
  {
    var bins := BinMagnitudes(freqs, mags, edges);
    BinsNonNegative(freqs, mags, edges);
    if Max(bins) <= 0.0 {
      forall i | 0 <= i < NUM_BINS
        ensures r[i].magnitude == 0.0
      {
        assert 0.0 <= bins[i] <= Max(bins);
      }
    }
  }

  lemma LabelShape(edges: seq<real>, m: seq<real>)
    requires |edges| == NUM_BINS + 1
    requires |m| == NUM_BINS
    requires forall i :: 0 <= i < NUM_BINS ==> 0.0 <= m[i] <= 1.0
    requires (exists i :: 0 <= i < NUM_BINS && m[i] == 1.0) || (forall i :: 0 <= i < NUM_BINS ==> m[i] == 0.0)
    ensures SpectrumShape(Label(edges, m), edges)
  {
  }

  /** A spectrum labelled by valid lower edges has strictly increasing
      frequencies in [20, sample_rate / 2): the Nyquist frequency is never
      a label. */
  lemma SpectrumFrequenciesOrdered(r: seq<SpectrumPoint>, edges: seq<real>, sampleRate: nat)
    requires ValidEdges(edges, sampleRate)
    requires SpectrumShape(r, edges)
    ensures LabelsOrdered(r, sampleRate)
  {
    LowerEdgesOrdered(edges, sampleRate);
  }

  /** Labels that strictly increase and lie in [20, sample_rate / 2). */
  predicate LabelsOrdered(r: seq<SpectrumPoint>, sampleRate: nat) {
    && |r| == NUM_BINS
    && (forall i, j :: 0 <= i < j < NUM_BINS ==> r[i].frequency < r[j].frequency)
    && (forall i :: 0 <= i < NUM_BINS ==> MIN_FREQUENCY <= r[i].frequency < sampleRate as real / 2.0)
  }

  /** `zip(bin_edges[:-1], bin_magnitudes)`: each magnitude paired with the
      lower edge of its bin. */
  function Label(edges: seq<real>, magnitudes: seq<real>): (r: seq<SpectrumPoint>)
    requires |edges| == |magnitudes| + 1
    ensures |r| == |magnitudes|
    ensures forall i :: 0 <= i < |r| ==> r[i].frequency == edges[i] && r[i].magnitude == magnitudes[i]
  {
    seq(|magnitudes|, i requires 0 <= i < |magnitudes| => SpectrumPoint(edges[i], magnitudes[i]))
  }

  lemma BinsNonNegative(freqs: seq<real>, mags: seq<real>, edges: seq<real>)
    requires |freqs| == |mags|
    requires |edges| == NUM_BINS + 1
    requires NonNegative(mags)
    ensures NonNegative(BinMagnitudes(freqs, mags, edges))
  {
    var bins := BinMagnitudes(freqs, mags, edges);
    forall i | 0 <= i < NUM_BINS
      ensures bins[i] >= 0.0
    {
      BinMeanNonNegative(freqs, mags, edges[i], edges[i + 1]);
    }
  }

  lemma BinMeanNonNegative(freqs: seq<real>, mags: seq<real>, lo: real, hi: real)
    requires |freqs| == |mags|
    requires NonNegative(mags)
    ensures BinMean(freqs, mags, lo, hi) >= 0.0
  {
    MaskSumNonNegative(freqs, mags, lo, hi);
    var c := MaskCount(freqs, lo, hi);
    if c > 0 {
      QuotientNonNegative(MaskSum(freqs, mags, lo, hi), c);
    }
  }

  /** The lower edges increase strictly and lie in [20, sample_rate / 2). */
  lemma LowerEdgesOrdered(edges: seq<real>, sampleRate: nat)
    requires ValidEdges(edges, sampleRate)
    ensures forall i, j :: 0 <= i < j < NUM_BINS ==> edges[i] < edges[j]
    ensures forall i :: 0 <= i < NUM_BINS ==> MIN_FREQUENCY <= edges[i] < sampleRate as real / 2.0
  {
    forall i, j | 0 <= i < j < NUM_BINS
      ensures edges[i] < edges[j]
    {
      EdgesIncreasing(edges, sampleRate, i, j);
    }
    forall i | 0 <= i < NUM_BINS
      ensures MIN_FREQUENCY <= edges[i] < sampleRate as real / 2.0
    {
      if i > 0 {
        EdgesIncreasing(edges, sampleRate, 0, i);
      }
      EdgesIncreasing(edges, sampleRate, i, NUM_BINS);
    }
  }

  /** Every frequency of the positive half lies below the last edge, so the
      half-open last bin loses nothing: the Nyquist frequency itself is never
      among the frequencies. */
  lemma FrequenciesBelowLastEdge(n: nat, sampleRate: nat, edges: seq<real>)
    requires n > 0
    requires ValidEdges(edges, sampleRate)
    ensures forall k :: 0 <= k < n / 2 ==> BinFrequencies(n, sampleRate)[k] < edges[NUM_BINS]
  {
    ValidEdgesNeedRateAbove40(edges, sampleRate);
  }

  /** No positive-half frequency of at least 20 Hz is dropped: the last
      bin is open at the Nyquist frequency, which no frequency reaches, so
      each such frequency falls in some bin. */
  lemma AudibleFrequenciesBinned(n: nat, sampleRate: nat, edges: seq<real>, k: nat)
    requires n > 0 && k < n / 2
    requires ValidEdges(edges, sampleRate)
    requires BinFrequencies(n, sampleRate)[k] >= MIN_FREQUENCY
    ensures exists i :: 0 <= i < NUM_BINS && InBin(BinFrequencies(n, sampleRate)[k], edges[i], edges[i + 1])
  {
    FrequenciesBelowLastEdge(n, sampleRate, edges);
    FrequencyBinned(edges, sampleRate, BinFrequencies(n, sampleRate)[k]);
  }

  /** A frequency lies in some bin exactly when it is in
      [20, sample_rate / 2). */
  lemma FrequencyBinned(edges: seq<real>, sampleRate: nat, f: real)
    requires ValidEdges(edges, sampleRate)
    ensures (exists i :: 0 <= i < NUM_BINS && InBin(f, edges[i], edges[i + 1]))
      <==> edges[0] <= f < edges[NUM_BINS]
  {
    if edges[0] <= f < edges[NUM_BINS] {
      var i := FindBin(edges, sampleRate, f, NUM_BINS);
    }
    forall i | 0 <= i < NUM_BINS && InBin(f, edges[i], edges[i + 1])
      ensures edges[0] <= f < edges[NUM_BINS]
    {
      if i > 0 { EdgesIncreasing(edges, sampleRate, 0, i); }
      if i + 1 < NUM_BINS { EdgesIncreasing(edges, sampleRate, i + 1, NUM_BINS); }
    }
  }

  /** The bins are disjoint: no frequency lies in two of them. */
  lemma BinsDisjoint(edges: seq<real>, sampleRate: nat, f: real, i: nat, j: nat)
    requires ValidEdges(edges, sampleRate)
    requires i < NUM_BINS && j < NUM_BINS
    requires InBin(f, edges[i], edges[i + 1]) && InBin(f, edges[j], edges[j + 1])
    ensures i == j
  {
    if i < j {
      if i + 1 < j { EdgesIncreasing(edges, sampleRate, i + 1, j); }
    } else if j < i {
      if j + 1 < i { EdgesIncreasing(edges, sampleRate, j + 1, i); }
    }
  }

  /** The bin below `hi` that holds `f`, found by walking down from `hi`. */
  lemma {:induction false} FindBin(edges: seq<real>, sampleRate: nat, f: real, hi: nat) returns (i: nat)
    requires ValidEdges(edges, sampleRate)
    requires 0 < hi <= NUM_BINS
    requires edges[0] <= f < edges[hi]
    ensures i < hi && InBin(f, edges[i], edges[i + 1])
    decreases hi
  {
    if edges[hi - 1] <= f {
      i := hi - 1;
    } else {
      i := FindBin(edges, sampleRate, f, hi - 1);
    }
  }

  /** All-zero magnitudes give all-zero normalised bins. */
  lemma SilentBins(freqs: seq<real>, mags: seq<real>, edges: seq<real>)
    requires |freqs| == |mags|
    requires |edges| == NUM_BINS + 1
    requires NonNegative(mags)
    ensures (forall k :: 0 <= k < |mags| ==> mags[k] == 0.0) ==>
      forall i :: 0 <= i < NUM_BINS ==> NormalizedBins(freqs, mags, edges)[i] == 0.0
  {
    if forall k :: 0 <= k < |mags| ==> mags[k] == 0.0 {
      SilentBinsCase(freqs, mags, edges);
    }
  }

  lemma SilentBinsCase(freqs: seq<real>, mags: seq<real>, edges: seq<real>)
    requires |freqs| == |mags|
    requires |edges| == NUM_BINS + 1
    requires forall k :: 0 <= k < |mags| ==> mags[k] == 0.0
    ensures forall i :: 0 <= i < NUM_BINS ==> NormalizedBins(freqs, mags, edges)[i] == 0.0
  {
    var bins := BinMagnitudes(freqs, mags, edges);
    forall i | 0 <= i < NUM_BINS
      ensures bins[i] == 0.0
    {
      BinMeanBounds(freqs, mags, edges[i], edges[i + 1], 0.0);
    }
    assert Max(bins) == 0.0 by {
      var k :| 0 <= k < NUM_BINS && bins[k] == Max(bins);
    }
  }
}

/** The waveform half of audio feature extraction: sample conversion,
    decimation to a fixed number of points, peak normalisation and linear
    time stamps (app/states/audio_state.py, `process_audio`). */
module Waveform {
  import opened Results
  import opened Normalization

  /** Number of points in the displayed waveform (`num_points`). */
  const NUM_POINTS: nat := 200

  /** Full-scale divisor for signed 16-bit PCM. */
  const INT16_FULL_SCALE: real := 32767.0

  newtype int16 = x: int | -32768 <= x < 32768

  /** The sample array `wavfile.read` returns: 16-bit PCM, or any other
      element type, whose values are kept as they are. */
  datatype SampleArray =
    | Int16Samples(pcm: seq<int16>)
    | OtherSamples(values: seq<real>)
  {
    function Length(): nat {
      match this
      case Int16Samples(p) => |p|
      case OtherSamples(v) => |v|
    }
  }

  datatype WaveformPoint = WaveformPoint(time: real, amplitude: real)

  /** int16 samples are divided by 32767; any other array passes unchanged. */
  function ToFloat(a: SampleArray): (r: seq<real>)
    ensures |r| == a.Length()
    ensures a.Int16Samples? ==> forall i :: 0 <= i < |r| ==>
      r[i] * INT16_FULL_SCALE == a.pcm[i] as int as real && -32768.0 / 32767.0 <= r[i] <= 1.0
    ensures a.OtherSamples? ==> r == a.values
  {
    match a
    case Int16Samples(p) =>
      seq(|p|, i requires 0 <= i < |p| => p[i] as int as real / INT16_FULL_SCALE)
    case OtherSamples(v) => v
  }

  /** `s[::step]` for a positive step: the elements at 0, step, 2*step, ...
      while the index is inside the sequence. */
  function EveryNth(s: seq<real>, step: nat): (r: seq<real>)
    requires step > 0
    decreases |s|
  {
    if |s| == 0 then []
    else if |s| <= step then [s[0]]
    else [s[0]] + EveryNth(s[step..], step)
  }

  /** The strided slice visits exactly the indices that are multiples of
      `step` below `|s|`: element j is `s[j*step]`, the last one is inside the
      sequence and the next multiple would fall outside it. */
  lemma {:induction false} EveryNthIndices(s: seq<real>, step: nat)
    requires step > 0
    ensures var r := EveryNth(s, step);
      && |r| * step >= |s|
      && (|r| > 0 ==> (|r| - 1) * step < |s|)
      && forall j :: 0 <= j < |r| ==> j * step < |s| && r[j] == s[j * step]
    decreases |s|
  {
    var r := EveryNth(s, step);
    if |s| == 0 {
    } else if |s| <= step {
      assert r == [s[0]];
    } else {
      var t := s[step..];
      var rt := EveryNth(t, step);
      EveryNthIndices(t, step);
      assert r == [s[0]] + rt;
      StepSucc(|rt|, step);
      forall j | 0 <= j < |r|
        ensures j * step < |s| && r[j] == s[j * step]
      {
        if j > 0 {
          assert r[j] == rt[j - 1];
          StepSucc(j - 1, step);
        }
      }
    }
  }

  lemma StepSucc(k: nat, step: nat)
    ensures (k + 1) * step == k * step + step
  {
  }

  /** `s[::step]`, which raises `ValueError` when the step is zero. */
  function StridedSlice(s: seq<real>, step: nat): (r: Result<seq<real>>)
    ensures r.Err? <==> step == 0
  {
    if step == 0 then Err("slice step cannot be zero") else Ok(EveryNth(s, step))
  }

  /** `s[:n]`. */
  function Take(s: seq<real>, n: nat): (r: seq<real>)
    ensures |r| == if |s| < n then |s| else n
    ensures r <= s
  {
    if |s| < n then s else s[..n]
  }

  lemma DecimationArithmetic(len: nat, step: nat, count: nat)
    requires len >= NUM_POINTS && step == len / NUM_POINTS
    requires count * step >= len
    ensures step > 0
    ensures count >= NUM_POINTS
  {
    assert NUM_POINTS * step <= len;
    if count < NUM_POINTS {
      NatMultiplyMonotone(count, NUM_POINTS - 1, step);
      assert false;
    }
  }

  lemma NatMultiplyMonotone(a: nat, b: nat, c: nat)
    requires a <= b
    ensures a * c <= b * c
  {
  }

  /** The first 200 elements of `s[::step]`, for the step decimation uses,
      are the samples at `i * step`. */
  lemma DecimatedIndices(s: seq<real>, step: nat)
    requires |s| >= NUM_POINTS && step == |s| / NUM_POINTS
    ensures step > 0
    ensures var d := Take(EveryNth(s, step), NUM_POINTS);
      && |d| == NUM_POINTS
      && forall i :: 0 <= i < NUM_POINTS ==> i * step < |s| && d[i] == s[i * step]
  {
    var strided := EveryNth(s, step);
    EveryNthIndices(s, step);
    DecimationArithmetic(|s|, step, |strided|);
    var d := Take(strided, NUM_POINTS);
    assert forall i :: 0 <= i < NUM_POINTS ==> d[i] == strided[i];
  }

  /** `samples[::step][:200]` with `step = len(samples) // 200`. It succeeds
      exactly when the signal has at least 200 samples, and then yields
      exactly 200 points, point i being sample `i * step`. */
  function Decimate(s: seq<real>): (r: Result<seq<real>>)
    ensures r.Ok? <==> |s| >= NUM_POINTS
    ensures r.Ok? ==>
      var step := |s| / NUM_POINTS;
      && |r.value| == NUM_POINTS
      && forall i :: 0 <= i < NUM_POINTS ==> i * step < |s| && r.value[i] == s[i * step]
  {
    var step := |s| / NUM_POINTS;
    match StridedSlice(s, step)
    case Err(e) => Err(e)
    case Ok(strided) =>
      DecimatedIndices(s, step);
      Ok(Take(strided, NUM_POINTS))
  }

  /** `np.linspace(0, duration, 200)`: 200 evenly spaced values from 0 to
      `duration` inclusive. */
  function TimeStamps(duration: real): (r: seq<real>)
    ensures |r| == NUM_POINTS
    ensures r[0] == 0.0 && r[NUM_POINTS - 1] == duration
    ensures forall i :: 0 <= i < NUM_POINTS - 1 ==> r[i + 1] - r[i] == duration / 199.0
  {
    seq(NUM_POINTS, i requires 0 <= i < NUM_POINTS => Stamp(i, duration))
  }

  /** Stamp i of `np.linspace(0, duration, 200)`. */
  function Stamp(i: nat, duration: real): real {
    i as real * duration / 199.0
  }

  /** For a non-negative duration the stamps never decrease and stay in
      `[0, duration]`. */
  lemma TimeStampsOrdered(duration: real)
    requires duration >= 0.0
    ensures var t := TimeStamps(duration);
      && (forall i, j :: 0 <= i <= j < NUM_POINTS ==> t[i] <= t[j])
      && (forall i :: 0 <= i < NUM_POINTS ==> 0.0 <= t[i] <= duration)
  {
    var t := TimeStamps(duration);
    forall i, j | 0 <= i <= j < NUM_POINTS
      ensures t[i] <= t[j]
    {
      StampGap(i, j, duration);
    }
    forall i | 0 <= i < NUM_POINTS
      ensures 0.0 <= t[i] <= duration
    {
      StampGap(0, i, duration);
      StampGap(i, NUM_POINTS - 1, duration);
    }
  }

  lemma StampGap(i: nat, j: nat, duration: real)
    requires i <= j < NUM_POINTS
    requires duration >= 0.0
    ensures TimeStamps(duration)[i] <= TimeStamps(duration)[j]
  {
    var t := TimeStamps(duration);
    assert t[i] == Stamp(i, duration) && t[j] == Stamp(j, duration);
    StampsOrdered(i, j, duration);
  }

  lemma StampsOrdered(i: nat, j: nat, duration: real)
    requires i <= j && duration >= 0.0
    ensures Stamp(i, duration) <= Stamp(j, duration)
  {
    var a, b := i as real, j as real;
    MultiplyMonotone(a, b, duration);
    var x, y := a * duration, b * duration;
    assert x <= y;
    assert x / 199.0 <= y / 199.0;
  }

  /** The waveform for a converted signal: decimate, normalise, pair with
      time stamps spanning `len(samples) / sample_rate` seconds. A signal
      shorter than 200 samples makes the step zero and the slice raise. */
  function ExtractWaveform(sampleRate: nat, samples: seq<real>): (r: Result<seq<WaveformPoint>>)
    requires sampleRate > 0
    ensures r.Ok? <==> |samples| >= NUM_POINTS
    ensures r.Ok? ==> |r.value| == NUM_POINTS
  {
    match Decimate(samples)
    case Err(e) => Err(e)
    case Ok(d) =>
      var amplitudes := PeakNormalize(d);
      var times := TimeStamps(|samples| as real / sampleRate as real);
      Ok(Zip(times, amplitudes))
  }

  /** `zip(time_points, downsampled)` as waveform points. */
  function Zip(times: seq<real>, amplitudes: seq<real>): (r: seq<WaveformPoint>)
    requires |times| == |amplitudes|
    ensures |r| == |times|
    ensures forall i :: 0 <= i < |r| ==> r[i].time == times[i] && r[i].amplitude == amplitudes[i]
  {
    seq(|times|, i requires 0 <= i < |times| => WaveformPoint(times[i], amplitudes[i]))
  }

  /** Duration of the signal in seconds. */
  function Duration(sampleRate: nat, samples: seq<real>): (d: real)
    requires sampleRate > 0
    ensures d >= 0.0
    ensures d * sampleRate as real == |samples| as real
  {
    |samples| as real / sampleRate as real
  }

  /** What a successful waveform looks like: 200 points whose times run
      evenly from 0 to the duration, never decreasing, and whose amplitudes
      lie in [-1, 1], with some amplitude of magnitude 1 unless all are 0. */
  predicate WaveformShape(w: seq<WaveformPoint>, duration: real) {
    && |w| == NUM_POINTS
    && w[0].time == 0.0
    && w[NUM_POINTS - 1].time == duration
    && (forall i :: 0 <= i < NUM_POINTS - 1 ==> w[i + 1].time - w[i].time == duration / 199.0)
    && (forall i, j :: 0 <= i <= j < NUM_POINTS ==> w[i].time <= w[j].time)
    && (forall i :: 0 <= i < NUM_POINTS ==> -1.0 <= w[i].amplitude <= 1.0)
    && ((exists i :: 0 <= i < NUM_POINTS && Abs(w[i].amplitude) == 1.0)
        || (forall i :: 0 <= i < NUM_POINTS ==> w[i].amplitude == 0.0))
  }

  /** A successful waveform has the shape above for the signal's duration,
      and it is silent exactly when the decimated samples are all zero. */
  lemma ExtractWaveformSpec(sampleRate: nat, samples: seq<real>)
    requires sampleRate > 0
    requires |samples| >= NUM_POINTS
    ensures var w := ExtractWaveform(sampleRate, samples).value;
      var d := Decimate(samples).value;
      && WaveformShape(w, Duration(sampleRate, samples))
      && ((forall i :: 0 <= i < NUM_POINTS ==> w[i].amplitude == 0.0)
          <==> (forall i :: 0 <= i < NUM_POINTS ==> d[i] == 0.0))
  {
    var d := Decimate(samples).value;
    var duration := Duration(sampleRate, samples);
    ExtractWaveformParts(sampleRate, samples);
    EvenStampsHold(duration);
    NormalizedAmplitudes(d);
    ZipShape(TimeStamps(duration), PeakNormalize(d), d, duration);
  }

  /** A successful waveform zips the time stamps with the normalised
      decimated samples. */
  lemma ExtractWaveformParts(sampleRate: nat, samples: seq<real>)
    requires sampleRate > 0
    requires |samples| >= NUM_POINTS
    ensures ExtractWaveform(sampleRate, samples).value
         == Zip(TimeStamps(Duration(sampleRate, samples)), PeakNormalize(Decimate(samples).value))
  {
  }

  /** 200 stamps from 0 to `duration` in even, non-decreasing steps. */
  predicate EvenStamps(t: seq<real>, duration: real) {
    && |t| == NUM_POINTS
    && t[0] == 0.0 && t[NUM_POINTS - 1] == duration
    && (forall i :: 0 <= i < NUM_POINTS - 1 ==> t[i + 1] - t[i] == duration / 199.0)
    && (forall i, j :: 0 <= i <= j < NUM_POINTS ==> t[i] <= t[j])
  }

  lemma EvenStampsHold(duration: real)
    requires duration >= 0.0
    ensures EvenStamps(TimeStamps(duration), duration)
  {
    TimeStampsOrdered(duration);
  }

  /** 200 amplitudes in [-1, 1] that reach magnitude 1 unless all are 0,
      and are all 0 exactly when the samples `d` are. */
  predicate UnitAmplitudes(a: seq<real>, d: seq<real>) {
    && |a| == NUM_POINTS && |d| == NUM_POINTS
    && (forall i :: 0 <= i < NUM_POINTS ==> -1.0 <= a[i] <= 1.0)
    && ((exists i :: 0 <= i < NUM_POINTS && Abs(a[i]) == 1.0)
        || (forall i :: 0 <= i < NUM_POINTS ==> a[i] == 0.0))
    && ((forall i :: 0 <= i < NUM_POINTS ==> a[i] == 0.0)
        <==> (forall i :: 0 <= i < NUM_POINTS ==> d[i] == 0.0))
  }

  /** Peak normalisation of 200 decimated samples gives unit amplitudes. */
  lemma NormalizedAmplitudes(d: seq<real>)
    requires |d| == NUM_POINTS
    ensures UnitAmplitudes(PeakNormalize(d), d)
  {
    var a := PeakNormalize(d);
    forall i | 0 <= i < NUM_POINTS
      ensures -1.0 <= a[i] <= 1.0
    {
      assert Abs(a[i]) <= 1.0;
    }
    if MaxAbs(d) == 0.0 {
      assert forall i :: 0 <= i < NUM_POINTS ==> a[i] == 0.0 == d[i];
    } else {
      var k :| 0 <= k < NUM_POINTS && Abs(a[k]) == 1.0;
      assert a[k] != 0.0;
      var m :| 0 <= m < NUM_POINTS && Abs(d[m]) == MaxAbs(d);
      assert d[m] != 0.0;
    }
  }

  /** Even stamps zipped with unit amplitudes have the waveform shape. */
  lemma ZipShape(t: seq<real>, a: seq<real>, d: seq<real>, duration: real)
    requires EvenStamps(t, duration)
    requires UnitAmplitudes(a, d)
    ensures var w := Zip(t, a);
      && WaveformShape(w, duration)
      && ((forall i :: 0 <= i < NUM_POINTS ==> w[i].amplitude == 0.0)
          <==> (forall i :: 0 <= i < NUM_POINTS ==> d[i] == 0.0))
  {
    var w := Zip(t, a);
    if exists i :: 0 <= i < NUM_POINTS && Abs(a[i]) == 1.0 {
      var k :| 0 <= k < NUM_POINTS && Abs(a[k]) == 1.0;
      assert Abs(w[k].amplitude) == 1.0;
    }
  }

  /** Amplitude i is the i-th decimated sample, `samples[i * step]`, divided
      by the peak magnitude of the decimated signal. */
  lemma WaveformScalesSamples(sampleRate: nat, samples: seq<real>)
    requires sampleRate > 0
    requires |samples| >= NUM_POINTS
    ensures var d := Decimate(samples).value;
      var w := ExtractWaveform(sampleRate, samples).value;
      MaxAbs(d) > 0.0 ==> forall i :: 0 <= i < NUM_POINTS ==> w[i].amplitude == d[i] / MaxAbs(d)
  {
    var d := Decimate(samples).value;
    var w := ExtractWaveform(sampleRate, samples).value;
    if MaxAbs(d) > 0.0 {
      forall i | 0 <= i < NUM_POINTS
        ensures w[i].amplitude == d[i] / MaxAbs(d)
      {
        PeakNormalizeAt(d, i);
      }
    }
  }
}

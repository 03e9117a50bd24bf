/** The audio visualisation state (app/states/audio_state.py): the
    `process_audio` event as a transition on an immutable record, the three
    display setters and `clear_visualizations`. Running ffmpeg, reading the
    WAV file, the FFT and `np.logspace` happen outside the model: their
    outcomes arrive as parameters. */
module Audio {
  import opened Results
  import opened Waveform
  import opened Spectrum
  import opened Normalization

  datatype VisualizationType = WaveformView | SpectrumView | BothViews

  datatype VisualizationPosition = Bottom | Top | Overlay

  datatype AudioState = AudioState(
    waveformData: seq<WaveformPoint>,
    spectrumData: seq<SpectrumPoint>,
    isProcessingAudio: bool,
    processingAudioMessage: string,
    visualizationType: VisualizationType,
    visualizationColor: string,
    visualizationPosition: VisualizationPosition)

  const DEFAULT_COLOR: string := "#6200EA"

  /** The state a fresh session starts in. */
  const InitialAudio: AudioState :=
    AudioState([], [], false, "", WaveformView, DEFAULT_COLOR, Bottom)

  /** How extracting the soundtrack ended: ffmpeg failed, ffmpeg is not
      installed, or the WAV file was read back with this rate and array. */
  datatype AudioExtraction =
    | FfmpegFailed
    | FfmpegMissing
    | Decoded(sampleRate: nat, samples: SampleArray)

  /** What the FFT and the log-spaced edges supply for a decoded signal:
      one non-negative magnitude per sample of the transformed chunk, and
      valid bin edges for the sample rate. */
  predicate AnalysisInputs(sampleRate: nat, samples: SampleArray, fftAbs: seq<real>, edges: seq<real>) {
    && |fftAbs| == |FftChunk(ToFloat(samples))|
    && NonNegative(fftAbs)
    && ValidEdges(edges, sampleRate)
  }

  /** The display settings, which `process_audio` never touches. */
  predicate SameSettings(a: AudioState, b: AudioState) {
    && a.visualizationType == b.visualizationType
    && a.visualizationColor == b.visualizationColor
    && a.visualizationPosition == b.visualizationPosition
  }

  /** The state `process_audio` leaves behind. An empty file name returns at
      once. An ffmpeg failure clears the busy flag with an error message. A
      signal shorter than 200 samples makes the decimation raise after the
      message "Generating waveform..." was set, so the busy flag stays on
      and neither list changes. Otherwise both lists are replaced and the
      busy flag cleared; the message is left at "Generating spectrum...". */
  function ProcessAudio(st: AudioState, videoFileName: string, extraction: AudioExtraction,
                        fftAbs: seq<real>, edges: seq<real>): (r: AudioState)
    requires extraction.Decoded? ==>
      AnalysisInputs(extraction.sampleRate, extraction.samples, fftAbs, edges)
    ensures SameSettings(r, st)
    ensures videoFileName == "" ==> r == st
    ensures videoFileName != "" && extraction.FfmpegFailed? ==>
      && !r.isProcessingAudio && r.processingAudioMessage == "Failed to extract audio."
      && r.waveformData == st.waveformData && r.spectrumData == st.spectrumData
    ensures videoFileName != "" && extraction.FfmpegMissing? ==>
      && !r.isProcessingAudio && r.processingAudioMessage == "FFmpeg not found."
      && r.waveformData == st.waveformData && r.spectrumData == st.spectrumData
    ensures videoFileName != "" && extraction.Decoded? && extraction.samples.Length() < NUM_POINTS ==>
      && r.isProcessingAudio && r.processingAudioMessage == "Generating waveform..."
      && r.waveformData == st.waveformData && r.spectrumData == st.spectrumData
    ensures videoFileName != "" && extraction.Decoded? && extraction.samples.Length() >= NUM_POINTS ==>
      && !r.isProcessingAudio && r.processingAudioMessage == "Generating spectrum..."
      && |r.waveformData| == NUM_POINTS
      && SpectrumShape(r.spectrumData, edges)
    ensures videoFileName != "" && extraction.Decoded? && extraction.samples.Length() >= NUM_POINTS ==>
      (ValidEdgesNeedRateAbove40(edges, extraction.sampleRate);
       && r.waveformData == ExtractWaveform(extraction.sampleRate, ToFloat(extraction.samples)).value
       && r.spectrumData == ExtractSpectrum(extraction.sampleRate, ToFloat(extraction.samples), fftAbs, edges))
  {
    if videoFileName == "" then st
    else
      match extraction
      case FfmpegFailed =>
        st.(isProcessingAudio := false, processingAudioMessage := "Failed to extract audio.")
      case FfmpegMissing =>
        st.(isProcessingAudio := false, processingAudioMessage := "FFmpeg not found.")
      case Decoded(sampleRate, a) =>
        var samples := ToFloat(a);
        ValidEdgesNeedRateAbove40(edges, sampleRate);
        match ExtractWaveform(sampleRate, samples)
        case Err(_) =>
          st.(isProcessingAudio := true, processingAudioMessage := "Generating waveform...")
        case Ok(waveform) =>
          st.(waveformData := waveform,
              spectrumData := ExtractSpectrum(sampleRate, samples, fftAbs, edges),
              isProcessingAudio := false,
              processingAudioMessage := "Generating spectrum...")
  }

  /** `set_visualization_type` changes the type and nothing else. */
  function SetVisualizationType(st: AudioState, t: VisualizationType): (r: AudioState)
    ensures r.visualizationType == t
    ensures r.(visualizationType := st.visualizationType) == st
  {
    st.(visualizationType := t)
  }

  /** `set_visualization_color` changes the colour and nothing else. */
  function SetVisualizationColor(st: AudioState, color: string): (r: AudioState)
    ensures r.visualizationColor == color
    ensures r.(visualizationColor := st.visualizationColor) == st
  {
    st.(visualizationColor := color)
  }

  /** `set_visualization_position` changes the position and nothing else. */
  function SetVisualizationPosition(st: AudioState, p: VisualizationPosition): (r: AudioState)
    ensures r.visualizationPosition == p
    ensures r.(visualizationPosition := st.visualizationPosition) == st
  {
    st.(visualizationPosition := p)
  }

  /** `clear_visualizations` empties both lists and clears the busy flag; the
      message and the display settings stay. (It also dispatches the export
      module's `clear_export`, which the App module chains.) */
  function ClearVisualizations(st: AudioState): (r: AudioState)
    ensures r.waveformData == [] && r.spectrumData == []
    ensures !r.isProcessingAudio
    ensures r.processingAudioMessage == st.processingAudioMessage
    ensures SameSettings(r, st)
  {
    st.(waveformData := [], spectrumData := [], isProcessingAudio := false)
  }

  /** Each setter is last-writer-wins, and setters of different fields
      commute. */
  lemma SettersCommute(st: AudioState, t1: VisualizationType, t2: VisualizationType,
                       c: string, p: VisualizationPosition)
    ensures SetVisualizationType(SetVisualizationType(st, t1), t2) == SetVisualizationType(st, t2)
    ensures SetVisualizationColor(SetVisualizationType(st, t1), c)
         == SetVisualizationType(SetVisualizationColor(st, c), t1)
    ensures SetVisualizationPosition(SetVisualizationColor(st, c), p)
         == SetVisualizationColor(SetVisualizationPosition(st, p), c)
  {
  }

  /** After a successful run, the stored waveform is the one feature
      extraction describes: 200 points with times running evenly from 0 to
      the signal's duration and amplitudes in [-1, 1], peaking at magnitude
      1 unless silent; amplitude i is the decimated sample i divided by the
      peak magnitude. */
  lemma ProcessedWaveform(st: AudioState, videoFileName: string, sampleRate: nat, a: SampleArray,
                          fftAbs: seq<real>, edges: seq<real>)
    requires videoFileName != ""
    requires AnalysisInputs(sampleRate, a, fftAbs, edges)
    requires a.Length() >= NUM_POINTS
    ensures sampleRate > 0
    ensures var w := ProcessAudio(st, videoFileName, Decoded(sampleRate, a), fftAbs, edges).waveformData;
      var d := Decimate(ToFloat(a)).value;
      && WaveformShape(w, Duration(sampleRate, ToFloat(a)))
      && (MaxAbs(d) > 0.0 ==> forall i :: 0 <= i < NUM_POINTS ==> w[i].amplitude == d[i] / MaxAbs(d))
  {
    ValidEdgesNeedRateAbove40(edges, sampleRate);
    var samples := ToFloat(a);
    StoredWaveform(ProcessAudio(st, videoFileName, Decoded(sampleRate, a), fftAbs, edges).waveformData,
                   sampleRate, samples);
  }

  lemma StoredWaveform(w: seq<WaveformPoint>, sampleRate: nat, samples: seq<real>)
    requires sampleRate > 0
    requires |samples| >= NUM_POINTS
    requires w == ExtractWaveform(sampleRate, samples).value
    ensures var d := Decimate(samples).value;
      && WaveformShape(w, Duration(sampleRate, samples))
      && (MaxAbs(d) > 0.0 ==> forall i :: 0 <= i < NUM_POINTS ==> w[i].amplitude == d[i] / MaxAbs(d))
  {
    ExtractWaveformSpec(sampleRate, samples);
    WaveformScalesSamples(sampleRate, samples);
  }

  /** After a successful run, the stored spectrum has 64 points labelled by
      the lower bin edges, which strictly increase inside
      [20, sample_rate / 2), with magnitudes in [0, 1] peaking at 1 unless
      all are 0. */
  lemma ProcessedSpectrum(st: AudioState, videoFileName: string, sampleRate: nat, a: SampleArray,
                          fftAbs: seq<real>, edges: seq<real>)
    requires videoFileName != ""
    requires AnalysisInputs(sampleRate, a, fftAbs, edges)
    requires a.Length() >= NUM_POINTS
    ensures var s := ProcessAudio(st, videoFileName, Decoded(sampleRate, a), fftAbs, edges).spectrumData;
      SpectrumShape(s, edges) && LabelsOrdered(s, sampleRate)
  {
    var s := ProcessAudio(st, videoFileName, Decoded(sampleRate, a), fftAbs, edges).spectrumData;
    SpectrumFrequenciesOrdered(s, edges, sampleRate);
  }

  /** After a successful run, stored magnitude i is the mean transform
      magnitude over the frequencies of bin i divided by the largest bin
      mean, or 0 when no bin mean is positive. */
  lemma ProcessedSpectrumValues(st: AudioState, videoFileName: string, sampleRate: nat, a: SampleArray,
                                fftAbs: seq<real>, edges: seq<real>)
    requires videoFileName != ""
    requires AnalysisInputs(sampleRate, a, fftAbs, edges)
    requires a.Length() >= NUM_POINTS
    ensures MeansNormalized(ProcessAudio(st, videoFileName, Decoded(sampleRate, a), fftAbs, edges).spectrumData,
                            BinFrequencies(|FftChunk(ToFloat(a))|, sampleRate), PositiveHalf(fftAbs), edges)
  {
    var samples := ToFloat(a);
    assert ProcessAudio(st, videoFileName, Decoded(sampleRate, a), fftAbs, edges).spectrumData
        == ExtractSpectrum(sampleRate, samples, fftAbs, edges);
    ExtractSpectrumMeans(sampleRate, samples, fftAbs, edges);
  }
}

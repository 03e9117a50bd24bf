# Minimalist Video Audio Visualizer — a Dafny model of its core

The application lets a user upload a video, draws its soundtrack as a
waveform and a log-binned spectrum, and runs a simulated export job. This
project models the three pieces of sequential logic in it and proves
properties of them:

- **Audio feature extraction** (`AudioState.process_audio`):
  - int16 samples are converted to reals by dividing by 32767;
  - the signal is decimated to 200 points with step `len // 200`;
  - the points are peak-normalised, with a guard for silence, and paired with
    200 evenly spaced time stamps;
  - the spectrum takes the first 2048 samples, keeps the positive half of the
    transform, and assigns bin k the frequency `k * sr / n`;
  - the magnitudes are averaged over 64 half-open log-spaced bins (0 for an
    empty bin), normalised by the largest bin, and labelled by each bin's
    lower edge.

  Module structure:
  - `Normalization` (peak measures and division by the peak), `Waveform` and
    `Spectrum` are pure functions over `seq<real>`;
  - `Audio` wraps them in the `process_audio` state transition, together with
    the display setters and `clear_visualizations`.
- **Upload** (`State` in app/state.py):
  - the size label of `_format_size`;
  - the MIME-type plus extension acceptance rule;
  - the end state of `handle_upload` for no file, a rejected file and an
    accepted file;
  - `clear_video`.
- **Export** (`ExportState`):
  - the modal toggle, the option setters and the cancel flag;
  - `start_export` as a method whose loop runs ticks 0..100 and checks a
    cancel oracle at each tick;
  - `clear_export`.
- **App**: the event chain. `clear_video` dispatches `clear_visualizations`
  and then `clear_export`, and `clear_visualizations` itself dispatches
  `clear_export`.

Supporting modules:
- `Results` holds the `Option` and `Result` types.
- `Text` holds decimal rendering of integers with its parse-back, ASCII
  lower-casing and `endswith`.

Outside inputs are parameters of the model:
- what ffmpeg and `wavfile.read` produce: an `AudioExtraction` value;
- the FFT magnitudes: a non-negative `seq<real>` with one entry per sample of
  the chunk;
- the 65 `np.logspace` edges: a strictly increasing `seq<real>` from 20 to
  `sample_rate / 2`;
- the random name suffix of an upload: a string.

For a signal shorter than 200 samples the code computes `step = 0`, and
`samples[::0]` raises `ValueError` (app/states/audio_state.py:74-75). `Waveform.Decimate` and
`Waveform.ExtractWaveform` therefore return `Err` exactly for such signals.
`Audio.ProcessAudio` then leaves the state where the exception leaves it:
the busy flag is still on, the message reads "Generating waveform..." and
neither data list has changed.

## Model

| member | source | states |
|---|---|---|
| Normalization.MaxAbs | app/states/audio_state.py:76-77 | `np.max(np.abs(xs))` bounds every element's magnitude and equals one of them |
| Normalization.Max | app/states/audio_state.py:105-106 | `np.max(xs)` bounds every element and equals one of them |
| Normalization.DivideByBound | app/states/audio_state.py:76-77 | a value divided by a positive bound of its magnitude has magnitude at most 1, and exactly 1 when it reaches the bound |
| Normalization.ScaleByPeak | app/states/audio_state.py:76-77 | dividing by the peak bounds every element by 1 and makes the peak element 1 |
| Normalization.PeakNormalize | app/states/audio_state.py:76-77 | the waveform normalisation keeps the length and bounds every magnitude by 1; with a positive peak some magnitude is exactly 1 and every element is the input divided by the peak; with peak 0 the input comes back unchanged and is all zeros |
| Normalization.MaxNormalize | app/states/audio_state.py:105-106 | the spectrum normalisation of non-negative values lands in [0, 1]; with a positive maximum some value is 1, otherwise the values are unchanged zeros |
| Normalization.PeakNormalizeAt | app/states/audio_state.py:77 | each normalised element equals the input element divided by the peak |
| Text.NatToStringRoundTrip | app/state.py:40 | the decimal text Python's f-string gives a natural number reads back as that number |
| Text.IntToStringRoundTrip | app/state.py:40 | the same holds for negative integers, which are written with a leading minus |
| Text.Lower | app/state.py:60 | `str.lower` keeps the length and lowers each ASCII capital, leaving every other character as it is |
| Text.EndsWithIffConcat | app/state.py:60 | `s.endswith(x)` holds exactly when `s` is some string followed by `x` |
| Waveform.ToFloat | app/states/audio_state.py:71-72 | an int16 array maps elementwise to `x / 32767`, a value in [-32768/32767, 1]; any other array passes through unchanged |
| Waveform.EveryNthIndices | app/states/audio_state.py:75 | `s[::step]` with a positive step holds exactly the elements at multiples of `step` below `len(s)`, element j being `s[j*step]` |
| Waveform.StridedSlice | app/states/audio_state.py:75 | the slice fails exactly when the step is 0 |
| Waveform.Decimate | app/states/audio_state.py:74-75 | decimation succeeds exactly when there are at least 200 samples; it then gives exactly 200 points, point i being `samples[i*step]` with `i*step < len` |
| Waveform.TimeStamps | app/states/audio_state.py:78 | `np.linspace(0, d, 200)` has 200 stamps from 0 to exactly `d` in steps of `d/199` |
| Waveform.TimeStampsOrdered | app/states/audio_state.py:78 | for a non-negative duration the stamps never decrease and stay in [0, d] |
| Waveform.ExtractWaveform | app/states/audio_state.py:73-81 | the waveform succeeds exactly when the signal has at least 200 samples, and then has 200 points |
| Waveform.ExtractWaveformSpec | app/states/audio_state.py:76-81 | a waveform runs from time 0 to `len / sample_rate` in even, non-decreasing steps, with amplitudes in [-1, 1] that peak at magnitude 1; it is all zero exactly when the decimated samples are |
| Waveform.WaveformScalesSamples | app/states/audio_state.py:75-77 | with a positive peak, amplitude i is the decimated sample i divided by the peak magnitude |
| Spectrum.FftChunk | app/states/audio_state.py:88-91 | the chunk is a prefix of the signal: its first 2048 samples when the signal is longer, all of it otherwise |
| Spectrum.PositiveHalf | app/states/audio_state.py:93-94 | `magnitude` is the first `n // 2` transform magnitudes, which stay non-negative |
| Spectrum.BinFrequencies | app/states/audio_state.py:95 | the `n // 2` frequencies start at 0, rise by `sr / n` per bin, and all lie in [0, sr/2) |
| Spectrum.EdgesIncreasing | app/states/audio_state.py:96 | bin edges rising at every step are strictly increasing between any two positions |
| Spectrum.ValidEdgesNeedRateAbove40 | app/states/audio_state.py:96 | edges rising from 20 Hz to `sr / 2` exist only when the sample rate exceeds 40 |
| Spectrum.MaskCount | app/states/audio_state.py:99-100 | a bin's count is positive exactly when `np.any(mask)` holds, i.e. some frequency lies in [lo, hi) |
| Spectrum.BinMean | app/states/audio_state.py:99-103 | a bin's value is 0 when its mask is empty; otherwise value times count equals the sum of the masked magnitudes, i.e. it is their mean |
| Spectrum.BinMeanBounds | app/states/audio_state.py:101 | the mean of non-negative masked magnitudes that are at most b lies in [0, b] |
| Spectrum.BinMagnitudes | app/states/audio_state.py:97-104 | there are exactly 64 bins, and bin i is `BinMean` over `[edges[i], edges[i+1])`: the mean of the magnitudes whose frequency lies in that half-open bin, or 0 when none does |
| Spectrum.NormalizedBins | app/states/audio_state.py:104-106 | normalised bins lie in [0, 1] and peak at 1, unless every normalised bin and every raw bin mean is 0; with a positive largest mean, bin i is mean i divided by the largest mean, otherwise the means are kept unchanged |
| Spectrum.FrequencyBinned | app/states/audio_state.py:98-99 | a frequency falls in some bin exactly when it lies in [20, sr/2) |
| Spectrum.BinsDisjoint | app/states/audio_state.py:99 | the half-open bins do not overlap: no frequency falls in two bins |
| Spectrum.SpectrumMagnitudes | app/states/audio_state.py:86-106 | 64 normalised magnitudes in [0, 1] that peak at 1 unless all are zero, and all are zero for a silent transform (the values are stated by Spectrum.ExtractSpectrumMeans) |
| Spectrum.ExtractSpectrum | app/states/audio_state.py:86-110 | the spectrum has exactly 64 points, point i labelled with the lower edge `edges[i]` and not the midpoint, magnitudes in [0, 1] peaking at 1 unless all are zero; all zero for a silent transform |
| Spectrum.ExtractSpectrumMeans | app/states/audio_state.py:93-110 | magnitude i of the spectrum is the mean of the positive-half FFT magnitudes whose `fftfreq` frequency lies in `[edges[i], edges[i+1])` (0 for an empty bin), divided by the largest bin mean; when no bin mean is positive, every magnitude is 0 |
| Spectrum.AudibleFrequenciesBinned | app/states/audio_state.py:95-100 | every positive-half frequency of at least 20 Hz falls in some bin: the last bin is open at `sr / 2`, which no `fftfreq` frequency reaches |
| Spectrum.SpectrumFrequenciesOrdered | app/states/audio_state.py:107-110 | spectrum labels strictly increase and lie in [20, sr/2); the Nyquist edge is never a label |
| Spectrum.Label | app/states/audio_state.py:107-110 | zipping `bin_edges[:-1]` with the magnitudes pairs entry i with edge i and magnitude i |
| Audio.ProcessAudio | app/states/audio_state.py:34-113 | an empty name changes nothing; an ffmpeg error or missing ffmpeg clears the busy flag with its message; a signal shorter than 200 samples leaves the flag on at "Generating waveform..."; otherwise the job stores exactly this signal's extracted waveform (200 points) and extracted spectrum (64 points), clears the flag and leaves "Generating spectrum..."; the display settings never change |
| Audio.ProcessedWaveform | app/states/audio_state.py:70-84 | after a successful run the stored waveform has the waveform shape for the signal's duration, and with a positive peak stored amplitude i is the decimated sample i divided by the peak magnitude |
| Audio.ProcessedSpectrum | app/states/audio_state.py:86-113 | after a successful run the stored spectrum has the spectrum shape, with strictly increasing labels in [20, sr/2) |
| Audio.ProcessedSpectrumValues | app/states/audio_state.py:93-113 | after a successful run stored magnitude i is the mean FFT magnitude of bin i divided by the largest bin mean, or 0 when no bin mean is positive |
| Audio.SetVisualizationType | app/states/audio_state.py:115-117 | sets the type and changes no other field |
| Audio.SetVisualizationColor | app/states/audio_state.py:119-121 | sets the colour and changes no other field |
| Audio.SetVisualizationPosition | app/states/audio_state.py:123-125 | sets the position and changes no other field |
| Audio.SettersCommute | app/states/audio_state.py:115-125 | setters are last-writer-wins, and setters of different fields commute |
| Audio.ClearVisualizations | app/states/audio_state.py:127-131 | empties both lists and clears the busy flag, keeping the message and the display settings |
| Upload.FormatSize | app/state.py:38-46 | below 1024 the label is exactly `"{n} B"`; otherwise the unit is KB iff `1024 <= n < 1024^2`, MB iff `1024^2 <= n < 1024^3`, GB otherwise, and the value is the size in that unit |
| Upload.ExactSizeRoundTrip | app/state.py:39-40 | the `" B"` label ends in `" B"` and its number reads back as the size |
| Upload.UnitMonotone | app/state.py:38-46 | a larger size never gets a smaller unit |
| Upload.ScaledValueInRange | app/state.py:41-46 | a scaled label shows a value of at least 1, and below 1024 unless the unit is GB |
| Upload.AcceptedFile | app/state.py:59-61 | a file is accepted exactly when its MIME type is one of the five listed (compared exactly) and its lower-cased name ends with one of the five extensions; an accepted name has at least 4 characters |
| Upload.AnyEndsWith | app/state.py:59-61 | the `any(...endswith...)` test holds exactly when some listed extension is a suffix |
| Upload.ExtensionCaseInsensitive | app/state.py:60 | acceptance does not change when the filename is lower-cased first |
| Upload.MismatchedTypeAccepted | app/state.py:29-36 | `video/mp4` with a `.MKV` name is accepted, because the two lists are not cross-checked and the extension test ignores case |
| Upload.MimeTypeCaseSensitive | app/state.py:59 | the MIME match is exact: `VIDEO/MP4` is rejected |
| Upload.ExtensionMustBeSuffix | app/state.py:60 | a name that only contains `.mp4` in its middle is rejected |
| Upload.RejectedMetadata | app/state.py:62-69 | rejected metadata keeps the filename and size label, has no duration, resolution or audio info, and carries the error text |
| Upload.AcceptedMetadata | app/state.py:92-99 | accepted metadata keeps the filename and size label, has all three media facts and no error |
| Upload.HandleUpload | app/state.py:48-100 | the upload never ends busy; with no file the metadata is None, the name empty and progress 0; a rejected first file records the error metadata and raises the error flag; an accepted one is stored as `<suffix>_<filename>` with progress 100 and "Analyzing video metadata..." |
| Upload.UploadOutcome | app/state.py:55-100 | the error flag is up exactly when the first file is rejected; a stored name exists exactly when it is accepted, and ends with the uploaded name; metadata exists exactly when a file was given, and has no error exactly when the file was stored |
| Upload.ClearVideo | app/state.py:106-112 | clears metadata and name, lowers both flags and zeroes progress, keeping the processing message |
| Upload.ClearVideoResets | app/state.py:106-112 | clearing returns to the initial upload state apart from the message, including straight after any upload |
| Export.ToggleExportModal | app/states/export_state.py:21-23 | flips the modal's visibility and changes no other field |
| Export.ToggleTwice | app/states/export_state.py:21-23 | toggling the modal twice restores the state |
| Export.SetExportFormat | app/states/export_state.py:25-27 | sets the format and changes no other field |
| Export.SetExportQuality | app/states/export_state.py:29-31 | sets the quality and changes no other field |
| Export.SetExportResolution | app/states/export_state.py:33-35 | sets the resolution and changes no other field |
| Export.CancelExport | app/states/export_state.py:37-39 | raises the cancel flag and changes no other field |
| Export.StartExport | app/states/export_state.py:43-48 | starting sets the busy flag, progress 0, an empty url, a lowered flag and "Preparing to export...", keeping the user's choices |
| Export.CancelBeforeStartIgnored | app/states/export_state.py:38-47 | a cancel issued before the start has no effect, since starting lowers the flag |
| Export.Cancelled | app/states/export_state.py:51-55 | a job that sees the flag ends not busy, at progress 0, with "Export cancelled.", keeping the url, the flag and the user's choices |
| Export.Completed | app/states/export_state.py:61-64 | a job past the last tick ends not busy with "Export complete!" and the video name as url, keeping progress, flag and choices |
| Export.TickMessage | app/states/export_state.py:57-59 | tick 50 shows "Applying visualizations..."; every other tick shows `"Exporting... {i}%"` |
| Export.TickMessageShowsProgress | app/states/export_state.py:57 | the percentage in an ordinary tick message reads back as that tick's progress |
| Export.TickMessagesDistinct | app/states/export_state.py:57-59 | no two ticks show the same message |
| Export.FirstCancel | app/states/export_state.py:49-51 | the tick at which the job stops is the first checked tick that has seen a cancel, and no earlier tick has seen one |
| Export.RunExport | app/states/export_state.py:41-64 | the run shows progress 0, 1, ... in order and never above 100, with the tick messages; a cancel seen at tick c ends it after c ticks, not busy, at progress 0 with "Export cancelled." and no url; otherwise all 101 ticks run and it ends at progress 100 with "Export complete!" and the video name as url; the user's choices never change |
| Export.ClearExport | app/states/export_state.py:66-71 | clears url, busy flag, progress and message, keeping format, quality, resolution, modal visibility and the cancel flag |
| Export.ClearExportResets | app/states/export_state.py:66-71 | clearing returns the job fields to their initial values, so clearing twice is clearing once |
| App.ClearVisualizations | app/states/audio_state.py:127-132 | clearing visualisations also runs `clear_export`: both lists are empty and the export is idle at progress 0 with no url or message |
| App.ClearVideo | app/state.py:106-113 | clearing the video resets the upload, clears the visualisations and runs `clear_export`, keeping display and export choices |
| App.ClearVideoClearsOnce | app/state.py:113 | the doubled `clear_export` is the same as a single one, and clearing brings the upload and export back to their initial values apart from the message, the choices and the cancel flag |

## Left out

- ffmpeg, `wavfile.read`, the upload's file read and write and the random
  suffix are external I/O. Their outcomes enter as parameters:
  `Audio.AudioExtraction` covers the decoded rate and array and the two
  ffmpeg failure branches, and the suffix is a string argument of
  `Upload.HandleUpload`.
- The FFT itself and `np.log10` / `np.logspace` are floating-point library
  calls. The magnitudes and the 65 edges are inputs.
- Spectrum.ExtractSpectrum: requires the edges to rise strictly from 20 to
  `sr / 2`. That holds only when `sr > 40`; for lower rates the source still
  bins against non-increasing edges, which is not modelled.
- Spectrum.ExtractSpectrum: requires a non-empty signal. A transform of an
  empty chunk would raise, but in `process_audio` that point is unreachable
  because decimation has already demanded 200 samples.
- Floating point is modelled as exact reals. That covers float32 rounding,
  the division by 32767 and the real division `len / sample_rate`. The
  source never checks the sample rate before dividing by it
  (app/states/audio_state.py:78); it relies on ffmpeg resampling the track to
  44100 Hz (`ar="44100"`, app/states/audio_state.py:47), so a zero rate and
  its ZeroDivisionError are not modelled.
- Audio.ProcessAudio: requires, for a decoded track, the edges to be valid
  for its rate, which forces a rate above 40 Hz. This holds even on the
  short-signal path, where the source raises before building any edge. The
  requirement stands in for the 44100 Hz resampling ffmpeg is asked for.
- Spectrum.SpectrumMagnitudes: its contract gives the range, the peak and
  silence only. The per-bin values are stated by Spectrum.ExtractSpectrumMeans
  about the labelled spectrum instead, because stating them on this function
  too puts the proofs that unfold it beyond the solver's budget.
- Sample arrays of other integer widths are passed through unscaled, as
  the source does; only int16 is rescaled.
- Upload.FormatSize: the `:.2f` rendering is not modelled. The label
  carries the exact quotient and the unit instead of the two-decimal text.
- Text.Lower: lowers ASCII letters only; Python's full Unicode `str.lower`
  is not modelled.
- Upload.HandleUpload: gives only the state the handler finishes in. Not
  modelled:
  - the intermediate states it yields ("Uploading file...");
  - the progress values 0..100 of its simulated upload loop;
  - the one-second pause.
- Export.RunExport: models only `cancel_export` interleaving with the
  run, through a per-tick cancel oracle. Any other event that runs between
  ticks is not modelled; `clear_export` would reset progress and the loop
  would then overwrite it.
- Audio.ProcessAudio: gives the state after the job ends. Not modelled: the
  intermediate "Extracting audio from video..." state, the half-second
  pause, and the async locking.
- `uploaded_video_url` (app/state.py:102-104) returns the stored name
  unchanged and needs no model.
- app/app.py and app/components/visualizer.py are declarative UI trees and
  are not part of this model.

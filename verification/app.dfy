/** The three state classes side by side, and the events that chain into
    each other: `clear_video` (app/state.py) dispatches
    `clear_visualizations` and `clear_export`, and `clear_visualizations`
    (app/states/audio_state.py) dispatches `clear_export` itself, so a
    cleared video clears the export twice. */
module App {
  import Upload
  import Audio
  import Export

  datatype AppState = AppState(upload: Upload.UploadState, audio: Audio.AudioState, job: Export.ExportState)

  const InitialApp: AppState := AppState(Upload.InitialUpload, Audio.InitialAudio, Export.InitialExport)

  /** `clear_visualizations` followed by the `clear_export` it returns. */
  function ClearVisualizations(app: AppState): (r: AppState)
    ensures r.upload == app.upload
    ensures r.audio.waveformData == [] && r.audio.spectrumData == [] && !r.audio.isProcessingAudio
    ensures Audio.SameSettings(r.audio, app.audio)
    ensures !r.job.isExporting && r.job.exportProgress == 0
    ensures r.job.exportedVideoUrl == "" && r.job.exportMessage == ""
    ensures Export.SameSettings(r.job, app.job)
  {
    AppState(app.upload, Audio.ClearVisualizations(app.audio), Export.ClearExport(app.job))
  }

  /** `clear_video` followed by the events it returns, in order:
      `clear_visualizations` (which dispatches `clear_export`), then
      `clear_export`. */
  function ClearVideo(app: AppState): (r: AppState)
    ensures r.upload.videoMetadata.None? && r.upload.videoFileName == "" && r.upload.uploadProgress == 0
    ensures r.audio.waveformData == [] && r.audio.spectrumData == [] && !r.audio.isProcessingAudio
    ensures !r.job.isExporting && r.job.exportProgress == 0 && r.job.exportedVideoUrl == ""
    ensures Audio.SameSettings(r.audio, app.audio) && Export.SameSettings(r.job, app.job)
  {
    var cleared := ClearVisualizations(AppState(Upload.ClearVideo(app.upload), app.audio, app.job));
    cleared.(job := Export.ClearExport(cleared.job))
  }

  /** The doubled `clear_export` is harmless: clearing the video is the same
      as clearing uploads and visualisations once each, and brings every
      part back to its initial state except the messages, the display and
      export choices, and the export's cancel flag. */
  lemma ClearVideoClearsOnce(app: AppState)
    ensures ClearVideo(app) == ClearVisualizations(app.(upload := Upload.ClearVideo(app.upload)))
    ensures var r := ClearVideo(app);
      && r.upload == Upload.InitialUpload.(processingMessage := app.upload.processingMessage)
      && r.job == Export.InitialExport.(
           showExportModal := app.job.showExportModal, exportFormat := app.job.exportFormat,
           exportQuality := app.job.exportQuality, exportResolution := app.job.exportResolution,
           cancelExportFlag := app.job.cancelExportFlag)
  {
    Export.ClearExportResets(app.job);
    Upload.ClearVideoResets(app.upload, [], "");
  }
}

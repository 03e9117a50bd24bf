/** The export job (app/states/export_state.py): modal toggle, option
    setters, the cancel flag, the simulated 0..100 progress run of
    `start_export` and `clear_export`. The run's interleaving with other
    events is replaced by a cancel oracle: which ticks a `cancel_export`
    event arrives before. */
module Export {
  import opened Results
  import opened Text

  datatype ExportFormat = Mp4 | Mov | Avi

  datatype ExportQuality = Low | Medium | High

  datatype ExportResolution = P480 | P720 | P1080 | SourceResolution

  datatype ExportState = ExportState(
    showExportModal: bool,
    exportFormat: ExportFormat,
    exportQuality: ExportQuality,
    exportResolution: ExportResolution,
    isExporting: bool,
    exportProgress: int,
    exportMessage: string,
    exportedVideoUrl: string,
    cancelExportFlag: bool)

  const InitialExport: ExportState :=
    ExportState(false, Mp4, Medium, SourceResolution, false, 0, "", "", false)

  /** The progress loop runs ticks 0, 1, ..., LAST_TICK. */
  const LAST_TICK: nat := 100

  /** The tick whose message announces the visualisation pass. */
  const VISUALIZATION_TICK: nat := 50

  const PROGRESS_PREFIX: string := "Exporting... "

  /** The user's choices, which the export job never changes. */
  predicate SameSettings(a: ExportState, b: ExportState) {
    && a.showExportModal == b.showExportModal
    && a.exportFormat == b.exportFormat
    && a.exportQuality == b.exportQuality
    && a.exportResolution == b.exportResolution
  }

  /** `toggle_export_modal` flips the modal's visibility and nothing else. */
  function ToggleExportModal(st: ExportState): (r: ExportState)
    ensures r.showExportModal != st.showExportModal
    ensures r.(showExportModal := st.showExportModal) == st
  {
    st.(showExportModal := !st.showExportModal)
  }

  /** Toggling twice restores the state. */
  lemma ToggleTwice(st: ExportState)
    ensures ToggleExportModal(ToggleExportModal(st)) == st
  {
  }

  function SetExportFormat(st: ExportState, f: ExportFormat): (r: ExportState)
    ensures r.exportFormat == f
    ensures r.(exportFormat := st.exportFormat) == st
  {
    st.(exportFormat := f)
  }

  function SetExportQuality(st: ExportState, q: ExportQuality): (r: ExportState)
    ensures r.exportQuality == q
    ensures r.(exportQuality := st.exportQuality) == st
  {
    st.(exportQuality := q)
  }

  function SetExportResolution(st: ExportState, res: ExportResolution): (r: ExportState)
    ensures r.exportResolution == res
    ensures r.(exportResolution := st.exportResolution) == st
  {
    st.(exportResolution := res)
  }

  /** `cancel_export` raises the flag and nothing else; the running job
      notices it at its next tick. */
  function CancelExport(st: ExportState): (r: ExportState)
    ensures r.cancelExportFlag
    ensures r.(cancelExportFlag := st.cancelExportFlag) == st
  {
    st.(cancelExportFlag := true)
  }

  /** The first step of `start_export`: busy, progress 0, no result, flag
      lowered, "Preparing to export...". */
  function StartExport(st: ExportState): (r: ExportState)
    ensures r.isExporting && r.exportProgress == 0 && r.exportedVideoUrl == ""
    ensures !r.cancelExportFlag && r.exportMessage == "Preparing to export..."
    ensures SameSettings(r, st)
  {
    st.(isExporting := true, exportProgress := 0, exportedVideoUrl := "",
        cancelExportFlag := false, exportMessage := "Preparing to export...")
  }

  /** Starting lowers the flag, so a cancel issued before the start is
      forgotten. */
  lemma CancelBeforeStartIgnored(st: ExportState)
    ensures StartExport(CancelExport(st)) == StartExport(st)
  {
  }

  /** The message shown at tick i. */
  function TickMessage(i: nat): (m: string)
    ensures i == VISUALIZATION_TICK ==> m == "Applying visualizations..."
    ensures i != VISUALIZATION_TICK ==> m == PROGRESS_PREFIX + NatToString(i) + "%"
  {
    if i == VISUALIZATION_TICK then "Applying visualizations..."
    else PROGRESS_PREFIX + NatToString(i) + "%"
  }

  /** Every ordinary tick message names its own progress: the text between
      the prefix and the percent sign reads back as i. So no two ticks show
      the same message. */
  lemma TickMessageShowsProgress(i: nat)
    requires i != VISUALIZATION_TICK
    ensures var m := TickMessage(i);
      && |m| > |PROGRESS_PREFIX| + 1
      && m[..|PROGRESS_PREFIX|] == PROGRESS_PREFIX
      && m[|m| - 1] == '%'
      && (forall k :: |PROGRESS_PREFIX| <= k < |m| - 1 ==> IsDigit(m[k]))
      && DigitsValue(m[|PROGRESS_PREFIX|..|m| - 1]) == i
  {
    var m := TickMessage(i);
    var digits := NatToString(i);
    assert m[|PROGRESS_PREFIX|..|m| - 1] == digits;
    NatToStringRoundTrip(i);
  }

  lemma TickMessagesDistinct(i: nat, j: nat)
    requires i != j
    ensures TickMessage(i) != TickMessage(j)
  {
    if i != VISUALIZATION_TICK && j != VISUALIZATION_TICK {
      TickMessageShowsProgress(i);
      TickMessageShowsProgress(j);
    } else if i == VISUALIZATION_TICK {
      TickMessageShowsProgress(j);
      assert TickMessage(i)[0] != TickMessage(j)[0];
    } else {
      TickMessageShowsProgress(i);
      assert TickMessage(i)[0] != TickMessage(j)[0];
    }
  }

  /** The job's end when it sees the flag. */
  function Cancelled(st: ExportState): (r: ExportState)
    ensures !r.isExporting && r.exportProgress == 0 && r.exportMessage == "Export cancelled."
    ensures r.exportedVideoUrl == st.exportedVideoUrl && r.cancelExportFlag == st.cancelExportFlag
    ensures SameSettings(r, st)
  {
    st.(isExporting := false, exportMessage := "Export cancelled.", exportProgress := 0)
  }

  /** The job's end after the last tick. */
  function Completed(st: ExportState, videoFileName: string): (r: ExportState)
    ensures !r.isExporting && r.exportMessage == "Export complete!"
    ensures r.exportedVideoUrl == videoFileName
    ensures r.exportProgress == st.exportProgress && r.cancelExportFlag == st.cancelExportFlag
    ensures SameSettings(r, st)
  {
    st.(isExporting := false, exportMessage := "Export complete!", exportedVideoUrl := videoFileName)
  }

  /** The cancel oracle: `cancels[i]` says a `cancel_export` event ran
      before the flag check of tick i (i <= 100); `cancels[101]` says one
      ran after the last check. Missing entries mean no event. */
  predicate CancelAt(cancels: seq<bool>, i: nat) {
    i < |cancels| && cancels[i]
  }

  /** The first tick at or after `from` whose check sees a cancel. */
  function FirstCancelFrom(cancels: seq<bool>, from: nat): (c: Option<nat>)
    requires from <= LAST_TICK + 1
    ensures c.Some? ==> from <= c.value <= LAST_TICK && CancelAt(cancels, c.value)
    ensures c.Some? ==> forall j :: from <= j < c.value ==> !CancelAt(cancels, j)
    ensures c.None? ==> forall j :: from <= j <= LAST_TICK ==> !CancelAt(cancels, j)
    decreases LAST_TICK + 1 - from
  {
    if from > LAST_TICK then None
    else if CancelAt(cancels, from) then Some(from)
    else FirstCancelFrom(cancels, from + 1)
  }

  /** The tick at which the job stops early, if any. */
  function FirstCancel(cancels: seq<bool>): (c: Option<nat>)
    ensures c.Some? ==> c.value <= LAST_TICK && CancelAt(cancels, c.value)
    ensures c.Some? ==> forall j :: 0 <= j < c.value ==> !CancelAt(cancels, j)
    ensures c.None? ==> forall j :: 0 <= j <= LAST_TICK ==> !CancelAt(cancels, j)
  {
    FirstCancelFrom(cancels, 0)
  }

  /** What the user sees after one tick. */
  datatype TickView = TickView(progress: int, message: string)

  /** `start_export` run to its end. The returned ticks are the progress
      and message shown at each tick that did not see the flag: 0, 1, ...
      in order, never above 100. A cancel seen at tick c ends the job with
      progress 0, "Export cancelled." and no result after c ticks; without
      one the job shows all 101 ticks and ends complete, holding the video
      name as its result (the flag stays raised if a cancel came too late). */
  method RunExport(st: ExportState, videoFileName: string, cancels: seq<bool>)
    returns (final: ExportState, ticks: seq<TickView>)
    ensures SameSettings(final, st)
    ensures !final.isExporting
    ensures |ticks| <= LAST_TICK + 1
    ensures forall k :: 0 <= k < |ticks| ==> ticks[k] == TickView(k, TickMessage(k))
    ensures FirstCancel(cancels).Some? ==>
      && |ticks| == FirstCancel(cancels).value
      && final.exportProgress == 0 && final.exportMessage == "Export cancelled."
      && final.exportedVideoUrl == "" && final.cancelExportFlag
    ensures FirstCancel(cancels).None? ==>
      && |ticks| == LAST_TICK + 1
      && final.exportProgress == LAST_TICK && final.exportMessage == "Export complete!"
      && final.exportedVideoUrl == videoFileName
      && final.cancelExportFlag == CancelAt(cancels, LAST_TICK + 1)
  {
    var s := StartExport(st);
    ticks := [];
    var i: nat := 0;
    while i <= LAST_TICK
      invariant i <= LAST_TICK + 1
      invariant |ticks| == i
      invariant forall k :: 0 <= k < i ==> ticks[k] == TickView(k, TickMessage(k))
      invariant forall k :: 0 <= k < i ==> !CancelAt(cancels, k)
      invariant s.isExporting && s.exportedVideoUrl == "" && !s.cancelExportFlag
      invariant SameSettings(s, st)
      invariant i > 0 ==> s.exportProgress == i - 1
    {
      if CancelAt(cancels, i) {
        s := CancelExport(s);
      }
      if s.cancelExportFlag {
        final := Cancelled(s);
        return;
      }
      s := s.(exportProgress := i, exportMessage := TickMessage(i));
      ticks := ticks + [TickView(s.exportProgress, s.exportMessage)];
      i := i + 1;
    }
    if CancelAt(cancels, LAST_TICK + 1) {
      s := CancelExport(s);
    }
    final := Completed(s, videoFileName);
  }

  /** `clear_export` resets the result, the busy flag, the progress and the
      message; the user's choices and the cancel flag stay. */
  function ClearExport(st: ExportState): (r: ExportState)
    ensures r.exportedVideoUrl == "" && !r.isExporting && r.exportProgress == 0 && r.exportMessage == ""
    ensures SameSettings(r, st) && r.cancelExportFlag == st.cancelExportFlag
  {
    st.(exportedVideoUrl := "", isExporting := false, exportProgress := 0, exportMessage := "")
  }

  /** Clearing brings the job fields back to their initial values, so
      clearing twice is clearing once. */
  lemma ClearExportResets(st: ExportState)
    ensures ClearExport(st) == InitialExport.(
      showExportModal := st.showExportModal, exportFormat := st.exportFormat,
      exportQuality := st.exportQuality, exportResolution := st.exportResolution,
      cancelExportFlag := st.cancelExportFlag)
    ensures ClearExport(ClearExport(st)) == ClearExport(st)
  {
  }
}

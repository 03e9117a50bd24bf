/** The upload part of the application state (app/state.py): the size
    label, the file acceptance rule, the outcome of `handle_upload` and
    `clear_video`. Reading and writing the file, the simulated progress loop
    and the random name suffix are outside the model; the suffix arrives as
    a parameter. */
module Upload {
  import opened Results
  import opened Text
  import Normalization

  datatype UploadFile = UploadFile(filename: string, contentType: string, size: int)

  datatype SizeUnit = KB | MB | GB

  /** The size label: sizes below 1024 are rendered exactly as "<n> B";
      larger ones are a quotient in a binary unit, rendered with two
      decimals (the rendering itself is not modelled). */
  datatype SizeText = Exact(text: string) | Scaled(value: real, unit: SizeUnit)

  datatype VideoMetadata = VideoMetadata(
    filename: string,
    size: SizeText,
    duration: Option<string>,
    resolution: Option<string>,
    audioInfo: Option<string>,
    error: Option<string>)

  datatype UploadState = UploadState(
    isUploading: bool,
    processingMessage: string,
    videoFileName: string,
    videoMetadata: Option<VideoMetadata>,
    uploadProgress: int,
    showProcessingError: bool)

  const InitialUpload: UploadState := UploadState(false, "", "", None, 0, false)

  const ACCEPTED_VIDEO_TYPES: seq<string> :=
    ["video/mp4", "video/webm", "video/x-msvideo", "video/quicktime", "video/x-matroska"]

  const VALID_EXTENSIONS: seq<string> := [".mp4", ".webm", ".avi", ".mov", ".mkv"]

  const INVALID_FILE_ERROR: string :=
    "Invalid file type. Please upload a valid video file (MP4, WEBM, AVI, MOV, MKV)."

  const KIB: int := 1024

  /** Bytes in one unit. */
  function UnitBytes(u: SizeUnit): (b: int)
    ensures b > 0
    ensures u == KB ==> b == KIB
    ensures u == MB ==> b == KIB * KIB
    ensures u == GB ==> b == KIB * KIB * KIB
  {
    match u
    case KB => 1024
    case MB => 1024 * 1024
    case GB => 1024 * 1024 * 1024
  }

  /** Position of the label's unit on the scale B < KB < MB < GB. */
  function UnitRank(t: SizeText): (k: nat)
    ensures k <= 3
    ensures k == 0 <==> t.Exact?
  {
    match t
    case Exact(_) => 0
    case Scaled(_, KB) => 1
    case Scaled(_, MB) => 2
    case Scaled(_, GB) => 3
  }

  /** `_format_size`: the unit is chosen by strict thresholds 1024, 1024^2
      and 1024^3; the displayed quantity is the size in that unit. */
  function FormatSize(n: int): (r: SizeText)
    ensures r.Exact? <==> n < KIB
    ensures r.Exact? ==> r.text == IntToString(n) + " B"
    ensures r.Scaled? ==> r.value * UnitBytes(r.unit) as real == n as real
    ensures r.Scaled? ==> (r.unit == KB <==> KIB <= n < KIB * KIB)
    ensures r.Scaled? ==> (r.unit == MB <==> KIB * KIB <= n < KIB * KIB * KIB)
    ensures r.Scaled? ==> (r.unit == GB <==> KIB * KIB * KIB <= n)
  {
    if n < 1024 then Exact(IntToString(n) + " B")
    else if n < 1024 * 1024 then Scaled(n as real / 1024.0, KB)
    else if n < 1024 * 1024 * 1024 then Scaled(n as real / (1024 * 1024) as real, MB)
    else Scaled(n as real / (1024 * 1024 * 1024) as real, GB)
  }

  /** The exact label reads back as the size it was made from. */
  lemma ExactSizeRoundTrip(n: int)
    requires n < KIB
    ensures var t := FormatSize(n).text;
      && |t| > 2 && t[|t| - 2..] == " B"
      && var digits := t[..|t| - 2];
         (digits[0] == '-' ==> |digits| > 1) && ParseInt(digits) == n
  {
    var t := FormatSize(n).text;
    IntToStringRoundTrip(n);
    assert t[..|t| - 2] == IntToString(n);
  }

  /** A bigger size never gets a smaller unit. */
  lemma UnitMonotone(m: int, n: int)
    requires m <= n
    ensures UnitRank(FormatSize(m)) <= UnitRank(FormatSize(n))
  {
  }

  /** A scaled label below the top unit always shows a quantity in
      [1, 1024): the unit is the largest one that keeps it at least 1. */
  lemma ScaledValueInRange(n: int)
    requires n >= KIB
    ensures FormatSize(n).value >= 1.0
    ensures FormatSize(n).unit != GB ==> FormatSize(n).value < 1024.0
  {
    var r := FormatSize(n);
    QuotientRange(n, UnitBytes(r.unit), r.value);
  }

  lemma QuotientRange(n: int, b: int, q: real)
    requires b > 0 && b <= n
    requires q * b as real == n as real
    ensures q >= 1.0
    ensures n < 1024 * b ==> q < 1024.0
  {
    QuotientAtLeast(b as real, n as real, q, 1.0);
    if n < 1024 * b {
      QuotientBelow(b as real, n as real, q, 1024.0);
    }
  }

  lemma QuotientAtLeast(c: real, x: real, q: real, k: real)
    requires c > 0.0 && k * c <= x && q * c == x
    ensures q >= k
  {
    if q < k {
      Normalization.MultiplyMonotone(q, k, c);
    }
  }

  lemma QuotientBelow(c: real, x: real, q: real, k: real)
    requires c > 0.0 && x < k * c && q * c == x
    ensures q < k
  {
    if q >= k {
      Normalization.MultiplyMonotone(k, q, c);
    }
  }

  /** Whether the lower-cased name ends with one of `exts`. */
  function AnyEndsWith(s: string, exts: seq<string>): (b: bool)
    ensures b <==> exists i :: 0 <= i < |exts| && EndsWith(s, exts[i])
  {
    if |exts| == 0 then false
    else
      assert forall i :: 1 <= i < |exts| ==> exts[1..][i - 1] == exts[i];
      EndsWith(s, exts[0]) || AnyEndsWith(s, exts[1..])
  }

  /** The acceptance rule: the MIME type must be one of the five listed,
      compared exactly, and the lower-cased name must end with one of the
      five extensions. The two lists are not matched against each other.
      An accepted name is at least as long as the shortest extension. */
  function AcceptedFile(f: UploadFile): (ok: bool)
    ensures ok <==> (f.contentType in ACCEPTED_VIDEO_TYPES
      && exists i :: 0 <= i < |VALID_EXTENSIONS| && EndsWith(Lower(f.filename), VALID_EXTENSIONS[i]))
    ensures ok ==> |f.filename| >= 4
  {
    f.contentType in ACCEPTED_VIDEO_TYPES && AnyEndsWith(Lower(f.filename), VALID_EXTENSIONS)
  }

  /** The extension test ignores ASCII case, the MIME test does not. */
  lemma ExtensionCaseInsensitive(f: UploadFile)
    ensures AcceptedFile(f) <==> AcceptedFile(f.(filename := Lower(f.filename)))
  {
    LowerIdempotent(f.filename);
  }

  /** An MP4 MIME type with a Matroska name is accepted: the lists are not
      cross-checked. */
  lemma MismatchedTypeAccepted()
    ensures AcceptedFile(UploadFile("clip.MKV", "video/mp4", 2048))
  {
    var l := Lower("clip.MKV");
    assert l == "clip.mkv";
    assert EndsWith(l, VALID_EXTENSIONS[4]);
  }

  /** An upper-case MIME type is rejected even with a valid name. */
  lemma MimeTypeCaseSensitive()
    ensures !AcceptedFile(UploadFile("clip.mp4", "VIDEO/MP4", 2048))
  {
    assert "VIDEO/MP4"[0] != "video/mp4"[0];
    assert "VIDEO/MP4" !in ACCEPTED_VIDEO_TYPES;
  }

  /** A name must end with the extension, not merely contain it. */
  lemma ExtensionMustBeSuffix()
    ensures !AcceptedFile(UploadFile("clip.mp4.txt", "video/mp4", 2048))
  {
    var l := Lower("clip.mp4.txt");
    assert l == "clip.mp4.txt";
    forall i | 0 <= i < |VALID_EXTENSIONS|
      ensures !EndsWith(l, VALID_EXTENSIONS[i])
    {
      assert l[|l| - 1] == 't';
    }
  }

  /** The placeholder metadata recorded for an accepted file. */
  function AcceptedMetadata(f: UploadFile): (m: VideoMetadata)
    ensures m.filename == f.filename && m.size == FormatSize(f.size)
    ensures m.duration.Some? && m.resolution.Some? && m.audioInfo.Some?
    ensures m.error.None?
  {
    VideoMetadata(f.filename, FormatSize(f.size),
                  Some("00:01:34"), Some("1920x1080"), Some("AAC, 48kHz, Stereo"), None)
  }

  /** The metadata recorded for a rejected file: its name and size, no
      media facts, and the error text. */
  function RejectedMetadata(f: UploadFile): (m: VideoMetadata)
    ensures m.filename == f.filename && m.size == FormatSize(f.size)
    ensures m.duration.None? && m.resolution.None? && m.audioInfo.None?
    ensures m.error == Some(INVALID_FILE_ERROR)
  {
    VideoMetadata(f.filename, FormatSize(f.size), None, None, None, Some(INVALID_FILE_ERROR))
  }

  /** The state `handle_upload` finishes in. Only the first file counts.
      With no file the reset state remains; a rejected file records the
      error metadata; an accepted one is stored under `<suffix>_<name>`
      with full progress. */
  function HandleUpload(st: UploadState, files: seq<UploadFile>, suffix: string): (r: UploadState)
    ensures !r.isUploading
    ensures |files| == 0 ==>
      && r.videoMetadata.None? && r.videoFileName == "" && r.uploadProgress == 0
      && !r.showProcessingError && r.processingMessage == st.processingMessage
    ensures |files| > 0 && !AcceptedFile(files[0]) ==>
      && r.videoMetadata == Some(RejectedMetadata(files[0]))
      && r.videoFileName == "" && r.uploadProgress == 0
      && r.showProcessingError && r.processingMessage == st.processingMessage
    ensures |files| > 0 && AcceptedFile(files[0]) ==>
      && r.videoMetadata == Some(AcceptedMetadata(files[0]))
      && r.videoFileName == suffix + "_" + files[0].filename
      && r.uploadProgress == 100
      && !r.showProcessingError && r.processingMessage == "Analyzing video metadata..."
  {
    var reset := st.(isUploading := true, videoMetadata := None, videoFileName := "",
                     showProcessingError := false, uploadProgress := 0);
    if |files| == 0 then reset.(isUploading := false)
    else
      var f := files[0];
      if !AcceptedFile(f) then
        reset.(videoMetadata := Some(RejectedMetadata(f)), isUploading := false,
               showProcessingError := true)
      else
        reset.(uploadProgress := 100, videoFileName := suffix + "_" + f.filename,
               processingMessage := "Analyzing video metadata...",
               videoMetadata := Some(AcceptedMetadata(f)), isUploading := false)
  }

  /** The outcome of an upload is visible in the state: the error flag is
      raised exactly for a rejected first file, and a stored name exists
      exactly for an accepted one, ending with the uploaded name. */
  lemma UploadOutcome(st: UploadState, files: seq<UploadFile>, suffix: string)
    ensures var r := HandleUpload(st, files, suffix);
      && (r.showProcessingError <==> |files| > 0 && !AcceptedFile(files[0]))
      && (r.videoFileName != "" <==> |files| > 0 && AcceptedFile(files[0]))
      && (r.videoFileName != "" ==> EndsWith(r.videoFileName, files[0].filename))
      && (r.videoMetadata.Some? <==> |files| > 0)
      && (r.videoMetadata.Some? ==> (r.videoMetadata.value.error.None? <==> r.videoFileName != ""))
  {
    var r := HandleUpload(st, files, suffix);
    if |files| > 0 && AcceptedFile(files[0]) {
      var name := suffix + "_" + files[0].filename;
      assert name[|suffix|] == '_';
      assert name[|name| - |files[0].filename|..] == files[0].filename;
    }
  }

  /** `clear_video` drops the metadata and the stored name, lowers both
      flags and zeroes the progress; the processing message stays. */
  function ClearVideo(st: UploadState): (r: UploadState)
    ensures r.videoMetadata.None? && r.videoFileName == ""
    ensures !r.isUploading && !r.showProcessingError && r.uploadProgress == 0
    ensures r.processingMessage == st.processingMessage
  {
    st.(videoMetadata := None, videoFileName := "", isUploading := false,
        showProcessingError := false, uploadProgress := 0)
  }

  /** Clearing returns to the initial state, apart from the processing
      message, whatever came before: in particular it undoes any upload. */
  lemma ClearVideoResets(st: UploadState, files: seq<UploadFile>, suffix: string)
    ensures ClearVideo(st) == InitialUpload.(processingMessage := st.processingMessage)
    ensures var u := HandleUpload(st, files, suffix);
      ClearVideo(u) == InitialUpload.(processingMessage := u.processingMessage)
  {
  }
}

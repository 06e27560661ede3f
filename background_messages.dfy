/**
 * The values the background service stores and the replies of its message
 * handlers that do not touch the route analysis: screenshots, downloads and
 * settings.
 */
module BackgroundMessages {
  import opened Wrappers
  import Text
  import opened BackgroundTypes

  /** A value held in a storage area. */
  datatype Value =
    | Str(s: string)
    | Number(n: nat)
    | Flag(b: bool)
    | Fraction(r: real)
    | RouteList(routes: seq<Route>)
    | Analysis(a: RouteAnalysis)

  /** What a message handler resolves to. */
  datatype Reply =
    | Captured(dataUrl: string)
    | CaptureFailed(error: string, quotaExceeded: bool, permissionError: bool)
    | Downloaded
    | Started(message: string)
    | Failed(error: string)
    | Settings(values: map<string, Value>)
  {
    /** The reply's `success` field; the settings object has none. */
    function Success(): Option<bool>
    {
      match this
      case Captured(_) => Some(true)
      case Downloaded => Some(true)
      case Started(_) => Some(true)
      case Settings(_) => None
      case _ => Some(false)
    }

    /** The reply's `continue` field: a failed capture tells the caller to go on. */
    predicate Continues()
    {
      CaptureFailed?
    }
  }

  /** A capture error caused by the capture rate limit. */
  predicate QuotaError(message: string)
  {
    Text.Contains(message, "quota") || Text.Contains(message, "MAX_CAPTURE_VISIBLE_TAB_CALLS_PER_SECOND")
  }

  /** A capture error caused by a missing `activeTab` grant. */
  predicate PermissionError(message: string)
  {
    Text.Contains(message, "activeTab") || Text.Contains(message, "not in effect")
  }

  const QuotaMessage := "Screenshot quota exceeded - continuing analysis without screenshots"
  const PermissionMessage := "Screenshot permission not available - please interact with the page first"

  /**
   * The reply of `captureScreenshot`, given what the capture call returned:
   * a data url, or an error message. A failure never ends the caller's work,
   * and the rate limit is checked before the permission.
   */
  function CaptureReply(capture: Result<string>): (r: Reply)
    ensures r.Success() == Some(capture.Ok?)
    ensures capture.Ok? ==> r == Captured(capture.value)
    ensures capture.Err? ==> r.Continues()
    ensures capture.Err? ==> (r.quotaExceeded <==> QuotaError(capture.error))
    ensures capture.Err? ==> (r.permissionError <==> !QuotaError(capture.error) && PermissionError(capture.error))
    ensures capture.Err? && !QuotaError(capture.error) && !PermissionError(capture.error) ==> r.error == capture.error
  {
    match capture
    case Ok(url) => Captured(url)
    case Err(e) =>
      if QuotaError(e) then
        CaptureFailed(QuotaMessage, true, false)
      else if PermissionError(e) then
        CaptureFailed(PermissionMessage, false, true)
      else CaptureFailed(e, false, false)
  }

  /** A file to download. */
  datatype FileSpec = FileSpec(filename: string, mimeType: string, content: string)

  /** A download handed to the browser: its data url and file name. */
  datatype Download = Download(url: string, filename: string)

  /** The data url of a file; `encode` is the browser's `encodeURIComponent`. */
  function DataUrl(file: FileSpec, encode: string -> string): (u: string)
    ensures Text.StartsWith(u, "data:")
  {
    "data:" + file.mimeType + ";charset=utf-8," + encode(file.content)
  }

  function DownloadsOf(files: seq<FileSpec>, encode: string -> string): (ds: seq<Download>)
    ensures |ds| == |files|
    ensures forall j :: 0 <= j < |files| ==> ds[j] == Download(DataUrl(files[j], encode), files[j].filename)
  {
    if files == [] then []
    else DownloadsOf(files[..|files| - 1], encode) + [Download(DataUrl(files[|files| - 1], encode), files[|files| - 1].filename)]
  }

  /** One more file is one more download at the end. */
  lemma DownloadsStep(files: seq<FileSpec>, encode: string -> string, i: nat)
    requires i < |files|
    ensures DownloadsOf(files[..i + 1], encode) == DownloadsOf(files[..i], encode) + [Download(DataUrl(files[i], encode), files[i].filename)]
  {
    assert files[..i + 1][..i] == files[..i];
  }

  /** The index of the first download that fails, or the number of files. */
  function DownloadStop(files: seq<FileSpec>, failure: nat -> Option<string>, i: nat): (k: nat)
    requires i <= |files|
    ensures i <= k <= |files|
    ensures k < |files| ==> failure(k).Some?
    ensures forall j :: i <= j < k ==> failure(j).None?
    decreases |files| - i
  {
    if i == |files| || failure(i).Some? then i else DownloadStop(files, failure, i + 1)
  }

  /** The settings `getSettings` reads from sync storage. */
  const SettingKeys: set<string> := {
    "screenshotQuality", "waitTime", "captureFullPage", "excludeHiddenElements",
    "documentationFormat", "includeAccessibility", "maxRoutes", "segmentationThreshold",
    "enableBatchProcessing", "enableCaching"
  }

  /** The defaults written on installation. */
  const DefaultSettings: map<string, Value> := map[
    "screenshotQuality" := Str("high"),
    "waitTime" := Number(3000),
    "captureFullPage" := Flag(true),
    "excludeHiddenElements" := Flag(true),
    "documentationFormat" := Str("markdown"),
    "includeAccessibility" := Flag(true),
    "maxRoutes" := Number(20),
    "segmentationThreshold" := Fraction(0.7),
    "enableBatchProcessing" := Flag(true),
    "enableCaching" := Flag(true)
  ]

  /** The part of a storage area `getSettings` returns. */
  function SettingsOf(m: map<string, Value>): (r: map<string, Value>)
    ensures r.Keys == m.Keys * SettingKeys
    ensures forall k :: k in r ==> r[k] == m[k]
  {
    map k | k in m && k in SettingKeys :: m[k]
  }

  /** Right after installation, the settings read back are exactly the defaults, whatever sync storage held. */
  lemma InstalledSettings(m: map<string, Value>)
    ensures SettingsOf(m + DefaultSettings) == DefaultSettings
  {
    assert DefaultSettings.Keys == SettingKeys;
  }

}

/** The two HTTP endpoints of main.py: `download_stream` starts a download and
    reports `{"status", "message"}`, and `download_file` serves a file of the
    download directory by name. The name reported by the first is the only
    handle the second gets; the download directory is a set of file names. */
module Endpoints {
  import opened Py
  import opened Downloader

  /** The one directory both endpoints use (main.py:19). */
  const DownloadDirectoryPath := "/workspace/downloads"

  /** Query defaults of `download_stream` (main.py:54-55). */
  const DefaultQuality := "best"
  const DefaultContentType := "video"

  datatype HttpException = HttpException(statusCode: int, detail: string)

  /** The `Dict[str, str]` body of `download_stream`. */
  datatype Response = Response(status: string, message: string)

  /** A file served by `download_file`: its path and the name it is sent under. */
  datatype FileResponse = FileResponse(path: string, filename: string)

  const InternalErrorPrefix := "Internal server error "

  /** `async_download_video`: runs `download_content` on the download directory
      and turns any exception it raises into an HTTP 500 error. */
  function AsyncDownloadVideo(url: string, quality: string, contentType: string, cwd: string, run: DownloaderRun)
    : (r: Result<Option<string>, HttpException>)
    ensures r.Err? <==> contentType !in Qualities
    ensures r.Err? ==> r.error == HttpException(500, "Internal server error '" + contentType + "'")
    ensures r.Ok? ==> Returned(r.value) == DownloadContentSpec(url, quality, contentType, DownloadDirectoryPath, cwd, run).result
  {
    match DownloadContentSpec(url, quality, contentType, DownloadDirectoryPath, cwd, run).result
    case Returned(path) => Ok(path)
    case Raised(e) => Err(HttpException(500, InternalErrorPrefix + ExceptionText(e)))
  }

  /** The value of an optional query parameter. */
  function QueryValue(given: Option<string>, default: string): string
  {
    match given
    case Some(v) => v
    case None => default
  }

  /** `download_stream`: every value `async_download_video` returns is reported
      as a success with its `str()`, and its HTTP error as an error with the
      error's detail. */
  function DownloadStream(url: string, quality: Option<string>, contentType: Option<string>, cwd: string, run: DownloaderRun)
    : (r: Response)
    ensures var q, ct := QueryValue(quality, DefaultQuality), QueryValue(contentType, DefaultContentType);
      && (r.status == "success" || r.status == "error")
      && (r.status == "success" <==> ct in Qualities)
      && (r.status == "success" ==>
            r.message == StrOptional(DownloadContentSpec(url, q, ct, DownloadDirectoryPath, cwd, run).result.value))
  {
    match AsyncDownloadVideo(url, QueryValue(quality, DefaultQuality), QueryValue(contentType, DefaultContentType), cwd, run)
    case Ok(path) => Response("success", StrOptional(path))
    case Err(e) => Response("error", e.detail)
  }

  /** `download_file`: a name present in the download directory is served from
      there under that name; any other name is a 404 "File not found". */
  function DownloadFile(fileName: string, present: set<string>): (r: Result<FileResponse, HttpException>)
    ensures r.Err? <==> fileName !in present
    ensures r.Err? ==> r.error == HttpException(404, "File not found")
    ensures r.Ok? ==> r.value.filename == fileName
    ensures r.Ok? ==> r.value.path == JoinPath(DownloadDirectoryPath, fileName)
  {
    if fileName !in present then Err(HttpException(404, "File not found"))
    else Ok(FileResponse(JoinPath(DownloadDirectoryPath, fileName), fileName))
  }

  // ---------------------------------------------------------------------------
  // Properties of the endpoints
  // ---------------------------------------------------------------------------

  /** The stream reports an error exactly for an unknown content type, and the
      message then names the missing key; `async_download_video` raised HTTP
      500 in exactly those cases. */
  lemma StreamErrorIffUnknownContentType(
    url: string, quality: Option<string>, contentType: Option<string>, cwd: string, run: DownloaderRun)
    ensures var ct := QueryValue(contentType, DefaultContentType);
      var r := DownloadStream(url, quality, contentType, cwd, run);
      && (r.status == "error" <==> ct !in Qualities)
      && (r.status == "error" <==> AsyncDownloadVideo(url, QueryValue(quality, DefaultQuality), ct, cwd, run).Err?)
      && (r.status == "error" ==> r.message == "Internal server error '" + ct + "'")
  {
    var ct := QueryValue(contentType, DefaultContentType);
    RaisesIffUnknownContentType(url, QueryValue(quality, DefaultQuality), ct, DownloadDirectoryPath, cwd, run);
  }

  /** A known content type with an unknown quality is reported as a success
      whose message is "Invalid quality". */
  lemma StreamInvalidQualityIsSuccess(url: string, quality: string, contentType: string, cwd: string, run: DownloaderRun)
    requires contentType in Qualities && quality !in Qualities[contentType]
    ensures DownloadStream(url, Some(quality), Some(contentType), cwd, run) == Response("success", "Invalid quality")
  {
  }

  /** A failed download, whether the downloader raised or the hook met a
      "finished" event lacking a key, is reported as a success with message
      "None". */
  lemma StreamFailedDownloadIsSuccess(url: string, quality: string, contentType: string, cwd: string, run: DownloaderRun)
    requires IsKnownRequest(quality, contentType)
    requires run.failure.Some?
          || exists j :: 0 <= j < |run.events| && IsFinished(run.events[j]) && !IsWellFormed(run.events[j])
    ensures DownloadStream(url, Some(quality), Some(contentType), cwd, run) == Response("success", "None")
  {
    ReturnsNoneIff(url, quality, contentType, DownloadDirectoryPath, cwd, run);
  }

  /** A clean run without any "finished" event is reported with the same
      message "None" as a failed download. */
  lemma StreamNoFinishedEventIsNone(url: string, quality: string, contentType: string, cwd: string, run: DownloaderRun)
    requires IsKnownRequest(quality, contentType)
    requires run.failure == None
    requires forall j :: 0 <= j < |run.events| ==> !IsFinished(run.events[j])
    ensures DownloadStream(url, Some(quality), Some(contentType), cwd, run) == Response("success", "None")
  {
    NoFinishedEventReturnsNoneString(url, quality, contentType, DownloadDirectoryPath, cwd, run);
  }

  /** A clean run reports the last "finished" title with the fixed extension. */
  lemma StreamReportsLastTitle(
    url: string, quality: string, contentType: string, cwd: string, run: DownloaderRun, k: nat)
    requires IsKnownRequest(quality, contentType)
    requires run.failure == None
    requires k < |run.events| && IsFinished(run.events[k]) && IsWellFormed(run.events[k])
    requires forall j :: 0 <= j <= k && IsFinished(run.events[j]) ==> IsWellFormed(run.events[j])
    requires forall j :: k < j < |run.events| ==> !IsFinished(run.events[j])
    ensures DownloadStream(url, Some(quality), Some(contentType), cwd, run)
         == Response("success", run.events[k].title.value + "." + Extensions[contentType])
  {
    SuccessfulRunReturnsLastTitle(url, quality, contentType, DownloadDirectoryPath, cwd, run, k);
  }

  /** Omitted query parameters mean a best-quality video. */
  lemma StreamDefaults(url: string, cwd: string, run: DownloaderRun)
    ensures DownloadStream(url, None, None, cwd, run) == DownloadStream(url, Some("best"), Some("video"), cwd, run)
  {
    assert QueryValue(None, DefaultQuality) == "best";
    assert QueryValue(None, DefaultContentType) == "video";
  }

  /** The default request is sent to the downloader with the mp4 selector and
      the template in the download directory. */
  lemma DefaultRequestInvocation(url: string, cwd: string, run: DownloaderRun)
    ensures var t := DownloadContentSpec(url, DefaultQuality, DefaultContentType, DownloadDirectoryPath, cwd, run);
      && t.invocation.Some?
      && t.invocation.value.options.format == "bestvideo[ext=mp4]+bestaudio[ext=m4a]/best[ext=mp4]"
      && t.invocation.value.options.outTemplate == DownloadDirectoryPath + "/" + OutputTemplate
  {
    assert IsKnownRequest(DefaultQuality, DefaultContentType);
    InvocationIffKnownRequest(url, DefaultQuality, DefaultContentType, DownloadDirectoryPath, cwd, run);
    assert Qualities["video"]["best"] == "bestvideo[ext=mp4]+bestaudio[ext=m4a]/best[ext=mp4]";
    assert Absolute(DownloadDirectoryPath, cwd) == DownloadDirectoryPath;
    assert DownloadDirectoryPath[|DownloadDirectoryPath| - 1] != '/';
  }

  /** Both phases use the same directory: when the downloader wrote the file
      its output template names for the last "finished" title and the fixed
      extension, fetching the reported name serves exactly that file. */
  lemma TwoPhaseServesDownloadedFile(
    url: string, quality: string, contentType: string, cwd: string, run: DownloaderRun, k: nat,
    present: set<string>)
    requires IsKnownRequest(quality, contentType)
    requires run.failure == None
    requires k < |run.events| && IsFinished(run.events[k]) && IsWellFormed(run.events[k])
    requires forall j :: 0 <= j <= k && IsFinished(run.events[j]) ==> IsWellFormed(run.events[j])
    requires forall j :: k < j < |run.events| ==> !IsFinished(run.events[j])
    requires run.events[k].title.value + "." + Extensions[contentType] in present
    ensures var title := run.events[k].title.value;
      var extension := Extensions[contentType];
      var t := DownloadContentSpec(url, quality, contentType, DownloadDirectoryPath, cwd, run);
      var r := DownloadStream(url, Some(quality), Some(contentType), cwd, run);
      && t.invocation.Some?
      && r.status == "success"
      && DownloadFile(r.message, present)
         == Ok(FileResponse(RenderTemplate(t.invocation.value.options.outTemplate, title, extension), r.message))
  {
    var title := run.events[k].title.value;
    var extension := Extensions[contentType];
    var t := DownloadContentSpec(url, quality, contentType, DownloadDirectoryPath, cwd, run);
    StreamReportsLastTitle(url, quality, contentType, cwd, run, k);
    InvocationIffKnownRequest(url, quality, contentType, DownloadDirectoryPath, cwd, run);
    assert t.invocation.value.options.outTemplate == JoinPath(DownloadDirectoryPath, OutputTemplate);
    RenderOutputTemplate(DownloadDirectoryPath, title, extension);
  }

  /** The reported name carries the fixed extension, not the written one: when
      the downloader wrote the title under another extension only, the fetch
      of the reported name is a 404. */
  lemma TwoPhaseMissesOtherExtension(
    url: string, quality: string, contentType: string, cwd: string, run: DownloaderRun, k: nat,
    written: string)
    requires IsKnownRequest(quality, contentType)
    requires run.failure == None
    requires k < |run.events| && IsFinished(run.events[k]) && IsWellFormed(run.events[k])
    requires forall j :: 0 <= j <= k && IsFinished(run.events[j]) ==> IsWellFormed(run.events[j])
    requires forall j :: k < j < |run.events| ==> !IsFinished(run.events[j])
    requires written != Extensions[contentType]
    ensures var r := DownloadStream(url, Some(quality), Some(contentType), cwd, run);
      DownloadFile(r.message, {run.events[k].title.value + "." + written}) == Err(HttpException(404, "File not found"))
  {
    var title := run.events[k].title.value;
    var extension := Extensions[contentType];
    StreamReportsLastTitle(url, quality, contentType, cwd, run, k);
    var reported := title + "." + extension;
    var stored := title + "." + written;
    assert reported[|title| + 1..] == extension;
    assert stored[|title| + 1..] == written;
  }
}

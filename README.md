# Video downloader core, modelled in Dafny

This project models the download core of the video downloader service. That core does three things:

- It builds the option set for the external media downloader (yt-dlp) from a content
  type ("video" or "audio") and a quality label ("best" or "worst").
- It validates a request, runs the downloader and recovers the downloaded file's name
  from the downloader's progress-hook events.
- It exposes two HTTP endpoints: `download_stream` starts a download and reports
  `{"status", "message"}`, and `download_file` serves a file of the download directory
  by name.

Modules:

- `Py` (python.dfy): the Python values the core exchanges. It holds `Optional`,
  `KeyError`, a call that returns or raises, `str()` of those values, and pathlib's
  join and `absolute()` on POSIX paths.
- `Downloader` (downloader.dfy): func.py.
  - `ConfigureDownloadOptions` is the closed lookup table.
  - The progress hook is `HookStep`, folded over events by `FileNameAfter`.
  - `download_content` is the method `DownloadContent`. Its loop updates a mutable
    `fileName` per event, as the hook's `nonlocal file_name` does. It is proved equal to
    the function `DownloadContentSpec`, and the properties are proved about that function.
- `Endpoints` (endpoints.dfy): main.py, as functions over `DownloadContentSpec`. The
  download directory is modelled as a `set<string>` of the names present in it.

The external downloader is a parameter. One run of it is a `DownloaderRun`: the
progress events it reports to the hook, in order, followed by either a normal return or
an exception. A progress event carries its status and, each possibly missing, its
"filename" entry and its `info_dict` title. Every lemma holds for every such run. The
process's working directory, which `Path.absolute()` reads, is a parameter `cwd` too.

Behaviour the proofs make explicit:

- Validation looks up `QUALITIES[content_type]` before it checks the content type. So
  an unknown content type raises `KeyError`, and `download_stream` reports it as
  `status: error` with message `Internal server error '<type>'`. The
  "Invalid content type" return can never happen.
- A known content type with an unknown quality gives `status: success`, message
  "Invalid quality".
- A failed download also gives `status: success`, with message "None". So does a
  download that reported no "finished" event: the two cannot be told apart.
- The reported name is always the title, a dot, and the content type's fixed extension
  (mp4 or mp3). The last "finished" event wins. A fetch of that name finds the file
  only when the downloader wrote it under exactly that name.

The code does not parse the downloader's text output, arms no deletion timer, has no
container-format hints or resolution tiers, and does not check for an empty URL. The
model has none of these either.

## Model

| member | source | states |
|---|---|---|
| `Py.ExceptionText` | main.py:48 | `str()` of a `KeyError` is the missing key between single quotes |
| `Py.JoinPath` | func.py:35 | joining a leaf onto a non-empty directory inserts exactly one `/`, onto the empty path gives the leaf; a join onto an absolute directory is absolute |
| `Py.Absolute` | func.py:71 | an absolute directory is kept as it is; with an absolute working directory the result is always absolute |
| `Downloader.ConfigureDownloadOptions` | func.py:31-55 | succeeds exactly for a content type of `QUALITIES` with a quality of its table; otherwise raises `KeyError` on the first missing key; the format is the table entry |
| `Downloader.FormatSelectors` | func.py:8-14 | the four selector strings for video/audio × best/worst |
| `Downloader.ConfiguredCommonOptions` | func.py:35-42 | options always hold `outtmpl = dir + "/%(title)s.%(ext)s"`, `overwrites = True` and an empty hook list |
| `Downloader.AudioPostProcessor` | func.py:15-18 | audio gets exactly one `FFmpegExtractAudio` post-processor with codec mp3, quality "320" for best and "128" otherwise |
| `Downloader.VideoHasNoPostProcessors` | func.py:44-55 | video options have no `postprocessors` key |
| `Downloader.HookStep` | func.py:76-80 | only a "finished" event changes the name, and then to one ending in "." and the fixed extension; the hook raises exactly on a "finished" event missing a key |
| `Downloader.FileNameAfter` | func.py:76-84 | the name after any sequence of events is "None" or ends in "." and the fixed extension, whatever file was actually written |
| `Downloader.HookFailureIsFinal` | func.py:76-80 | once the hook has raised on a malformed "finished" event, later events change nothing |
| `Downloader.HookFailsIff` | func.py:78-80 | the hook raises exactly when some "finished" event lacks its filename or title |
| `Downloader.NoFinishedKeepsInitial` | func.py:78-84 | without a "finished" event the name stays the literal string "None" |
| `Downloader.LastFinishedWins` | func.py:76-84 | the name is the title of the last "finished" event plus "." and the fixed extension |
| `Downloader.DownloadContentSpec` | func.py:58-91 | raises exactly for an unknown content type; runs the downloader exactly for a known request |
| `Downloader.DownloadContent` | func.py:58-91 | the method (validation, hook append, per-event update of `file_name`, swallowed exceptions) returns exactly what `DownloadContentSpec` states, and invokes the downloader exactly as it states |
| `Downloader.RaisesIffUnknownContentType` | func.py:64 | `download_content` raises exactly for an unknown content type, with `KeyError(content_type)`, and then does not run the downloader |
| `Downloader.KnownRequestReturnShape` | func.py:74-91 | a known request never raises, and a returned name other than "None" ends in "." and the fixed extension |
| `Downloader.SentinelsLackExtension` | func.py:66-69 | neither "Invalid quality" nor "Invalid content type" ends in ".mp4" or ".mp3", so no recovered name can be mistaken for them |
| `Downloader.InvalidQualityIff` | func.py:64-66 | "Invalid quality" is returned exactly for a known content type with an unknown quality, and then the downloader is not run |
| `Downloader.InvalidContentTypeUnreachable` | func.py:64-69 | "Invalid content type" is never returned |
| `Downloader.InvocationIffKnownRequest` | func.py:74-87 | the downloader runs exactly for a known request, on the one URL, with the table's selector, the template in the absolute directory, and exactly one hook |
| `Downloader.DownloaderFailureReturnsNone` | func.py:85-91 | a downloader exception makes `download_content` return `None` instead of raising |
| `Downloader.ReturnsNoneIff` | func.py:76-91 | `None` is returned exactly for a known request whose downloader raised or whose hook met a "finished" event missing a key |
| `Downloader.SuccessfulRunReturnsLastTitle` | func.py:84-89 | a clean run returns the last "finished" title plus ".mp4" for video and ".mp3" for audio |
| `Downloader.NoFinishedEventReturnsNoneString` | func.py:84-89 | a clean run with no "finished" event returns the string "None" |
| `Downloader.RenderFileTemplate` | func.py:35 | the file-name template renders to `<title>.<ext>` |
| `Downloader.RenderOutputTemplate` | func.py:35 | the output template in a directory without `%` names the file `dir/<title>.<ext>` |
| `Endpoints.AsyncDownloadVideo` | main.py:36-48 | raises exactly for an unknown content type, as HTTP 500 with detail "Internal server error '<type>'"; otherwise passes on what `download_content` returned |
| `Endpoints.DownloadStream` | main.py:51-63 | the status is "success" exactly for a known content type, and then the message is `str()` of what `download_content` returned; otherwise "error" |
| `Endpoints.DownloadFile` | main.py:66-75 | 404 "File not found" exactly when the name is not in the download directory; otherwise serves `/workspace/downloads/<name>` under that name |
| `Endpoints.StreamErrorIffUnknownContentType` | main.py:58-63 | status "error" exactly for an unknown content type, exactly when `async_download_video` raised, with message "Internal server error '<type>'" |
| `Endpoints.StreamInvalidQualityIsSuccess` | main.py:59-60 | an unknown quality of a known type is reported as success with message "Invalid quality" |
| `Endpoints.StreamFailedDownloadIsSuccess` | main.py:59-60 | a failed download (the downloader raised, or the hook met a "finished" event missing a key) is reported as success with message "None" |
| `Endpoints.StreamNoFinishedEventIsNone` | main.py:59-60 | a clean run with no "finished" event is reported as success with the same message "None" |
| `Endpoints.StreamReportsLastTitle` | main.py:59-60 | a clean run is reported as success with the last "finished" title and the fixed extension |
| `Endpoints.StreamDefaults` | main.py:52-55 | omitted query parameters mean quality "best" and type "video" |
| `Endpoints.DefaultRequestInvocation` | main.py:19 | the default request reaches the downloader with the mp4 selector and the template in `/workspace/downloads` |
| `Endpoints.TwoPhaseServesDownloadedFile` | main.py:71-75 | when the file the template names for the reported title exists, fetching the reported name serves exactly that file |
| `Endpoints.TwoPhaseMissesOtherExtension` | main.py:71-74 | when the downloader wrote the title under another extension only, fetching the reported name is a 404 |

## Left out

- The yt-dlp call (func.py:86-87) is a foreign library. It is replaced by the
  `DownloaderRun` parameter, so the model does not relate the events to the URL or the
  options.
- A `KeyError` raised inside the progress hook is assumed to propagate out of
  `ydl.download` unchanged, because yt-dlp does not catch it. It is then swallowed by
  `download_content`.
- `ensure_directory_exists` (func.py:24-28) is a filesystem side effect whose errors
  are only logged. It does not change any result.
- The directory creation in main.py:23 runs once when the module is imported, outside
  any try/except. If it fails, the module does not load and neither endpoint exists.
  The model assumes it succeeded.
- All loguru logging is left out.
- The asyncio `run_in_executor` offload (main.py:40-44) is concurrency.
  `async_download_video` is modelled as a synchronous call.
- Exceptions that the executor itself could raise are not modelled.
- Framework plumbing is left out: CORS, the static mount, route decorators, query
  validation (a missing `url` or `file_name` is rejected by the framework) and the
  streaming of `FileResponse`.
- pathlib normalisation is not modelled: collapsed `//`, `.` components, trailing
  slashes. Download directories are taken as normalised strings.
- `Py.ExceptionText` does not model Python's repr escaping: the quote choice and
  backslashes for keys that contain quotes or control characters.
- `Endpoints.DownloadFile`: the existence test is membership of the name in the set of
  directory entries. A name with `/` or `..` is not resolved against the real tree, and
  the empty name, which pathlib turns into the directory itself, is not special-cased.
- `Downloader.RenderTemplate` substitutes the title literally. yt-dlp's sanitising of
  titles for file names is not modelled. Where sanitising changes the title, the reported
  name and the written file differ further.
- app.py is not part of this model. Its UI and launch code are framework code, and the
  functions it imports (`download_video`, `string_to_port_crc32`) are not defined in
  func.py.

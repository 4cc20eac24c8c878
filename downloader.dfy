/** The download core of func.py: the closed lookup from a content type and a
    quality label to the downloader's options, and `download_content`, which
    validates the request, attaches a progress hook, runs the downloader and
    recovers the file name from the hook's "finished" events.

    The external downloader is not modelled: one run of it is a
    `DownloaderRun`, the sequence of progress events it reports to the hook,
    optionally followed by an exception. */
module Downloader {
  import opened Py

  // ---------------------------------------------------------------------------
  // Constants (func.py:8-18)
  // ---------------------------------------------------------------------------

  /** Format selectors by content type and quality label. */
  const Qualities: map<string, map<string, string>> := map[
    "video" := map[
      "best" := "bestvideo[ext=mp4]+bestaudio[ext=m4a]/best[ext=mp4]",
      "worst" := "worstvideo+worstaudio/worst"],
    "audio" := map[
      "best" := "bestaudio/best",
      "worst" := "worstaudio/worst"]]

  /** The extension reported for each content type. */
  const Extensions: map<string, string> := map["video" := "mp4", "audio" := "mp3"]

  const BestQualityAudio := "320"
  const WorstQualityAudio := "128"

  /** The output file name template, relative to the download directory. */
  const OutputTemplate := "%(title)s.%(ext)s"

  /** The value `file_name` holds until a "finished" event arrives. */
  const InitialFileName := "None"

  const InvalidQuality := "Invalid quality"
  const InvalidContentType := "Invalid content type"

  // ---------------------------------------------------------------------------
  // Downloader options (func.py:31-55)
  // ---------------------------------------------------------------------------

  datatype PostProcessor = PostProcessor(key: string, preferredCodec: string, preferredQuality: string)

  /** The `progress_hook` closure of `download_content`; all it captures that
      matters is the extension of the requested content type. */
  datatype ProgressHook = FileNameHook(extension: string)

  /** The options dictionary; `postprocessors` is `None` when the key is absent. */
  datatype Options = Options(
    format: string,
    outTemplate: string,
    overwrites: bool,
    progressHooks: seq<ProgressHook>,
    postprocessors: Option<seq<PostProcessor>>)

  /** A request with a known content type and a quality of that type's table. */
  predicate IsKnownRequest(quality: string, contentType: string)
  {
    contentType in Qualities && quality in Qualities[contentType]
  }

  /** `configure_download_options`: `QUALITIES[content_type][quality]` raises a
      `KeyError` for the first key that is missing; otherwise the options hold
      the selector, the output template in `downloadDir`, the overwrite flag and
      an empty hook list, plus an audio-extraction post-processor for audio. */
  function ConfigureDownloadOptions(quality: string, contentType: string, downloadDir: string): (r: CallResult<Options>)
    ensures r.Returned? <==> IsKnownRequest(quality, contentType)
    ensures r.Raised? ==> r.exception == KeyError(if contentType in Qualities then quality else contentType)
    ensures r.Returned? ==> r.value.format == Qualities[contentType][quality]
  {
    if contentType !in Qualities then Raised(KeyError(contentType))
    else if quality !in Qualities[contentType] then Raised(KeyError(quality))
    else
      var options := Options(
        Qualities[contentType][quality],
        JoinPath(downloadDir, OutputTemplate),
        true,
        [],
        None);
      if contentType == "audio" then
        Returned(options.(postprocessors := Some([PostProcessor(
          "FFmpegExtractAudio",
          Extensions[contentType],
          if quality == "best" then BestQualityAudio else WorstQualityAudio)])))
      else
        Returned(options)
  }

  /** The selector table in full, for both content types and both labels. */
  lemma FormatSelectors(downloadDir: string)
    ensures ConfigureDownloadOptions("best", "video", downloadDir).value.format
         == "bestvideo[ext=mp4]+bestaudio[ext=m4a]/best[ext=mp4]"
    ensures ConfigureDownloadOptions("worst", "video", downloadDir).value.format == "worstvideo+worstaudio/worst"
    ensures ConfigureDownloadOptions("best", "audio", downloadDir).value.format == "bestaudio/best"
    ensures ConfigureDownloadOptions("worst", "audio", downloadDir).value.format == "worstaudio/worst"
  {
  }

  /** Every configured request writes into `downloadDir` through the fixed
      template, overwrites existing files and starts with no hooks. */
  lemma ConfiguredCommonOptions(quality: string, contentType: string, downloadDir: string)
    requires IsKnownRequest(quality, contentType)
    ensures ConfigureDownloadOptions(quality, contentType, downloadDir).Returned?
    ensures var o := ConfigureDownloadOptions(quality, contentType, downloadDir).value;
      && o.outTemplate == JoinPath(downloadDir, "%(title)s.%(ext)s")
      && o.overwrites
      && o.progressHooks == []
  {
  }

  /** Audio requests get exactly one mp3 extraction post-processor, at 320 kbps
      for "best" and 128 kbps otherwise. */
  lemma AudioPostProcessor(quality: string, downloadDir: string)
    requires quality in Qualities["audio"]
    ensures var r := ConfigureDownloadOptions(quality, "audio", downloadDir);
      && r.Returned?
      && r.value.postprocessors.Some?
      && |r.value.postprocessors.value| == 1
      && r.value.postprocessors.value[0].key == "FFmpegExtractAudio"
      && r.value.postprocessors.value[0].preferredCodec == "mp3"
      && r.value.postprocessors.value[0].preferredQuality == (if quality == "best" then "320" else "128")
  {
  }

  /** Video requests have no `postprocessors` key at all. */
  lemma VideoHasNoPostProcessors(quality: string, downloadDir: string)
    requires quality in Qualities["video"]
    ensures var r := ConfigureDownloadOptions(quality, "video", downloadDir);
      r.Returned? && r.value.postprocessors == None
  {
  }

  // ---------------------------------------------------------------------------
  // The progress hook (func.py:76-80)
  // ---------------------------------------------------------------------------

  /** A progress report handed to the hook. `filename` is the event's
      "filename" entry and `title` its `info_dict["title"]`; `None` stands for
      a missing key. */
  datatype HookEvent = HookEvent(status: string, filename: Option<string>, title: Option<string>)

  /** One run of the external downloader: the events it reports in order, then
      either a normal return (`failure == None`) or an exception. */
  datatype DownloaderRun = DownloaderRun(events: seq<HookEvent>, failure: Option<string>)

  /** The hook's view of `file_name`, or the hook having raised (a missing key
      in a "finished" event), which stops the downloader. */
  datatype HookState = Named(fileName: string) | HookFailed

  predicate IsFinished(e: HookEvent)
  {
    e.status == "finished"
  }

  /** A "finished" event from which the hook can read both keys. */
  predicate IsWellFormed(e: HookEvent)
  {
    e.filename.Some? && e.title.Some?
  }

  /** One call of the hook on `file_name == current`: only a "finished" event
      changes the name, to one ending in "." and `extension`, and the hook
      raises exactly on a "finished" event that lacks a key. */
  function HookStep(current: string, e: HookEvent, extension: string): (r: HookState)
    ensures r.HookFailed? <==> IsFinished(e) && !IsWellFormed(e)
    ensures !IsFinished(e) ==> r == Named(current)
    ensures r.Named? && IsFinished(e) ==> HasExtension(r.fileName, extension)
  {
    if !IsFinished(e) then Named(current)
    else if !IsWellFormed(e) then HookFailed
    else
      var name := e.title.value + "." + extension;
      assert name[|name| - |extension| - 1..] == "." + extension;
      Named(name)
  }

  /** The hook folded over `events` from the initial `file_name`. The name it
      ends with is "None" or ends in "." and the fixed extension, whatever
      extension the downloaded file actually has. */
  function FileNameAfter(events: seq<HookEvent>, extension: string): (r: HookState)
    ensures r.Named? ==> r.fileName == InitialFileName || HasExtension(r.fileName, extension)
    decreases |events|
  {
    if events == [] then Named(InitialFileName)
    else
      match FileNameAfter(events[..|events| - 1], extension)
      case HookFailed => HookFailed
      case Named(current) => HookStep(current, events[|events| - 1], extension)
  }

  /** `name` is some title followed by "." and `extension`. */
  predicate HasExtension(name: string, extension: string)
  {
    |name| > |extension| && name[|name| - |extension| - 1..] == "." + extension
  }

  /** Once the hook has raised, later events do not matter. */
  lemma {:induction false} HookFailureIsFinal(events: seq<HookEvent>, k: nat, extension: string)
    requires k <= |events|
    requires FileNameAfter(events[..k], extension) == HookFailed
    ensures FileNameAfter(events, extension) == HookFailed
    decreases |events| - k
  {
    if k < |events| {
      assert events[..k + 1][..k] == events[..k];
      HookFailureIsFinal(events, k + 1, extension);
    } else {
      assert events[..k] == events;
    }
  }

  /** The hook raises exactly when some "finished" event is missing a key. */
  lemma {:induction false} HookFailsIff(events: seq<HookEvent>, extension: string)
    ensures FileNameAfter(events, extension) == HookFailed
        <==> exists j :: 0 <= j < |events| && IsFinished(events[j]) && !IsWellFormed(events[j])
  {
    if events != [] {
      var init := events[..|events| - 1];
      HookFailsIff(init, extension);
      if exists j :: 0 <= j < |init| && IsFinished(init[j]) && !IsWellFormed(init[j]) {
        var j :| 0 <= j < |init| && IsFinished(init[j]) && !IsWellFormed(init[j]);
        assert events[j] == init[j];
      }
      if exists j :: 0 <= j < |events| && IsFinished(events[j]) && !IsWellFormed(events[j]) {
        var j :| 0 <= j < |events| && IsFinished(events[j]) && !IsWellFormed(events[j]);
        if j < |init| {
          assert init[j] == events[j];
        }
      }
    }
  }

  /** With no "finished" event the name stays the literal "None". */
  lemma {:induction false} NoFinishedKeepsInitial(events: seq<HookEvent>, extension: string)
    requires forall j :: 0 <= j < |events| ==> !IsFinished(events[j])
    ensures FileNameAfter(events, extension) == Named("None")
  {
    if events != [] {
      var init := events[..|events| - 1];
      NoFinishedKeepsInitial(init, extension);
    }
  }

  /** If the last "finished" event is at `k` and every "finished" event up to
      it is well formed, the name is that event's title with `extension`. */
  lemma {:induction false} LastFinishedWins(events: seq<HookEvent>, k: nat, extension: string)
    requires k < |events|
    requires IsFinished(events[k]) && IsWellFormed(events[k])
    requires forall j :: 0 <= j <= k && IsFinished(events[j]) ==> IsWellFormed(events[j])
    requires forall j :: k < j < |events| ==> !IsFinished(events[j])
    ensures FileNameAfter(events, extension) == Named(events[k].title.value + "." + extension)
  {
    var init := events[..|events| - 1];
    if k == |events| - 1 {
      HookFailsIff(init, extension);
      assert forall j :: 0 <= j < |init| ==> init[j] == events[j];
    } else {
      LastFinishedWins(init, k, extension);
    }
  }

  // ---------------------------------------------------------------------------
  // download_content (func.py:58-91)
  // ---------------------------------------------------------------------------

  /** What the downloader was handed: the options, with the hook, and the URLs. */
  datatype Invocation = Invocation(options: Options, urls: seq<string>)

  /** The return value of `download_content` together with the downloader
      invocation it made, if any. */
  datatype DownloadTrace = DownloadTrace(result: CallResult<Option<string>>, invocation: Option<Invocation>)

  /** The options after `configure_download_options` and the hook append. */
  function HandedOptions(quality: string, contentType: string, downloadDir: string): Options
    requires IsKnownRequest(quality, contentType)
  {
    var options := ConfigureDownloadOptions(quality, contentType, downloadDir).value;
    options.(progressHooks := options.progressHooks + [FileNameHook(Extensions[contentType])])
  }

  /** The behaviour of `download_content` as a function of its inputs, the
      working directory and the downloader's run. */
  function DownloadContentSpec(
    url: string, quality: string, contentType: string, downloadDir: string,
    cwd: string, run: DownloaderRun): (t: DownloadTrace)
    ensures t.result.Raised? <==> contentType !in Qualities
    ensures t.invocation.Some? <==> IsKnownRequest(quality, contentType)
  {
    if contentType !in Qualities then
      DownloadTrace(Raised(KeyError(contentType)), None)
    else if quality !in Qualities[contentType] then
      DownloadTrace(Returned(Some(InvalidQuality)), None)
    else
      var invocation := Some(Invocation(HandedOptions(quality, contentType, Absolute(downloadDir, cwd)), [url]));
      match FileNameAfter(run.events, Extensions[contentType])
      case HookFailed => DownloadTrace(Returned(None), invocation)
      case Named(name) =>
        if run.failure.Some? then DownloadTrace(Returned(None), invocation)
        else DownloadTrace(Returned(Some(name)), invocation)
  }

  /** `download_content`: validation in the source's order, option set-up with
      the hook appended, and the hook's updates of `file_name` as the downloader
      reports events. An exception from the downloader, or from the hook inside
      it, is swallowed and the function returns `None`. */
  method DownloadContent(
    url: string, quality: string, contentType: string, downloadDir: string,
    cwd: string, run: DownloaderRun)
    returns (result: CallResult<Option<string>>, invocation: Option<Invocation>)
    ensures DownloadTrace(result, invocation) == DownloadContentSpec(url, quality, contentType, downloadDir, cwd, run)
  {
    // `QUALITIES[content_type]` is evaluated before either membership test
    if contentType !in Qualities {
      return Raised(KeyError(contentType)), None;
    }
    if quality !in Qualities[contentType] {
      return Returned(Some(InvalidQuality)), None;
    }
    if contentType !in Qualities {
      return Returned(Some(InvalidContentType)), None;
    }
    var dir := Absolute(downloadDir, cwd);
    var options := ConfigureDownloadOptions(quality, contentType, dir).value;
    var extension := Extensions[contentType];
    options := options.(progressHooks := options.progressHooks + [FileNameHook(extension)]);
    invocation := Some(Invocation(options, [url]));

    var fileName := InitialFileName;
    var i := 0;
    while i < |run.events|
      invariant 0 <= i <= |run.events|
      invariant FileNameAfter(run.events[..i], extension) == Named(fileName)
    {
      var e := run.events[i];
      assert run.events[..i + 1][..i] == run.events[..i];
      if e.status == "finished" {
        if e.filename.None? || e.title.None? {
          // the KeyError raised in the hook leaves the downloader
          HookFailureIsFinal(run.events, i + 1, extension);
          return Returned(None), invocation;
        }
        fileName := e.title.value + "." + extension;
      }
      i := i + 1;
    }
    assert run.events[..i] == run.events;
    if run.failure.Some? {
      return Returned(None), invocation;
    }
    return Returned(Some(fileName)), invocation;
  }

  // ---------------------------------------------------------------------------
  // Properties of download_content
  // ---------------------------------------------------------------------------

  /** An unknown content type raises `KeyError(content_type)` at the first
      lookup, and only then does the call raise; nothing is downloaded. */
  lemma RaisesIffUnknownContentType(
    url: string, quality: string, contentType: string, downloadDir: string,
    cwd: string, run: DownloaderRun)
    ensures var t := DownloadContentSpec(url, quality, contentType, downloadDir, cwd, run);
      && (t.result.Raised? <==> contentType !in Qualities)
      && (t.result.Raised? ==> t.result.exception == KeyError(contentType) && t.invocation == None)
  {
  }

  /** For a known request `download_content` returns (never raises), and a
      returned name other than "None" ends in "." and the fixed extension. */
  lemma KnownRequestReturnShape(
    url: string, quality: string, contentType: string, downloadDir: string,
    cwd: string, run: DownloaderRun)
    requires IsKnownRequest(quality, contentType)
    ensures var r := DownloadContentSpec(url, quality, contentType, downloadDir, cwd, run).result;
      && r.Returned?
      && (r.value.Some? && r.value.value != "None" ==> HasExtension(r.value.value, Extensions[contentType]))
  {
    var state := FileNameAfter(run.events, Extensions[contentType]);
    assert state.Named? ==> state.fileName == InitialFileName || HasExtension(state.fileName, Extensions[contentType]);
  }

  /** Neither sentinel string of `download_content` has a reported extension. */
  lemma SentinelsLackExtension(extension: string)
    requires extension in Extensions.Values
    ensures !HasExtension("Invalid quality", extension)
    ensures !HasExtension("Invalid content type", extension)
  {
    var q, c := "Invalid quality", "Invalid content type";
    assert extension == "mp4" || extension == "mp3";
    assert q[|q| - 4] == 'l' && c[|c| - 4] == 't';
    assert ("." + extension)[0] == '.';
  }

  /** "Invalid quality" is returned exactly for a known content type with a
      quality outside its table, and then the downloader is not run. */
  lemma InvalidQualityIff(
    url: string, quality: string, contentType: string, downloadDir: string,
    cwd: string, run: DownloaderRun)
    ensures var t := DownloadContentSpec(url, quality, contentType, downloadDir, cwd, run);
      && (t.result == Returned(Some("Invalid quality"))
          <==> contentType in Qualities && quality !in Qualities[contentType])
      && (t.result == Returned(Some("Invalid quality")) ==> t.invocation == None)
  {
    if IsKnownRequest(quality, contentType) {
      KnownRequestReturnShape(url, quality, contentType, downloadDir, cwd, run);
      SentinelsLackExtension(Extensions[contentType]);
    }
  }

  /** The "Invalid content type" return is unreachable. */
  lemma InvalidContentTypeUnreachable(
    url: string, quality: string, contentType: string, downloadDir: string,
    cwd: string, run: DownloaderRun)
    ensures DownloadContentSpec(url, quality, contentType, downloadDir, cwd, run).result
         != Returned(Some("Invalid content type"))
  {
    if IsKnownRequest(quality, contentType) {
      KnownRequestReturnShape(url, quality, contentType, downloadDir, cwd, run);
      SentinelsLackExtension(Extensions[contentType]);
    }
  }

  /** The downloader runs exactly for a known request, with the configured
      options, a single hook and the single URL. */
  lemma InvocationIffKnownRequest(
    url: string, quality: string, contentType: string, downloadDir: string,
    cwd: string, run: DownloaderRun)
    ensures var t := DownloadContentSpec(url, quality, contentType, downloadDir, cwd, run);
      && (t.invocation.Some? <==> IsKnownRequest(quality, contentType))
      && (t.invocation.Some? ==>
            && t.invocation.value.urls == [url]
            && t.invocation.value.options.format == Qualities[contentType][quality]
            && t.invocation.value.options.outTemplate == JoinPath(Absolute(downloadDir, cwd), OutputTemplate)
            && t.invocation.value.options.progressHooks == [FileNameHook(Extensions[contentType])])
  {
  }

  /** A downloader that raises makes `download_content` return `None`. */
  lemma DownloaderFailureReturnsNone(
    url: string, quality: string, contentType: string, downloadDir: string,
    cwd: string, run: DownloaderRun)
    requires IsKnownRequest(quality, contentType)
    requires run.failure.Some?
    ensures DownloadContentSpec(url, quality, contentType, downloadDir, cwd, run).result == Returned(None)
  {
  }

  /** `None` is returned exactly for a known request whose downloader raised,
      or whose hook met a "finished" event that lacks a key. */
  lemma {:induction false} ReturnsNoneIff(
    url: string, quality: string, contentType: string, downloadDir: string,
    cwd: string, run: DownloaderRun)
    ensures DownloadContentSpec(url, quality, contentType, downloadDir, cwd, run).result == Returned(None)
        <==> IsKnownRequest(quality, contentType)
             && (run.failure.Some?
                 || exists j :: 0 <= j < |run.events| && IsFinished(run.events[j]) && !IsWellFormed(run.events[j]))
  {
    if IsKnownRequest(quality, contentType) {
      HookFailsIff(run.events, Extensions[contentType]);
    }
  }

  /** A clean run returns the title of the last "finished" event with the
      content type's fixed extension: mp4 for video, mp3 for audio. */
  lemma SuccessfulRunReturnsLastTitle(
    url: string, quality: string, contentType: string, downloadDir: string,
    cwd: string, run: DownloaderRun, k: nat)
    requires IsKnownRequest(quality, contentType)
    requires run.failure == None
    requires k < |run.events| && IsFinished(run.events[k]) && IsWellFormed(run.events[k])
    requires forall j :: 0 <= j <= k && IsFinished(run.events[j]) ==> IsWellFormed(run.events[j])
    requires forall j :: k < j < |run.events| ==> !IsFinished(run.events[j])
    ensures DownloadContentSpec(url, quality, contentType, downloadDir, cwd, run).result
         == Returned(Some(run.events[k].title.value + "." + (if contentType == "video" then "mp4" else "mp3")))
  {
    LastFinishedWins(run.events, k, Extensions[contentType]);
  }

  /** A clean run without any "finished" event returns the string "None". */
  lemma NoFinishedEventReturnsNoneString(
    url: string, quality: string, contentType: string, downloadDir: string,
    cwd: string, run: DownloaderRun)
    requires IsKnownRequest(quality, contentType)
    requires run.failure == None
    requires forall j :: 0 <= j < |run.events| ==> !IsFinished(run.events[j])
    ensures DownloadContentSpec(url, quality, contentType, downloadDir, cwd, run).result == Returned(Some("None"))
  {
    NoFinishedKeepsInitial(run.events, Extensions[contentType]);
  }

  // ---------------------------------------------------------------------------
  // The output template
  // ---------------------------------------------------------------------------

  const TitleField := "%(title)s"
  const ExtField := "%(ext)s"

  /** The file path the downloader derives from `template` for a download of
      `title` with extension `extension`: each `%(title)s` and `%(ext)s` field
      is replaced and every other character kept. */
  function RenderTemplate(template: string, title: string, extension: string): string
    decreases |template|
  {
    if |template| >= |TitleField| && template[..|TitleField|] == TitleField then
      title + RenderTemplate(template[|TitleField|..], title, extension)
    else if |template| >= |ExtField| && template[..|ExtField|] == ExtField then
      extension + RenderTemplate(template[|ExtField|..], title, extension)
    else if template == [] then
      []
    else
      [template[0]] + RenderTemplate(template[1..], title, extension)
  }

  predicate HasNoField(s: string)
  {
    forall i :: 0 <= i < |s| ==> s[i] != '%'
  }

  lemma {:induction false} RenderPlainPrefix(prefix: string, rest: string, title: string, extension: string)
    requires HasNoField(prefix)
    ensures RenderTemplate(prefix + rest, title, extension) == prefix + RenderTemplate(rest, title, extension)
    decreases |prefix|
  {
    if prefix != [] {
      var s := prefix + rest;
      assert s[0] == prefix[0] != '%';
      assert s[1..] == prefix[1..] + rest;
      assert RenderTemplate(s, title, extension) == [s[0]] + RenderTemplate(s[1..], title, extension);
      RenderPlainPrefix(prefix[1..], rest, title, extension);
      var r := RenderTemplate(rest, title, extension);
      assert [prefix[0]] + (prefix[1..] + r) == ([prefix[0]] + prefix[1..]) + r;
      assert [prefix[0]] + prefix[1..] == prefix;
    } else {
      assert prefix + rest == rest;
    }
  }

  /** The file-name template renders to the title, a dot and the extension. */
  lemma RenderFileTemplate(title: string, extension: string)
    ensures RenderTemplate(OutputTemplate, title, extension) == title + "." + extension
  {
    var tail := "." + ExtField;
    assert OutputTemplate == TitleField + tail;
    assert (TitleField + tail)[..|TitleField|] == TitleField;
    assert (TitleField + tail)[|TitleField|..] == tail;
    assert tail[1..] == ExtField;
    assert ExtField[..|ExtField|] == ExtField;
    assert ExtField[|ExtField|..] == [];
    assert RenderTemplate(tail, title, extension) == "." + extension;
  }

  /** For a download directory without `%`, the template renders to the
      directory joined with the title, a dot and the extension. */
  lemma RenderOutputTemplate(dir: string, title: string, extension: string)
    requires HasNoField(dir)
    ensures RenderTemplate(JoinPath(dir, OutputTemplate), title, extension)
         == JoinPath(dir, title + "." + extension)
  {
    RenderFileTemplate(title, extension);
    if dir == "" {
    } else if dir[|dir| - 1] == '/' {
      RenderPlainPrefix(dir, OutputTemplate, title, extension);
    } else {
      assert HasNoField(dir + "/");
      assert dir + "/" + OutputTemplate == (dir + "/") + OutputTemplate;
      RenderPlainPrefix(dir + "/", OutputTemplate, title, extension);
    }
  }
}

/** server/Services/YtDlpService.cs: the exit-code check of `GetVideoInfoAsync` and the
    whole of `ParseYtDlpOutput`, which turns the `--dump-json` document into a
    `VideoInfo`. The yt-dlp process is replaced by what it reports (`MetadataRun`), and
    `JsonDocument.Parse` by its outcome: the parsed document or the parser's message. */
module YtDlpService {
  import opened Wrappers
  import opened Json
  import opened Models
  import ProcessArguments

  /** How the metadata run ended: yt-dlp exited with a code after both of its streams were
      read to the end, or an exception was raised while starting it (no yt-dlp binary) or
      while reading its streams (lines 24-29). */
  datatype MetadataRun =
    | Exited(exitCode: int, stdout: Result<Json, string>, stderr: string)
    | Crashed(message: string)

  /** The exceptions `GetVideoInfoAsync` lets escape. */
  datatype ServiceError =
    | RunFailed(message: string)
    | ProcessFailed(stderr: string)
    | MalformedJson(parserMessage: string)
    | Access(cause: JsonError)

  /** `Exception.Message` of each error. */
  function Message(e: ServiceError): string {
    match e
    case RunFailed(m) => m
    case ProcessFailed(stderr) => "yt-dlp failed: " + stderr
    case MalformedJson(m) => m
    case Access(cause) => ErrorMessage(cause)
  }

  /** The argument line of the metadata run. */
  function DumpJsonArguments(url: string): string {
    ProcessArguments.Spaced("--dump-json", ProcessArguments.Quote(url))
  }

  /** For a url without quotes or backslashes, yt-dlp receives exactly two arguments. */
  lemma DumpJsonArgv(url: string)
    requires ProcessArguments.Plain(url)
    ensures ProcessArguments.Argv(DumpJsonArguments(url)) == ["--dump-json", url]
  {
    ProcessArguments.ArgvSpacedWord("--dump-json", ProcessArguments.Quote(url));
    ProcessArguments.ArgvQuote(url);
  }

  // ---------------------------------------------------------------------------
  // The top-level fields (lines 44-49)

  /** The value of the member `key` that the accessors find. */
  function Member(element: Json, key: string): (m: Json)
    requires element.JObject? && HasMember(element, key)
    ensures TryGetProperty(element, key) == Success(Some(m))
  {
    TryGetProperty(element, key).value.value
  }

  /** `GetString` succeeds on the member `key`, when there is one. */
  predicate Readable(element: Json, key: string)
    requires element.JObject?
  {
    HasMember(element, key) ==> GetString(Member(element, key)).Success?
  }

  /** `root.GetProperty(key).GetString()`: the member must exist and be a string or null. */
  function RequiredString(root: Json, key: string): (r: Result<Option<string>, JsonError>)
    ensures root.JObject? && !HasMember(root, key) ==> r == Failure(PropertyMissing(key))
    ensures r.Success? ==> root.JObject? && HasMember(root, key)
    ensures GetProperty(root, key).Success? ==> r == GetString(GetProperty(root, key).value)
    ensures GetProperty(root, key).Failure? ==> r == Failure(GetProperty(root, key).error)
  {
    var element :- GetProperty(root, key);
    GetString(element)
  }

  /** `TryGetProperty(key, out e) ? e.GetString() : absent`: a missing member gives `absent`. */
  function OptionalString(element: Json, key: string, absent: Option<string>): (r: Result<Option<string>, JsonError>)
    ensures element.JObject? && !HasMember(element, key) ==> r == Success(absent)
    ensures element.JObject? && HasMember(element, key) ==>
      r == GetString(TryGetProperty(element, key).value.value)
    ensures !element.JObject? ==> r.Failure?
  {
    var found :- TryGetProperty(element, key);
    if found.None? then Success(absent) else GetString(found.value)
  }

  /** The `VideoInfo` built by the object initialiser, before any option is added. */
  function Header(root: Json): (r: Result<VideoInfo, JsonError>)
    ensures r.Success? ==> root.JObject? && r.value.downloadOptions == []
    ensures r.Success? ==> TitleRule(root, r.value.title)
    ensures r.Success? ==> PlatformRule(root, r.value.platform)
    ensures root.JObject? && !HasMember(root, "title") ==> r == Failure(PropertyMissing("title"))
    ensures root.JObject? && HasMember(root, "title") && !HasMember(root, "thumbnail") &&
            GetString(GetProperty(root, "title").value).Success? ==>
              r == Failure(PropertyMissing("thumbnail"))
    ensures r.Success? ==>
      GetProperty(root, "thumbnail").Success? &&
      GetString(GetProperty(root, "thumbnail").value).Success? &&
      r.value.thumbnailUrl == GetString(GetProperty(root, "thumbnail").value).value.GetOr("")
    ensures r.Success? <==>
      RequiredString(root, "title").Success? && RequiredString(root, "thumbnail").Success? &&
      OptionalString(root, "extractor_key", None).Success?
    ensures !root.JObject? ==> r == Failure(WrongKind("Object", KindName(root)))
    ensures root.JObject? && HasMember(root, "title") && !Readable(root, "title") ==>
      r == Failure(WrongKind("String", KindName(Member(root, "title"))))
    ensures root.JObject? && Readable(root, "title") && HasMember(root, "title") &&
            HasMember(root, "thumbnail") && !Readable(root, "thumbnail") ==>
      r == Failure(WrongKind("String", KindName(Member(root, "thumbnail"))))
    ensures root.JObject? && Readable(root, "title") && HasMember(root, "title") &&
            Readable(root, "thumbnail") && HasMember(root, "thumbnail") &&
            !Readable(root, "extractor_key") ==>
      r == Failure(WrongKind("String", KindName(Member(root, "extractor_key"))))
  {
    var title :- RequiredString(root, "title");
    var thumbnail :- RequiredString(root, "thumbnail");
    var platform :- OptionalString(root, "extractor_key", None);
    Success(NewVideoInfo().(
      title := title.GetOr("Unknown Title"),
      thumbnailUrl := thumbnail.GetOr(""),
      platform := platform.GetOr("Unknown")))
  }

  /** The title is the `title` string, or "Unknown Title" when that member is JSON null. */
  ghost predicate TitleRule(root: Json, title: string)
    requires root.JObject?
  {
    var t := TryGetProperty(root, "title");
    t.Success? && t.value.Some? &&
    (t.value.value == JString(title) || (t.value.value == JNull && title == "Unknown Title"))
  }

  /** The platform is the `extractor_key` string, or "Unknown" when that member is
      missing or JSON null. */
  ghost predicate PlatformRule(root: Json, platform: string)
    requires root.JObject?
  {
    var e := TryGetProperty(root, "extractor_key");
    e.Success? &&
    (if e.value.Some? && e.value.value != JNull then e.value.value == JString(platform)
     else platform == "Unknown")
  }

  // ---------------------------------------------------------------------------
  // One row of `formats` (lines 58-83)

  /** Lines 58-61: the four reads, in source order; each throws if the row is not an
      object or the member is neither a string nor null. */
  datatype FormatFields = FormatFields(ext: Option<string>, url: Option<string>, resolution: Option<string>)

  function ReadFormat(format: Json): (r: Result<FormatFields, JsonError>)
    ensures !format.JObject? ==> r == Failure(WrongKind("Object", KindName(format)))
  {
    var ext :- OptionalString(format, "ext", Some(""));
    var url :- OptionalString(format, "url", Some(""));
    var formatId :- OptionalString(format, "format_id", Some(""));
    var resolution :- OptionalString(format, "resolution", Some("Unknown"));
    Success(FormatFields(ext, url, resolution))
  }

  /** What the four reads of a row give: a row reads exactly when it is an object whose
      four members, where present, are strings or null; a missing `ext` or `url` is "",
      a missing `resolution` is "Unknown"; otherwise the first member in source order that
      is not a string or null throws. */
  lemma ReadFormatFields(format: Json)
    ensures ReadFormat(format).Success? <==>
      format.JObject? && Readable(format, "ext") && Readable(format, "url") &&
      Readable(format, "format_id") && Readable(format, "resolution")
    ensures ReadFormat(format).Success? ==>
      format.JObject? &&
      ReadFormat(format).value.ext ==
        (if HasMember(format, "ext") then GetString(Member(format, "ext")).value else Some(""))
    ensures ReadFormat(format).Success? ==>
      format.JObject? &&
      ReadFormat(format).value.url ==
        (if HasMember(format, "url") then GetString(Member(format, "url")).value else Some(""))
    ensures ReadFormat(format).Success? ==>
      format.JObject? &&
      ReadFormat(format).value.resolution ==
        (if HasMember(format, "resolution") then GetString(Member(format, "resolution")).value
         else Some("Unknown"))
    ensures format.JObject? && !Readable(format, "ext") ==>
      ReadFormat(format) == Failure(WrongKind("String", KindName(Member(format, "ext"))))
    ensures format.JObject? && Readable(format, "ext") && !Readable(format, "url") ==>
      ReadFormat(format) == Failure(WrongKind("String", KindName(Member(format, "url"))))
    ensures format.JObject? && Readable(format, "ext") && Readable(format, "url") &&
            !Readable(format, "format_id") ==>
      ReadFormat(format) == Failure(WrongKind("String", KindName(Member(format, "format_id"))))
    ensures format.JObject? && Readable(format, "ext") && Readable(format, "url") &&
            Readable(format, "format_id") && !Readable(format, "resolution") ==>
      ReadFormat(format) == Failure(WrongKind("String", KindName(Member(format, "resolution"))))
  {
  }

  predicate IsAudioExt(ext: Option<string>) {
    ext == Some("m4a") || ext == Some("mp3")
  }

  /** Lines 63-83: the option a row adds, if any. */
  function Admit(f: FormatFields): (r: Option<DownloadOption>)
    ensures r.Some? ==> r.value.url != "" && f.url == Some(r.value.url) && HasKnownKind(r.value)
    ensures r.Some? && r.value.kind == Video ==> f.ext == Some("mp4") && r.value.quality == f.resolution
    ensures r.Some? && r.value.kind == Audio ==> IsAudioExt(f.ext) && r.value.quality == Some("Audio")
    ensures r.None? <==> f.url == None || f.url == Some("") || (f.ext != Some("mp4") && !IsAudioExt(f.ext))
  {
    if f.url == None || f.url == Some("") then None
    else if f.ext == Some("mp4") then
      Some(NewDownloadOption().(quality := f.resolution, url := f.url.value, kind := Video))
    else if IsAudioExt(f.ext) then
      Some(NewDownloadOption().(quality := Some("Audio"), url := f.url.value, kind := Audio))
    else None
  }

  /** What one row adds: the exception of a read that throws, otherwise what `Admit` decides. */
  function FormatOption(format: Json): (r: Result<Option<DownloadOption>, JsonError>)
    ensures !format.JObject? ==> r == Failure(WrongKind("Object", KindName(format)))
  {
    var fields :- ReadFormat(format);
    Success(Admit(fields))
  }

  /** What a row that reads adds, in terms of its members: an option's url is the row's
      `url` string; a video option comes from an "mp4" row and carries the `resolution`
      string, or "Unknown" when the row has none; an audio option comes from an "m4a" or
      "mp3" row. */
  lemma RowOption(format: Json)
    requires FormatOption(format).Success? && FormatOption(format).value.Some?
    ensures var o := FormatOption(format).value.value;
      format.JObject? && HasMember(format, "url") && Member(format, "url") == JString(o.url) &&
      o.url != "" && HasMember(format, "ext")
    ensures var o := FormatOption(format).value.value;
      o.kind == Video ==>
        format.JObject? && HasMember(format, "ext") && Member(format, "ext") == JString("mp4") &&
        o.quality == (if HasMember(format, "resolution")
          then GetString(Member(format, "resolution")).value else Some("Unknown"))
    ensures var o := FormatOption(format).value.value;
      o.kind == Audio ==>
        format.JObject? && HasMember(format, "ext") &&
        Member(format, "ext") in {JString("m4a"), JString("mp3")} && o.quality == Some("Audio")
  {
    ReadFormatFields(format);
  }

  /** A playable "mp4" row without a `resolution` member gives a video option whose
      quality is "Unknown". */
  lemma MissingResolution(format: Json, u: string)
    requires format.JObject? && !HasMember(format, "resolution")
    requires HasMember(format, "ext") && Member(format, "ext") == JString("mp4")
    requires HasMember(format, "url") && Member(format, "url") == JString(u) && u != ""
    requires Readable(format, "format_id")
    ensures FormatOption(format) == Success(Some(DownloadOption(Some("Unknown"), u, Video)))
  {
    ReadFormatFields(format);
  }

  function AsSeq(o: Option<DownloadOption>): seq<DownloadOption> {
    if o.Some? then [o.value] else []
  }

  /** The `foreach` of lines 54-84 as a specification: rows are processed in order, the
      first row that throws ends the parse, and admitted options are appended. */
  function AdmittedOptions(formats: seq<Json>): Result<seq<DownloadOption>, JsonError>
    decreases |formats|
  {
    if formats == [] then Success([])
    else
      var earlier :- AdmittedOptions(formats[..|formats| - 1]);
      var last :- FormatOption(formats[|formats| - 1]);
      Success(earlier + AsSeq(last))
  }

  /** Lines 52-85: no `formats` member means no options; a `formats` that is not an array throws. */
  function FormatsOptions(root: Json): Result<seq<DownloadOption>, JsonError> {
    var formats :- TryGetProperty(root, "formats");
    if formats.None? then Success([])
    else
      var items :- EnumerateArray(formats.value);
      AdmittedOptions(items)
  }

  /** Lines 88-96: the fallback option, added only when the loop admitted nothing and the
      document has a top-level `url`. */
  function Fallback(root: Json, admitted: seq<DownloadOption>): Result<seq<DownloadOption>, JsonError> {
    if admitted != [] then Success([])
    else
      var direct :- TryGetProperty(root, "url");
      if direct.None? then Success([])
      else
        var u :- GetString(direct.value);
        Success([NewDownloadOption().(quality := Some("Default"), url := u.GetOr(""), kind := Video)])
  }

  /** What `ParseYtDlpOutput` returns for a parsed document, or the exception it throws. */
  function Normalize(root: Json): Result<VideoInfo, JsonError> {
    var info :- Header(root);
    var admitted :- FormatsOptions(root);
    var fallback :- Fallback(root, admitted);
    Success(info.(downloadOptions := admitted + fallback))
  }

  function ParseOutcome(document: Result<Json, string>): Result<VideoInfo, ServiceError> {
    match document
    case Failure(m) => Failure(MalformedJson(m))
    case Success(root) =>
      match Normalize(root)
      case Failure(e) => Failure(Access(e))
      case Success(v) => Success(v)
  }

  /** What `GetVideoInfoAsync` returns, or the exception it throws (lines 24-36). */
  function FetchOutcome(run: MetadataRun): Result<VideoInfo, ServiceError> {
    match run
    case Crashed(m) => Failure(RunFailed(m))
    case Exited(exitCode, stdout, stderr) =>
      if exitCode != 0 then Failure(ProcessFailed(stderr)) else ParseOutcome(stdout)
  }

  // ---------------------------------------------------------------------------
  // The code

  /** Lines 54-84: the `foreach` over the rows of `formats`, appending to the option list
      of a `VideoInfo` that has none yet. */
  method AppendFormats(rows: seq<Json>, info: VideoInfo) returns (r: Result<VideoInfo, JsonError>)
    requires info.downloadOptions == []
    ensures AdmittedOptions(rows).Success? ==>
      r == Success(info.(downloadOptions := AdmittedOptions(rows).value))
    ensures AdmittedOptions(rows).Failure? ==> r == Failure(AdmittedOptions(rows).error)
  {
    var videoInfo := info;
    var i := 0;
    assert rows[..0] == [];
    while i < |rows|
      invariant 0 <= i <= |rows|
      invariant AdmittedOptions(rows[..i]) == Success(videoInfo.downloadOptions)
      invariant videoInfo == info.(downloadOptions := videoInfo.downloadOptions)
    {
      var format := rows[i];
      ghost var before := videoInfo.downloadOptions;
      var read := ReadFormat(format);
      if read.Failure? {
        AdmittedStepFailure(rows, i);
        AdmittedPrefixFailure(rows, i + 1);
        return Failure(read.error);
      }
      var fields := read.value;
      if fields.url != None && fields.url != Some("") {
        if fields.ext == Some("mp4") {
          var option := NewDownloadOption().(quality := fields.resolution, url := fields.url.value, kind := Video);
          videoInfo := videoInfo.(downloadOptions := videoInfo.downloadOptions + [option]);
        } else if fields.ext == Some("m4a") || fields.ext == Some("mp3") {
          var option := NewDownloadOption().(quality := Some("Audio"), url := fields.url.value, kind := Audio);
          videoInfo := videoInfo.(downloadOptions := videoInfo.downloadOptions + [option]);
        }
      }
      assert videoInfo.downloadOptions == before + AsSeq(Admit(fields));
      assert FormatOption(rows[i]) == Success(Admit(fields));
      AdmittedStep(rows, i);
      assert AdmittedOptions(rows[..i + 1]) == Success(videoInfo.downloadOptions);
      i := i + 1;
    }
    assert rows[..|rows|] == rows;
    return Success(videoInfo);
  }

  /** Lines 88-96: the fallback option, added when the list is still empty and the document
      has a top-level `url`. */
  method AddFallback(root: Json, info: VideoInfo) returns (r: Result<VideoInfo, JsonError>)
    requires root.JObject?
    ensures Fallback(root, info.downloadOptions).Success? ==>
      r == Success(info.(downloadOptions := info.downloadOptions + Fallback(root, info.downloadOptions).value))
    ensures Fallback(root, info.downloadOptions).Failure? ==> r == Failure(Fallback(root, info.downloadOptions).error)
  {
    if |info.downloadOptions| == 0 {
      var directUrl := TryGetProperty(root, "url");
      if directUrl.value.Some? {
        var u := GetString(directUrl.value.value);
        if u.Failure? {
          return Failure(u.error);
        }
        var option := NewDownloadOption().(quality := Some("Default"), url := u.value.GetOr(""), kind := Video);
        return Success(info.(downloadOptions := info.downloadOptions + [option]));
      }
    }
    assert info.downloadOptions + [] == info.downloadOptions;
    return Success(info);
  }

  /** `ParseYtDlpOutput`: build the header, then append the admitted rows, then the fallback. */
  method ParseYtDlpOutput(document: Result<Json, string>) returns (r: Result<VideoInfo, ServiceError>)
    ensures r == ParseOutcome(document)
  {
    if document.Failure? {
      return Failure(MalformedJson(document.error));
    }
    var root := document.value;
    var header := Header(root);
    if header.Failure? {
      return Failure(Access(header.error));
    }
    var videoInfo := header.value;
    var formats := TryGetProperty(root, "formats");
    if formats.value.Some? {
      var items := EnumerateArray(formats.value.value);
      if items.Failure? {
        return Failure(Access(items.error));
      }
      var appended := AppendFormats(items.value, videoInfo);
      if appended.Failure? {
        return Failure(Access(appended.error));
      }
      videoInfo := appended.value;
    }
    assert videoInfo == header.value.(downloadOptions := FormatsOptions(root).value);
    var completed := AddFallback(root, videoInfo);
    if completed.Failure? {
      return Failure(Access(completed.error));
    }
    return Success(completed.value);
  }

  /** `GetVideoInfoAsync`: the command line it launches yt-dlp with, and its outcome. */
  method GetVideoInfo(url: string, run: MetadataRun) returns (arguments: string, r: Result<VideoInfo, ServiceError>)
    ensures arguments == DumpJsonArguments(url)
    ensures run.Crashed? ==> r == Failure(RunFailed(run.message)) && Message(r.error) == run.message
    ensures run.Exited? && run.exitCode != 0 ==> r == Failure(ProcessFailed(run.stderr))
    ensures run.Exited? && run.exitCode != 0 ==> Message(r.error) == "yt-dlp failed: " + run.stderr
    ensures run.Exited? && run.exitCode == 0 ==> r == ParseOutcome(run.stdout)
  {
    arguments := ProcessArguments.Spaced("--dump-json", ProcessArguments.Quote(url));
    if run.Crashed? {
      return arguments, Failure(RunFailed(run.message));
    }
    if run.exitCode != 0 {
      return arguments, Failure(ProcessFailed(run.stderr));
    }
    r := ParseYtDlpOutput(run.stdout);
  }

  // ---------------------------------------------------------------------------
  // Properties of the specification

  /** The loop's step: one more row appends what that row admits. */
  lemma AdmittedStep(rows: seq<Json>, i: nat)
    requires i < |rows| && AdmittedOptions(rows[..i]).Success? && FormatOption(rows[i]).Success?
    ensures AdmittedOptions(rows[..i + 1]) ==
      Success(AdmittedOptions(rows[..i]).value + AsSeq(FormatOption(rows[i]).value))
  {
    assert rows[..i + 1][..i] == rows[..i] && rows[..i + 1][i] == rows[i];
  }

  /** The loop's step when the row throws. */
  lemma AdmittedStepFailure(rows: seq<Json>, i: nat)
    requires i < |rows| && AdmittedOptions(rows[..i]).Success? && FormatOption(rows[i]).Failure?
    ensures AdmittedOptions(rows[..i + 1]) == Failure(FormatOption(rows[i]).error)
  {
    assert rows[..i + 1][..i] == rows[..i] && rows[..i + 1][i] == rows[i];
  }

  /** Once a prefix of the rows throws, the whole loop throws the same exception. */
  lemma {:induction false} AdmittedPrefixFailure(rows: seq<Json>, i: nat)
    requires i <= |rows| && AdmittedOptions(rows[..i]).Failure?
    ensures AdmittedOptions(rows) == AdmittedOptions(rows[..i])
    decreases |rows| - i
  {
    if i < |rows| {
      assert rows[..i + 1][..i] == rows[..i];
      AdmittedPrefixFailure(rows, i + 1);
    } else {
      assert rows[..i] == rows;
    }
  }

  /** Every option the loop admits has a non-empty `Url` and a known `Type`, and the loop
      adds at most one option per row. */
  lemma {:induction false} AdmittedOptionsShape(rows: seq<Json>)
    requires AdmittedOptions(rows).Success?
    ensures |AdmittedOptions(rows).value| <= |rows|
    ensures forall o :: o in AdmittedOptions(rows).value ==> o.url != "" && HasKnownKind(o)
    decreases |rows|
  {
    if rows != [] {
      var earlier := rows[..|rows| - 1];
      AdmittedOptionsShape(earlier);
      var last := FormatOption(rows[|rows| - 1]);
      assert AdmittedOptions(rows).value == AdmittedOptions(earlier).value + AsSeq(last.value);
    }
  }

  /** Order preservation: the options are, in order, exactly what the admitting rows give;
      `idx` lists those rows in increasing order, and every other row admits nothing. */
  lemma {:induction false} AdmittedProvenance(rows: seq<Json>) returns (idx: seq<nat>)
    requires AdmittedOptions(rows).Success?
    ensures |idx| == |AdmittedOptions(rows).value|
    ensures forall k :: 0 <= k < |idx| ==>
      idx[k] < |rows| && FormatOption(rows[idx[k]]) == Success(Some(AdmittedOptions(rows).value[k]))
    ensures forall k, l :: 0 <= k < l < |idx| ==> idx[k] < idx[l]
    ensures forall j :: 0 <= j < |rows| ==>
      FormatOption(rows[j]).Success? && (j !in idx ==> FormatOption(rows[j]).value.None?)
    decreases |rows|
  {
    if rows == [] {
      return [];
    }
    var n := |rows| - 1;
    var earlier := rows[..n];
    var prev := AdmittedProvenance(earlier);
    var last := FormatOption(rows[n]);
    var before := AdmittedOptions(earlier).value;
    var opts := AdmittedOptions(rows).value;
    assert last.Success? && opts == before + AsSeq(last.value);
    idx := if last.value.Some? then prev + [n] else prev;
    forall k | 0 <= k < |idx|
      ensures idx[k] < |rows| && FormatOption(rows[idx[k]]) == Success(Some(opts[k]))
    {
      if k < |prev| {
        assert idx[k] == prev[k] && earlier[prev[k]] == rows[prev[k]] && opts[k] == before[k];
      } else {
        assert idx[k] == n;
      }
    }
    forall j | 0 <= j < |rows|
      ensures FormatOption(rows[j]).Success? && (j !in idx ==> FormatOption(rows[j]).value.None?)
    {
      if j < n {
        assert earlier[j] == rows[j];
        assert j !in idx ==> j !in prev;
      } else {
        assert j == n && (last.value.Some? ==> j in idx);
      }
    }
  }

  /** The loop throws exactly when some row throws, and then it throws what the first
      such row throws. */
  lemma {:induction false} AdmittedFailure(rows: seq<Json>) returns (k: nat)
    requires AdmittedOptions(rows).Failure?
    ensures k < |rows| && FormatOption(rows[k]) == Failure(AdmittedOptions(rows).error)
    ensures forall j :: 0 <= j < k ==> FormatOption(rows[j]).Success?
    decreases |rows|
  {
    var n := |rows| - 1;
    var earlier := rows[..n];
    assert forall j :: 0 <= j < n ==> earlier[j] == rows[j];
    if AdmittedOptions(earlier).Failure? {
      k := AdmittedFailure(earlier);
    } else {
      k := n;
      var _ := AdmittedProvenance(earlier);
    }
  }

  /** The fallback rule: the options are the admitted ones when there are any; otherwise a
      single "Default" video option carrying the top-level `url` (or "" when that is null)
      if the document has one, and none if it does not. */
  lemma NormalizeFallback(root: Json)
    requires Normalize(root).Success?
    ensures root.JObject? && FormatsOptions(root).Success?
    ensures FormatsOptions(root).value != [] ==>
      Normalize(root).value.downloadOptions == FormatsOptions(root).value
    ensures FormatsOptions(root).value == [] && !HasMember(root, "url") ==>
      Normalize(root).value.downloadOptions == []
    ensures FormatsOptions(root).value == [] && HasMember(root, "url") ==>
      var direct := TryGetProperty(root, "url").value.value;
      GetString(direct).Success? &&
      Normalize(root).value.downloadOptions ==
        [DownloadOption(Some("Default"), GetString(direct).value.GetOr(""), Video)]
  {
  }

  /** In a parsed `VideoInfo` every option is "video" or "audio", at most one option comes
      from outside `formats`, and an option with an empty `Url` can only be the fallback,
      as the only option. */
  lemma NormalizedOptions(root: Json)
    requires Normalize(root).Success?
    ensures forall o :: o in Normalize(root).value.downloadOptions ==> HasKnownKind(o)
    ensures forall k ::
      (0 <= k < |Normalize(root).value.downloadOptions| && Normalize(root).value.downloadOptions[k].url == "") ==>
        Normalize(root).value.downloadOptions == [Normalize(root).value.downloadOptions[k]] &&
        Normalize(root).value.downloadOptions[k].quality == Some("Default")
    ensures FormatsOptions(root).value != [] ==>
      forall o :: o in Normalize(root).value.downloadOptions ==> o.url != ""
  {
    NormalizeFallback(root);
    var formats := TryGetProperty(root, "formats").value;
    if formats.Some? {
      AdmittedOptionsShape(EnumerateArray(formats.value).value);
    }
  }

  /** The loop runs to the end exactly when every row reads. */
  lemma AdmittedOptionsSucceeds(rows: seq<Json>)
    ensures AdmittedOptions(rows).Success? <==> forall j :: 0 <= j < |rows| ==> FormatOption(rows[j]).Success?
  {
    if AdmittedOptions(rows).Success? {
      var _ := AdmittedProvenance(rows);
    } else {
      var _ := AdmittedFailure(rows);
    }
  }

  /** Lines 52-54: without a `formats` member there are no options, a `formats` that is
      not an array throws, and an array gives what its rows admit. */
  lemma FormatsOptionsCases(root: Json)
    ensures !root.JObject? ==> FormatsOptions(root) == Failure(WrongKind("Object", KindName(root)))
    ensures root.JObject? && !HasMember(root, "formats") ==> FormatsOptions(root) == Success([])
    ensures root.JObject? && HasMember(root, "formats") && !Member(root, "formats").JArray? ==>
      FormatsOptions(root) == Failure(WrongKind("Array", KindName(Member(root, "formats"))))
    ensures root.JObject? && HasMember(root, "formats") && Member(root, "formats").JArray? ==>
      FormatsOptions(root) == AdmittedOptions(Member(root, "formats").items)
  {
  }

  /** Lines 88-96: nothing is added after admitted options or without a top-level `url`;
      a `url` that is not a string or null throws; otherwise one "Default" video option
      carries it, with "" for null. */
  lemma FallbackCases(root: Json, admitted: seq<DownloadOption>)
    ensures admitted != [] ==> Fallback(root, admitted) == Success([])
    ensures admitted == [] && !root.JObject? ==>
      Fallback(root, admitted) == Failure(WrongKind("Object", KindName(root)))
    ensures admitted == [] && root.JObject? && !HasMember(root, "url") ==> Fallback(root, admitted) == Success([])
    ensures admitted == [] && root.JObject? && HasMember(root, "url") && !Readable(root, "url") ==>
      Fallback(root, admitted) == Failure(WrongKind("String", KindName(Member(root, "url"))))
    ensures admitted == [] && root.JObject? && HasMember(root, "url") && Readable(root, "url") ==>
      Fallback(root, admitted) ==
        Success([DownloadOption(Some("Default"), GetString(Member(root, "url")).value.GetOr(""), Video)])
  {
  }

  /** The order of the exceptions: the header's first, then the rows', then the fallback's.
      Without one, the header's fields come with the admitted options and then the fallback. */
  lemma NormalizeCases(root: Json)
    ensures Header(root).Failure? ==> Normalize(root) == Failure(Header(root).error)
    ensures Header(root).Success? && FormatsOptions(root).Failure? ==>
      Normalize(root) == Failure(FormatsOptions(root).error)
    ensures Header(root).Success? && FormatsOptions(root).Success? &&
            Fallback(root, FormatsOptions(root).value).Failure? ==>
      Normalize(root) == Failure(Fallback(root, FormatsOptions(root).value).error)
    ensures Normalize(root).Success? ==>
      var h := Header(root).value;
      var v := Normalize(root).value;
      && v.title == h.title && v.thumbnailUrl == h.thumbnailUrl && v.platform == h.platform
      && v.downloadOptions == FormatsOptions(root).value + Fallback(root, FormatsOptions(root).value).value
  {
  }

  /** Lines 39-42 and 97-98: a document the parser rejects comes back with the parser's
      message; a header, row or fallback exception is passed on as it is; a parse never
      reports a failed process. */
  lemma ParseOutcomeCases(document: Result<Json, string>)
    ensures document.Failure? ==>
      ParseOutcome(document) == Failure(MalformedJson(document.error)) &&
      Message(ParseOutcome(document).error) == document.error
    ensures document.Success? && Normalize(document.value).Failure? ==>
      ParseOutcome(document) == Failure(Access(Normalize(document.value).error)) &&
      Message(ParseOutcome(document).error) == ErrorMessage(Normalize(document.value).error)
    ensures document.Success? && Normalize(document.value).Success? ==>
      ParseOutcome(document) == Success(Normalize(document.value).value)
    ensures ParseOutcome(document).Failure? ==>
      !ParseOutcome(document).error.ProcessFailed? && !ParseOutcome(document).error.RunFailed?
  {
  }

  /** Lines 24-36: an exception while starting or reading the process escapes with its own
      message; a non-zero exit code is reported as a failed process whatever yt-dlp printed;
      exit code 0 parses the output. Each error comes from its own case only. */
  lemma FetchOutcomeCases(run: MetadataRun, other: Result<Json, string>)
    ensures run.Crashed? ==> FetchOutcome(run) == Failure(RunFailed(run.message))
    ensures run.Exited? && run.exitCode != 0 ==> FetchOutcome(run) == Failure(ProcessFailed(run.stderr))
    ensures run.Exited? && run.exitCode != 0 ==> FetchOutcome(run) == FetchOutcome(run.(stdout := other))
    ensures run.Exited? && run.exitCode == 0 ==> FetchOutcome(run) == ParseOutcome(run.stdout)
    ensures FetchOutcome(run).Failure? && FetchOutcome(run).error.RunFailed? <==> run.Crashed?
    ensures FetchOutcome(run).Failure? && FetchOutcome(run).error.ProcessFailed? <==>
      run.Exited? && run.exitCode != 0
  {
    if run.Exited? {
      ParseOutcomeCases(run.stdout);
    }
  }

  /** A fallback option can have an empty `Url`: the top-level `url` is JSON null. */
  lemma FallbackWithNullUrl()
    ensures Normalize(JObject([("title", JString("t")), ("thumbnail", JNull), ("url", JNull)])) ==
      Success(VideoInfo("t", "", "Unknown", [DownloadOption(Some("Default"), "", Video)]))
  {
    var m := [("title", JString("t")), ("thumbnail", JNull), ("url", JNull)];
    assert m[..2] == [m[0], m[1]] && m[..2][..1] == [m[0]] && [m[0]][..0] == [];
    assert LastIndexOf(m, "title") == Some(0);
    assert LastIndexOf(m, "thumbnail") == Some(1);
    assert LastIndexOf(m, "extractor_key") == None;
    assert LastIndexOf(m, "formats") == None;
    assert LastIndexOf(m, "url") == Some(2);
    var root := JObject(m);
    assert Header(root) == Success(VideoInfo("t", "", "Unknown", []));
    assert FormatsOptions(root) == Success([]);
    assert Fallback(root, []) == Success([DownloadOption(Some("Default"), "", Video)]);
    assert [] + [DownloadOption(Some("Default"), "", Video)] == [DownloadOption(Some("Default"), "", Video)];
  }

  // A worked document: an mp4 row, an m4a row and a webp row.
  const VideoRow: Json := JObject([("ext", JString("mp4")), ("url", JString("https://x/video.mp4")), ("resolution", JString("1080x1920"))])
  const AudioRow: Json := JObject([("ext", JString("m4a")), ("url", JString("https://x/audio.m4a"))])
  const ThumbnailRow: Json := JObject([("ext", JString("webp")), ("url", JString("https://x/thumb.webp"))])
  const CatVideoDocument: Json := JObject([
    ("title", JString("Cat video")), ("thumbnail", JString("t.jpg")), ("extractor_key", JString("TikTok")),
    ("formats", JArray([VideoRow, AudioRow, ThumbnailRow]))])

  /** A row with string `ext`, `url` and `resolution` members reads them as they are. */
  lemma ThreeMemberRow(e: string, u: string, res: string)
    ensures FormatOption(JObject([("ext", JString(e)), ("url", JString(u)), ("resolution", JString(res))]))
      == Success(Admit(FormatFields(Some(e), Some(u), Some(res))))
  {
    var m := [("ext", JString(e)), ("url", JString(u)), ("resolution", JString(res))];
    assert m[..2] == [m[0], m[1]] && [m[0], m[1]][..1] == [m[0]] && [m[0]][..0] == [];
    assert LastIndexOf(m, "ext") == Some(0) && LastIndexOf(m, "url") == Some(1);
    assert LastIndexOf(m, "format_id") == None && LastIndexOf(m, "resolution") == Some(2);
  }

  /** A row with string `ext` and `url` members only: the resolution is "Unknown". */
  lemma TwoMemberRow(e: string, u: string)
    ensures FormatOption(JObject([("ext", JString(e)), ("url", JString(u))]))
      == Success(Admit(FormatFields(Some(e), Some(u), Some("Unknown"))))
  {
    var m := [("ext", JString(e)), ("url", JString(u))];
    assert m[..1] == [m[0]] && [m[0]][..0] == [];
    assert LastIndexOf(m, "ext") == Some(0) && LastIndexOf(m, "url") == Some(1);
    assert LastIndexOf(m, "format_id") == None && LastIndexOf(m, "resolution") == None;
  }

  lemma VideoRowAdmitted()
    ensures FormatOption(VideoRow) == Success(Some(DownloadOption(Some("1080x1920"), "https://x/video.mp4", Video)))
  {
    ThreeMemberRow("mp4", "https://x/video.mp4", "1080x1920");
  }

  lemma AudioRowAdmitted()
    ensures FormatOption(AudioRow) == Success(Some(DownloadOption(Some("Audio"), "https://x/audio.m4a", Audio)))
  {
    TwoMemberRow("m4a", "https://x/audio.m4a");
  }

  lemma ThumbnailRowSkipped()
    ensures FormatOption(ThumbnailRow) == Success(None)
  {
    TwoMemberRow("webp", "https://x/thumb.webp");
  }

  /** Three rows that all read are processed in order. */
  lemma AdmittedThree(a: Json, b: Json, c: Json)
    requires FormatOption(a).Success? && FormatOption(b).Success? && FormatOption(c).Success?
    ensures AdmittedOptions([a, b, c]) ==
      Success(AsSeq(FormatOption(a).value) + AsSeq(FormatOption(b).value) + AsSeq(FormatOption(c).value))
  {
    var rows := [a, b, c];
    assert rows[..2] == [a, b] && rows[2] == c && [a, b][..1] == [a] && [a, b][1] == b && [a][..0] == [];
    assert AdmittedOptions([a]) == Success([] + AsSeq(FormatOption(a).value));
    assert [] + AsSeq(FormatOption(a).value) == AsSeq(FormatOption(a).value);
    assert AdmittedOptions([a, b]) == Success(AsSeq(FormatOption(a).value) + AsSeq(FormatOption(b).value));
  }

  /** The four members of such a document are found where they are. */
  lemma FourMembers(title: string, thumbnail: string, key: string, rows: seq<Json>)
    ensures var m := [("title", JString(title)), ("thumbnail", JString(thumbnail)),
        ("extractor_key", JString(key)), ("formats", JArray(rows))];
      && LastIndexOf(m, "title") == Some(0) && LastIndexOf(m, "thumbnail") == Some(1)
      && LastIndexOf(m, "extractor_key") == Some(2) && LastIndexOf(m, "formats") == Some(3)
  {
    var m := [("title", JString(title)), ("thumbnail", JString(thumbnail)),
      ("extractor_key", JString(key)), ("formats", JArray(rows))];
    assert m[..3] == [m[0], m[1], m[2]] && m[..3][..2] == [m[0], m[1]] && [m[0], m[1]][..1] == [m[0]];
    assert [m[0]][..0] == [];
  }

  /** A document with a string title, thumbnail and extractor key and a `formats` array that
      admits something: the header is copied and the options are the admitted ones. */
  lemma FullDocument(title: string, thumbnail: string, key: string, rows: seq<Json>)
    requires AdmittedOptions(rows).Success? && AdmittedOptions(rows).value != []
    ensures Normalize(JObject([("title", JString(title)), ("thumbnail", JString(thumbnail)),
        ("extractor_key", JString(key)), ("formats", JArray(rows))])) ==
      Success(VideoInfo(title, thumbnail, key, AdmittedOptions(rows).value))
  {
    var root := JObject([("title", JString(title)), ("thumbnail", JString(thumbnail)),
      ("extractor_key", JString(key)), ("formats", JArray(rows))]);
    FourMembers(title, thumbnail, key, rows);
    assert Header(root) == Success(VideoInfo(title, thumbnail, key, []));
    assert FormatsOptions(root) == AdmittedOptions(rows);
    assert AdmittedOptions(rows).value + [] == AdmittedOptions(rows).value;
  }

  /** The worked document: the mp4 and m4a rows are admitted in order, the webp row is not,
      and no fallback is added. */
  lemma CatVideoExample()
    ensures Normalize(CatVideoDocument) ==
      Success(VideoInfo("Cat video", "t.jpg", "TikTok", [
        DownloadOption(Some("1080x1920"), "https://x/video.mp4", Video),
        DownloadOption(Some("Audio"), "https://x/audio.m4a", Audio)]))
  {
    VideoRowAdmitted();
    AudioRowAdmitted();
    ThumbnailRowSkipped();
    var video := DownloadOption(Some("1080x1920"), "https://x/video.mp4", Video);
    var audio := DownloadOption(Some("Audio"), "https://x/audio.m4a", Audio);
    AdmittedThree(VideoRow, AudioRow, ThumbnailRow);
    assert AsSeq(Some(video)) + AsSeq(Some(audio)) + AsSeq(None) == [video, audio];
    assert AdmittedOptions([VideoRow, AudioRow, ThumbnailRow]) == Success([video, audio]);
    FullDocument("Cat video", "t.jpg", "TikTok", [VideoRow, AudioRow, ThumbnailRow]);
  }
}

/** server/Controllers/DownloadController.cs: the `Get` action. The yt-dlp child process,
    the temporary directory, the GUID and the file system calls are inputs (`Host`); the
    files the action can see are a map from path to contents. */
module DownloadController {
  import opened Wrappers
  import opened DotNetText
  import opened ProcessArguments

  // ---------------------------------------------------------------------------
  // The format selector (lines 45-47)

  const BestSelector: string := "best[ext=mp4]/best"

  /** The value `quality` takes when the query string has none (line 31). */
  const DefaultQuality: string := "best"

  /** The selector that caps the video height at `limit`. */
  function HeightSelector(limit: string): (r: string)
    ensures |r| == |limit| + 57
    ensures r[..18] == "bestvideo[height<=" && r[18..18 + |limit|] == limit
  {
    "bestvideo[height<=" + limit + "][ext=mp4]+bestaudio/best[ext=mp4]/best"
  }

  /** Whether the quality asks for the best single file: null, blank, or "best" in any case. */
  predicate WantsBest(quality: Option<string>) {
    (quality.Some? && ToLower(quality.value) == "best") || IsNullOrWhiteSpace(quality)
  }

  /** The `formatSelection` expression. */
  function FormatSelection(quality: Option<string>): (r: string)
    ensures r == BestSelector <==> WantsBest(quality)
    ensures !WantsBest(quality) ==> quality.Some? && r == HeightSelector(RemoveAll(quality.value, 'p'))
  {
    if WantsBest(quality) then BestSelector
    else
      var r := HeightSelector(RemoveAll(quality.value, 'p'));
      assert r[4] == 'v' && BestSelector[4] == '[';
      r
  }

  /** Different height limits give different selectors. */
  lemma HeightSelectorInjective(l1: string, l2: string)
    requires HeightSelector(l1) == HeightSelector(l2)
    ensures l1 == l2
  {
    var h := HeightSelector(l1);
    assert |l1| == |l2|;
    assert l1 == h[18..18 + |l1|] == l2;
  }

  /** The limit is the quality with every lower-case 'p' removed; nothing else changes. */
  lemma HeightLimitOfQuality(quality: string)
    requires !WantsBest(Some(quality))
    ensures FormatSelection(Some(quality)) == HeightSelector(RemoveAll(quality, 'p'))
    ensures 'p' !in RemoveAll(quality, 'p')
    ensures 'p' !in quality ==> FormatSelection(Some(quality)) == HeightSelector(quality)
  {
  }

  /** The default value, and "best" in capitals, ask for the best single file. */
  lemma BestSpellings()
    ensures FormatSelection(Some(DefaultQuality)) == BestSelector
    ensures FormatSelection(Some("BEST")) == BestSelector
    ensures FormatSelection(Some("Best")) == BestSelector
  {
    assert ToLower("BEST") == "best";
    assert ToLower("Best") == "best";
    assert ToLower(DefaultQuality) == "best";
  }

  /** The parameter the client sends for a height: "1080p" caps the height at 1080. */
  lemma HeightParameter(digits: string)
    requires digits != [] && forall k :: 0 <= k < |digits| ==> '0' <= digits[k] <= '9'
    ensures FormatSelection(Some(digits + "p")) == HeightSelector(digits)
  {
    var q := digits + "p";
    assert ToLower(q)[0] == q[0] == digits[0];
    assert ToLower(q) != "best";
    assert !IsWhiteSpace(q[0]);
    assert 'p' !in digits;
    RemoveTrailing(digits, 'p');
  }

  /** Removing every `c` from `s + [c]` gives `s` when `s` has none. */
  lemma RemoveTrailing(s: string, c: char)
    requires c !in s
    ensures RemoveAll(s + [c], c) == s
  {
    RemoveAllAppend(s, [c], c);
    assert RemoveAll([c], c) == [];
  }

  // ---------------------------------------------------------------------------
  // The argument line (line 49)

  /** `-f "<selection>" -o "<path>" --no-playlist --merge-output-format mp4 "<url>"`. */
  function Arguments(selection: string, path: string, url: string): string {
    Spaced("-f", Spaced(Quote(selection), Spaced("-o", Spaced(Quote(path),
      Spaced("--no-playlist", Spaced("--merge-output-format", Spaced("mp4", Quote(url))))))))
  }

  /** The fixed part of the line, from `-o` on, before the url. */
  lemma MiddleArgv(path: string, rest: string)
    requires Plain(path)
    ensures Argv(Spaced("-o", Spaced(Quote(path), Spaced("--no-playlist", Spaced("--merge-output-format", Spaced("mp4", rest))))))
      == ["-o", path, "--no-playlist", "--merge-output-format", "mp4"] + Argv(rest)
  {
    ArgvSpacedWord("mp4", rest);
    ArgvSpacedWord("--merge-output-format", Spaced("mp4", rest));
    ArgvSpacedWord("--no-playlist", Spaced("--merge-output-format", Spaced("mp4", rest)));
    ArgvSpacedQuote(path, Spaced("--no-playlist", Spaced("--merge-output-format", Spaced("mp4", rest))));
    ArgvSpacedWord("-o", Spaced(Quote(path), Spaced("--no-playlist", Spaced("--merge-output-format", Spaced("mp4", rest)))));
  }

  /** With no quotes or backslashes in its three pieces, yt-dlp receives exactly eight arguments. */
  lemma ArgumentsArgv(selection: string, path: string, url: string)
    requires Plain(selection) && Plain(path) && Plain(url)
    ensures Argv(Arguments(selection, path, url))
      == ["-f", selection, "-o", path, "--no-playlist", "--merge-output-format", "mp4", url]
  {
    ArgvQuote(url);
    MiddleArgv(path, Quote(url));
    var middle := Spaced("-o", Spaced(Quote(path), Spaced("--no-playlist", Spaced("--merge-output-format", Spaced("mp4", Quote(url))))));
    ArgvSpacedQuote(selection, middle);
    ArgvSpacedWord("-f", Spaced(Quote(selection), middle));
  }

  /** The url is quoted but not escaped: a url of the form `a" b "c` closes the quote, and
      yt-dlp receives `b` as an argument of its own (an option such as `--exec`). */
  lemma ArgumentsQuoteInjection(selection: string, path: string, a: string, b: string, c: string)
    requires Plain(selection) && Plain(path)
    requires Plain(a) && Plain(c) && Word(b) && b != []
    ensures Argv(Arguments(selection, path, a + "\" " + b + " \"" + c))
      == ["-f", selection, "-o", path, "--no-playlist", "--merge-output-format", "mp4", a, b, c]
  {
    var url := a + "\" " + b + " \"" + c;
    assert Quote(url) == Spaced(Quote(a), Spaced(b, Quote(c)));
    ArgvQuote(c);
    ArgvSpacedWord(b, Quote(c));
    ArgvSpacedQuote(a, Spaced(b, Quote(c)));
    MiddleArgv(path, Quote(url));
    var middle := Spaced("-o", Spaced(Quote(path), Spaced("--no-playlist", Spaced("--merge-output-format", Spaced("mp4", Quote(url))))));
    ArgvSpacedQuote(selection, middle);
    ArgvSpacedWord("-f", Spaced(Quote(selection), middle));
  }

  // ---------------------------------------------------------------------------
  // The temporary file (line 40)

  /** `Path.Combine(Path.GetTempPath(), $"video_{Guid.NewGuid()}.mp4")`. The temporary
      directory ends in a separator, so the file name is appended directly. */
  function TempFilePath(tempDir: string, guid: string): (r: string)
    ensures |r| >= |tempDir| && r[..|tempDir|] == tempDir
    ensures |r| >= |guid| + 10 && r[|r| - |guid| - 10..] == "video_" + guid + ".mp4"
  {
    PathCombine(tempDir, "video_" + guid + ".mp4")
  }

  /** The whole path: the file name follows the directory, with a '/' between them
      unless the directory is empty or already ends in one. */
  lemma TempFilePathExact(tempDir: string, guid: string)
    ensures tempDir == [] || tempDir[|tempDir| - 1] == '/' ==>
      TempFilePath(tempDir, guid) == tempDir + ("video_" + guid + ".mp4")
    ensures tempDir != [] && tempDir[|tempDir| - 1] != '/' ==>
      TempFilePath(tempDir, guid) == tempDir + "/" + ("video_" + guid + ".mp4")
  {
  }

  // ---------------------------------------------------------------------------
  // The outcome of one request (lines 31-126)

  type Disk = map<string, seq<bv8>>

  /** How the yt-dlp process ended: it exited with a code and its standard error, or an
      exception was raised while starting or reading it. Either way it may have left a
      file at the output path. */
  datatype DownloadRun =
    | Exited(exitCode: int, stderr: string, artifact: Option<seq<bv8>>)
    | Crashed(message: string, artifact: Option<seq<bv8>>)

  /** Everything the action gets from its surroundings: `Path.GetTempPath()`,
      `Guid.NewGuid()`, the process, whether copying the file raises (and with what
      message), and whether `File.Delete` raises. */
  datatype Host = Host(tempDir: string, guid: string, run: DownloadRun, copyFault: Option<string>, deleteFails: bool)

  /** `File(stream, contentType, fileDownloadName)` or `StatusCode`/`BadRequest` with an
      anonymous `{ message, detail }` body. */
  datatype ActionResult =
    | FileStreamResult(contentType: string, fileDownloadName: string, content: seq<bv8>, position: nat)
    | ObjectResult(statusCode: int, message: string, detail: Option<string>)

  function StatusCode(r: ActionResult): int {
    if r.FileStreamResult? then 200 else r.statusCode
  }

  const UrlRequired: string := "URL is required"
  const ExitFailed: string := "Failed to download video"
  const FileNotFound: string := "Downloaded file not found"
  const UnexpectedError: string := "An error occurred while downloading the video"

  /** The files after the process ran. */
  function AfterRun(disk: Disk, path: string, run: DownloadRun): Disk {
    if run.artifact.Some? then disk[path := run.artifact.value] else disk
  }

  /** `File.Delete(path)`, which leaves everything as it is when it raises. */
  function Delete(disk: Disk, path: string, fails: bool): Disk {
    if fails then disk else disk - {path}
  }

  /** The result, the files afterwards, and the argument lines of the processes started. */
  datatype Outcome = Outcome(response: ActionResult, disk: Disk, launched: seq<string>)

  /** What one call of `Get` does: at most one process, started exactly for a url that is
      not blank; a 400 exactly without one; otherwise a 200 or a 500. */
  function Handle(disk: Disk, url: Option<string>, quality: Option<string>, host: Host): (o: Outcome)
    ensures |o.launched| <= 1
    ensures o.launched == [] <==> IsNullOrWhiteSpace(url)
    ensures StatusCode(o.response) == 400 <==> IsNullOrWhiteSpace(url)
    ensures StatusCode(o.response) == 200 || StatusCode(o.response) == 400 || StatusCode(o.response) == 500
    ensures StatusCode(o.response) == 200 <==> o.response.FileStreamResult?
  {
    if IsNullOrWhiteSpace(url) then Outcome(ObjectResult(400, UrlRequired, None), disk, [])
    else
      var path := TempFilePath(host.tempDir, host.guid);
      var arguments := Arguments(FormatSelection(quality), path, url.value);
      var written := AfterRun(disk, path, host.run);
      var caught := if path in written then Delete(written, path, host.deleteFails) else written;
      match host.run
      case Crashed(message, _) =>
        Outcome(ObjectResult(500, UnexpectedError, Some(message)), caught, [arguments])
      case Exited(exitCode, stderr, _) =>
        if exitCode != 0 then Outcome(ObjectResult(500, ExitFailed, Some(stderr)), written, [arguments])
        else if path !in written then Outcome(ObjectResult(500, FileNotFound, None), written, [arguments])
        else if host.copyFault.Some? then
          Outcome(ObjectResult(500, UnexpectedError, host.copyFault), caught, [arguments])
        else
          Outcome(FileStreamResult("video/mp4", "video.mp4", written[path], 0),
                  Delete(written, path, host.deleteFails), [arguments])
  }

  /** The controller with the files it can see and the processes it has started. */
  class Controller {
    var disk: Disk
    var launches: seq<string>

    constructor(files: Disk)
      ensures disk == files && launches == []
    {
      disk := files;
      launches := [];
    }

    /** `GET api/Download?url=...&quality=...`. */
    method Get(url: Option<string>, quality: Option<string>, host: Host) returns (result: ActionResult)
      modifies this
      ensures var o := Handle(old(disk), url, quality, host);
        result == o.response && disk == o.disk && launches == old(launches) + o.launched
    {
      if IsNullOrWhiteSpace(url) {
        return ObjectResult(400, UrlRequired, None);
      }
      var tempFilePath := TempFilePath(host.tempDir, host.guid);
      var formatSelection := FormatSelection(quality);
      var arguments := Arguments(formatSelection, tempFilePath, url.value);
      launches := launches + [arguments];
      if host.run.artifact.Some? {
        disk := disk[tempFilePath := host.run.artifact.value];
      }
      var exceptionMessage: string;
      if host.run.Crashed? {
        exceptionMessage := host.run.message;
      } else if host.run.exitCode != 0 {
        return ObjectResult(500, ExitFailed, Some(host.run.stderr));
      } else if tempFilePath !in disk {
        return ObjectResult(500, FileNotFound, None);
      } else if host.copyFault.Some? {
        exceptionMessage := host.copyFault.value;
      } else {
        var memoryStream := disk[tempFilePath];
        if !host.deleteFails {
          disk := disk - {tempFilePath};
        }
        return FileStreamResult("video/mp4", "video.mp4", memoryStream, 0);
      }
      // The catch clause: remove the file if it is there, ignoring a failed delete.
      if tempFilePath in disk && !host.deleteFails {
        disk := disk - {tempFilePath};
      }
      return ObjectResult(500, UnexpectedError, Some(exceptionMessage));
    }
  }

  // ---------------------------------------------------------------------------
  // Properties of `Handle`

  /** A blank url is refused before a path, a selector or a process exists. */
  lemma BlankUrlRefused(disk: Disk, url: Option<string>, quality: Option<string>, host: Host)
    requires IsNullOrWhiteSpace(url)
    ensures var o := Handle(disk, url, quality, host);
      o.response == ObjectResult(400, UrlRequired, None) && o.disk == disk && o.launched == []
  {
  }

  /** Every other url starts exactly one process, with the documented argument line. */
  lemma OneLaunch(disk: Disk, url: Option<string>, quality: Option<string>, host: Host)
    requires !IsNullOrWhiteSpace(url)
    ensures Handle(disk, url, quality, host).launched
      == [Arguments(FormatSelection(quality), TempFilePath(host.tempDir, host.guid), url.value)]
    ensures StatusCode(Handle(disk, url, quality, host).response) != 400
  {
  }

  /** The four outcomes of a started download and when each happens. */
  lemma OutcomeClassification(disk: Disk, url: Option<string>, quality: Option<string>, host: Host)
    requires !IsNullOrWhiteSpace(url)
    ensures var path := TempFilePath(host.tempDir, host.guid);
      var written := AfterRun(disk, path, host.run);
      var r := Handle(disk, url, quality, host).response;
      && (r.ObjectResult? && r.message == ExitFailed <==> host.run.Exited? && host.run.exitCode != 0)
      && (r.ObjectResult? && r.message == FileNotFound <==>
            host.run.Exited? && host.run.exitCode == 0 && path !in written)
      && (r.ObjectResult? && r.message == UnexpectedError <==>
            host.run.Crashed? || (host.run.exitCode == 0 && path in written && host.copyFault.Some?))
      && (r.FileStreamResult? <==>
            host.run.Exited? && host.run.exitCode == 0 && path in written && host.copyFault.None?)
      && (StatusCode(r) == 200 || StatusCode(r) == 500)
  {
  }

  /** The 500 bodies: the process's standard error, nothing, or the exception's message. */
  lemma ErrorDetails(disk: Disk, url: Option<string>, quality: Option<string>, host: Host)
    requires !IsNullOrWhiteSpace(url)
    ensures var r := Handle(disk, url, quality, host).response;
      && (r.ObjectResult? && r.message == ExitFailed ==> r.statusCode == 500 && r.detail == Some(host.run.stderr))
      && (r.ObjectResult? && r.message == FileNotFound ==> r.statusCode == 500 && r.detail == None)
      && (r.ObjectResult? && r.message == UnexpectedError ==>
            r.statusCode == 500 &&
            r.detail == Some(if host.run.Crashed? then host.run.message else host.copyFault.value))
  {
  }

  /** A 200 carries the bytes yt-dlp wrote, as `video.mp4` of type `video/mp4`, read from
      the start. */
  lemma FileDelivered(disk: Disk, url: Option<string>, quality: Option<string>, host: Host)
    requires Handle(disk, url, quality, host).response.FileStreamResult?
    ensures var r := Handle(disk, url, quality, host).response;
      var path := TempFilePath(host.tempDir, host.guid);
      && r.contentType == "video/mp4" && r.fileDownloadName == "video.mp4" && r.position == 0
      && r.content == AfterRun(disk, path, host.run)[path]
      && (host.run.artifact.Some? ==> r.content == host.run.artifact.value)
  {
  }

  /** After a 200 the temporary file is gone, unless deleting it failed, which still gives 200. */
  lemma CleanupAfterSuccess(disk: Disk, url: Option<string>, quality: Option<string>, host: Host)
    requires Handle(disk, url, quality, host).response.FileStreamResult?
    ensures var path := TempFilePath(host.tempDir, host.guid);
      var o := Handle(disk, url, quality, host);
      (path in o.disk <==> host.deleteFails) && (host.deleteFails ==> o.disk == AfterRun(disk, path, host.run))
  {
  }

  /** After an exception the temporary file is gone, unless deleting it failed. */
  lemma CleanupAfterException(disk: Disk, url: Option<string>, quality: Option<string>, host: Host)
    requires var r := Handle(disk, url, quality, host).response; r.ObjectResult? && r.message == UnexpectedError
    ensures var path := TempFilePath(host.tempDir, host.guid);
      var o := Handle(disk, url, quality, host);
      (path in o.disk <==> host.deleteFails && path in AfterRun(disk, path, host.run))
  {
  }

  /** A failed exit and a missing file return without deleting: whatever yt-dlp wrote stays. */
  lemma NoCleanupOnEarlyReturn(disk: Disk, url: Option<string>, quality: Option<string>, host: Host)
    requires !IsNullOrWhiteSpace(url) && host.run.Exited?
    requires host.run.exitCode != 0 || TempFilePath(host.tempDir, host.guid) !in AfterRun(disk, TempFilePath(host.tempDir, host.guid), host.run)
    ensures var path := TempFilePath(host.tempDir, host.guid);
      Handle(disk, url, quality, host).disk == AfterRun(disk, path, host.run)
    ensures host.run.exitCode != 0 && host.run.artifact.Some? ==>
      var path := TempFilePath(host.tempDir, host.guid);
      path in Handle(disk, url, quality, host).disk && Handle(disk, url, quality, host).disk[path] == host.run.artifact.value
  {
  }

  /** The files afterwards are the files before, those after the run, or those after the
      run with the temporary file deleted. */
  lemma HandleDisk(disk: Disk, url: Option<string>, quality: Option<string>, host: Host)
    ensures var path := TempFilePath(host.tempDir, host.guid);
      var written := AfterRun(disk, path, host.run);
      var d := Handle(disk, url, quality, host).disk;
      d == disk || d == written || d == Delete(written, path, host.deleteFails)
  {
  }

  /** The action's own file operations, and the run's output at the temporary path,
      touch no other path. (What else yt-dlp itself writes is outside the model.) */
  lemma OtherFilesUnchanged(disk: Disk, url: Option<string>, quality: Option<string>, host: Host, p: string)
    requires p != TempFilePath(host.tempDir, host.guid)
    ensures var d := Handle(disk, url, quality, host).disk;
      (p in d <==> p in disk) && (p in d ==> d[p] == disk[p])
  {
    var path := TempFilePath(host.tempDir, host.guid);
    var written := AfterRun(disk, path, host.run);
    HandleDisk(disk, url, quality, host);
    assert (p in written <==> p in disk) && (p in written ==> written[p] == disk[p]);
    var deleted := Delete(written, path, host.deleteFails);
    assert (p in deleted <==> p in written) && (p in deleted ==> deleted[p] == written[p]);
  }
}

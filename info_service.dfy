/** server/Services/InfoService.cs: the blank-URL guard and the re-wrapping of every
    service failure, around an abstract yt-dlp service whose outcome is an input; and the
    status mapping of server/Controllers/InfoController.cs that makes the two visible. */
module InfoService {
  import opened Wrappers
  import opened Models
  import DotNetText
  import YtDlpService

  /** `ArgumentException` versus a plain `Exception`, each with its message. */
  datatype InfoError =
    | InvalidArgument(message: string)
    | Failed(message: string)

  const FailurePrefix: string := "Failed to fetch video info: "

  /** `GetVideoInfoAsync(url)`, given what the yt-dlp service would do for that url. Only a
      blank url is an argument error; a service result is passed on unchanged, and a
      service exception comes back as a plain exception whose message is prefixed. */
  function GetVideoInfo(url: Option<string>, service: Result<VideoInfo, YtDlpService.ServiceError>): (r: Result<VideoInfo, InfoError>)
    ensures (r.Failure? && r.error.InvalidArgument?) <==> DotNetText.IsNullOrWhiteSpace(url)
    ensures r.Failure? && r.error.InvalidArgument? ==> r.error.message == "URL cannot be empty"
    ensures r.Success? <==> !DotNetText.IsNullOrWhiteSpace(url) && service.Success?
    ensures r.Success? ==> r.value == service.value
    ensures r.Failure? && r.error.Failed? ==>
      service.Failure? && r.error.message == FailurePrefix + YtDlpService.Message(service.error)
  {
    if DotNetText.IsNullOrWhiteSpace(url) then Failure(InvalidArgument("URL cannot be empty"))
    else match service
      case Success(info) => Success(info)
      case Failure(e) => Failure(Failed(FailurePrefix + YtDlpService.Message(e)))
  }

  /** For a blank url the service outcome does not matter: the service is not consulted. */
  lemma BlankUrlIgnoresService(url: Option<string>, a: Result<VideoInfo, YtDlpService.ServiceError>,
                               b: Result<VideoInfo, YtDlpService.ServiceError>)
    requires DotNetText.IsNullOrWhiteSpace(url)
    ensures GetVideoInfo(url, a) == GetVideoInfo(url, b)
  {
  }

  /** A yt-dlp run with a non-zero exit code reaches the caller as
      "Failed to fetch video info: yt-dlp failed: <stderr>". */
  lemma NonZeroExitMessage(url: string, run: YtDlpService.MetadataRun)
    requires !DotNetText.IsNullOrWhiteSpace(Some(url)) && run.Exited? && run.exitCode != 0
    ensures GetVideoInfo(Some(url), YtDlpService.FetchOutcome(run)) ==
      Failure(Failed("Failed to fetch video info: yt-dlp failed: " + run.stderr))
  {
    assert FailurePrefix + ("yt-dlp failed: " + run.stderr) == "Failed to fetch video info: yt-dlp failed: " + run.stderr;
  }

  /** A yt-dlp that cannot be started or read (no binary installed, say) reaches the caller
      as "Failed to fetch video info: <the exception's message>". */
  lemma CrashedRunMessage(url: string, run: YtDlpService.MetadataRun)
    requires !DotNetText.IsNullOrWhiteSpace(Some(url)) && run.Crashed?
    ensures GetVideoInfo(Some(url), YtDlpService.FetchOutcome(run)) ==
      Failure(Failed("Failed to fetch video info: " + run.message))
  {
  }

  // ---------------------------------------------------------------------------
  // server/Controllers/InfoController.cs, lines 24-36

  datatype InfoResponse =
    | Ok(info: VideoInfo)
    | BadRequest(message: string)
    | ServerError(message: string, details: string)

  function StatusCode(r: InfoResponse): int {
    match r
    case Ok(_) => 200
    case BadRequest(_) => 400
    case ServerError(_, _) => 500
  }

  /** The `catch (ArgumentException)` and `catch (Exception)` clauses. */
  function GetInfo(url: Option<string>, service: Result<VideoInfo, YtDlpService.ServiceError>): (r: InfoResponse)
    ensures r.Ok? <==> !DotNetText.IsNullOrWhiteSpace(url) && service.Success?
    ensures r.Ok? ==> r.info == service.value
    ensures r.BadRequest? <==> DotNetText.IsNullOrWhiteSpace(url)
    ensures r.BadRequest? ==> r.message == "URL cannot be empty"
    ensures r.ServerError? ==>
      service.Failure? && r.message == "Internal Server Error" &&
      r.details == FailurePrefix + YtDlpService.Message(service.error)
  {
    match GetVideoInfo(url, service)
    case Success(info) => Ok(info)
    case Failure(InvalidArgument(m)) => BadRequest(m)
    case Failure(Failed(m)) => ServerError("Internal Server Error", m)
  }

  /** Because every service exception is re-wrapped as a plain exception, a 400 means a
      blank url and nothing else, and every service failure is a 500. */
  lemma StatusClassification(url: Option<string>, service: Result<VideoInfo, YtDlpService.ServiceError>)
    ensures StatusCode(GetInfo(url, service)) == 400 <==> DotNetText.IsNullOrWhiteSpace(url)
    ensures !DotNetText.IsNullOrWhiteSpace(url) && service.Failure? ==>
      GetInfo(url, service) ==
        ServerError("Internal Server Error", FailurePrefix + YtDlpService.Message(service.error))
    ensures StatusCode(GetInfo(url, service)) == 200 ==> GetInfo(url, service) == Ok(service.value)
  {
  }
}

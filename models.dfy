/** The records of server/Models/VideoInfo.cs as values. `Quality` is null-able because
    the normaliser can copy a JSON null into it; `Type` is called `kind` here, since
    `type` is a Dafny keyword. */
module Models {
  import opened Wrappers

  const Video: string := "video"
  const Audio: string := "audio"

  datatype DownloadOption = DownloadOption(quality: Option<string>, url: string, kind: string)

  datatype VideoInfo = VideoInfo(
    title: string,
    thumbnailUrl: string,
    platform: string,
    downloadOptions: seq<DownloadOption>)

  /** `new DownloadOption()`: every property at its initialiser. */
  function NewDownloadOption(): (o: DownloadOption)
    ensures o.kind == Video && o.quality == Some("") && o.url == ""
  {
    DownloadOption(Some(""), "", Video)
  }

  /** `new VideoInfo()`: empty strings and an empty option list. */
  function NewVideoInfo(): (v: VideoInfo)
    ensures v.title == "" && v.thumbnailUrl == "" && v.platform == ""
    ensures v.downloadOptions == []
  {
    VideoInfo("", "", "", [])
  }

  /** The only two values the repository ever gives `Type`. */
  predicate HasKnownKind(o: DownloadOption) {
    o.kind == Video || o.kind == Audio
  }
}

# video_fetch in Dafny

This project models the core of video_fetch, a small video-download tool. A React
client sends a page url to a C# server. The server asks yt-dlp for the video's metadata
(`--dump-json`), turns that document into a `VideoInfo` with a list of download options,
and lets the client download one option later through yt-dlp.

The model covers the sequential logic around the two yt-dlp calls:

- **Metadata normaliser**:
  - `YtDlpService.ParseYtDlpOutput` is an imperative loop over the `formats` rows. It is
    proved equal to a specification function, and the properties the code promises are
    lemmas about that function.
  - The exit-code check of `GetVideoInfoAsync`.
  - The small part of System.Text.Json that the normaliser uses. JSON values are a
    datatype, and `GetProperty`, `TryGetProperty`, `GetString` and `EnumerateArray` are
    partial accessors with explicit errors.
- **Info service**: the blank-url guard and the re-wrapping of failures in
  `InfoService.GetVideoInfoAsync`, plus the status mapping of `InfoController`.
- **Quality mapping**:
  - the client's `getQualityParam`, whose regular expression `(\d+)x(\d+)` has a
    declarative meaning and a scanner proved to find exactly that match;
  - `getDownloadLabel` and the download URL;
  - the server's format-selector expression and the yt-dlp argument line;
  - end-to-end lemmas from a button's label to the selector yt-dlp receives;
  - the server's decoding of the query string, proved to give back exactly the text
    `encodeURIComponent` encoded, so yt-dlp is started on the client's page url.
- **Download action**: `DownloadController.Get` is a class holding the files it can see
  and the processes it started. Its method is proved equal to a specification function,
  and lemmas state the outcomes and the cleanup paths.
- **URL input**: `UrlInput` is a class with the `url`/`error` state, the submit, edit
  and paste handlers, and the submit-enabled predicate.

The processes, the file system, the clipboard and the JSON parser are outside the
model. What they report comes in as parameters: `MetadataRun`, `DownloadController.Host`,
`Option<string>` for a clipboard read, and `Result<Json, string>` for a parse.

Files: `wrappers.dfy` (Option, Result), `json.dfy`, `models.dfy`, `dotnet_text.dfy`,
`js_text.dfy`, `process_arguments.dfy`, `ytdlp_service.dfy`, `info_service.dfy`,
`download_options.dfy`, `download_controller.dfy`, `url_input.dfy`, `url_decoding.dfy`,
`quality_round_trip.dfy`.

## Notes on the code

Where the code's behaviour differs from what one might expect of it, the model follows
the code:

- The download action deletes the temporary file only:
  - after a successful copy;
  - in the `catch` clause.

  The non-zero-exit and file-missing returns leave whatever yt-dlp wrote on disk
  (`NoCleanupOnEarlyReturn`).
- A missing `title` or `thumbnail` member is an error, not a default, because
  `GetProperty` is used. Only a JSON null gets the default.
- The fallback option takes the top-level `url`. When that member is JSON null, its `Url`
  is empty (`FallbackWithNullUrl`).
- `ParseYtDlpOutput` does not use its `originalUrl` parameter.
- Both argument lines interpolate the url inside double quotes without escaping. A url
  containing `"` splits into extra yt-dlp arguments (`ArgumentsQuoteInjection`).

## Model

| member | source | states |
|---|---|---|
| Models.NewDownloadOption | server/Models/VideoInfo.cs:11-16 | a fresh option has type "video" and an empty quality and url |
| Models.NewVideoInfo | server/Models/VideoInfo.cs:3-9 | a fresh VideoInfo has an empty title, thumbnail and platform and no download options |
| Json.LastIndexOf | server/Services/YtDlpService.cs:46-48 | the index found holds the name and no later member does; none is found exactly when no member has the name |
| Json.TryGetProperty | server/Services/YtDlpService.cs:48 | it throws exactly on a non-object, with the Object kind error; it finds a value exactly when the member exists, and the value is the last member of that name |
| Json.GetProperty | server/Services/YtDlpService.cs:46-47 | a missing member gives the key-not-found error and a non-object the kind error; on success it agrees with TryGetProperty |
| Json.GetString | server/Services/YtDlpService.cs:46-48 | a string gives its text and null gives null; every other kind throws the String kind error |
| Json.EnumerateArray | server/Services/YtDlpService.cs:54 | it succeeds exactly on arrays and yields their items in order; otherwise the Array kind error |
| Json.LastDefinitionWins | server/Services/YtDlpService.cs:48 | a member followed only by members of other names is the one found, whatever members of that name come before it |
| DotNetText.ToLower | server/Controllers/DownloadController.cs:45 | same length, every character lowered (ASCII) |
| DotNetText.RemoveAll | server/Controllers/DownloadController.cs:47 | the result has no occurrence of the character, keeps every other character with its count, and is the input when the character is absent |
| DotNetText.RemoveAllAppend | server/Controllers/DownloadController.cs:47 | removal distributes over concatenation |
| DotNetText.PathCombine | server/Controllers/DownloadController.cs:40 | the result starts with the directory and ends with the file name; it is exactly the two joined when the directory is empty or ends in '/', and the two with one '/' between them otherwise |
| JsText.TrimStart | client/src/app/components/UrlInput.tsx:26 | the result is a suffix, everything removed is whitespace, and it does not start with whitespace |
| JsText.TrimEnd | client/src/app/components/UrlInput.tsx:26 | the result is a prefix, everything removed is whitespace, and it does not end with whitespace |
| JsText.Trim | client/src/app/components/UrlInput.tsx:26 | the result is the slice of the text that starts where the leading whitespace ends, and it neither starts nor ends with whitespace |
| JsText.TrimSlice | client/src/app/components/UrlInput.tsx:26 | the result is a slice of the text with nothing but whitespace before and after it |
| JsText.StartsWithConcat | client/src/app/components/UrlInput.tsx:31 | `startsWith` holds for the prefix followed by any text, and a text that starts with the prefix is the prefix followed by the rest |
| JsText.TrimEmptyIffBlank | client/src/app/components/UrlInput.tsx:26 | `url.trim()` is empty exactly when the url is all whitespace |
| JsText.Utf8 | client/src/app/components/DownloadOptions.tsx:19 | one to four bytes, one exactly for ASCII, continuation bytes in 0x80-0xBF |
| JsText.PercentByte | client/src/app/components/DownloadOptions.tsx:19 | each byte becomes '%' and two upper-case hex digits |
| JsText.EncodeUriComponent | client/src/app/components/DownloadOptions.tsx:19 | the output is no shorter than the input and uses only unreserved characters, '%' and hex digits |
| JsText.EncodeUnescapedIsIdentity | client/src/app/components/DownloadOptions.tsx:19 | text made of unreserved characters is left unchanged |
| JsText.EncodeAppend | client/src/app/components/DownloadOptions.tsx:19 | encoding distributes over concatenation |
| YtDlpService.DumpJsonArgv | server/Services/YtDlpService.cs:17 | for a url without quotes or backslashes yt-dlp receives exactly `--dump-json` and the url |
| YtDlpService.GetVideoInfo | server/Services/YtDlpService.cs:12-37 | the argument line is `--dump-json "<url>"`; an exception while starting or reading yt-dlp escapes with its own message; a non-zero exit throws "yt-dlp failed: " + stderr without parsing; exit 0 gives the parse outcome |
| YtDlpService.RequiredString | server/Services/YtDlpService.cs:46-47 | a missing member is the key-not-found error; success needs an object that has the member; when the member is found the result is its GetString, and otherwise GetProperty's error is passed on |
| YtDlpService.OptionalString | server/Services/YtDlpService.cs:58-61 | an absent member gives the default, a present one its GetString, and a non-object throws |
| YtDlpService.ReadFormat | server/Services/YtDlpService.cs:58-61 | a row that is not an object throws the Object kind error |
| YtDlpService.ReadFormatFields | server/Services/YtDlpService.cs:58-61 | a row reads exactly when it is an object whose ext, url, format_id and resolution members are absent, strings or null; each field is its member's string, and an absent ext or url is "" and an absent resolution "Unknown"; the first unreadable member in that order throws its String kind error, format_id included |
| YtDlpService.FormatOption | server/Services/YtDlpService.cs:58-83 | a row that is not an object throws the Object kind error |
| YtDlpService.RowOption | server/Services/YtDlpService.cs:58-83 | an admitted option's url is the row's url string; a video option comes from an "mp4" row, with the resolution string, or "Unknown" when the row has none, as quality; an audio option comes from an "m4a" or "mp3" row, with quality "Audio" |
| YtDlpService.MissingResolution | server/Services/YtDlpService.cs:61-72 | an mp4 row with a url and no resolution member gives a video option of quality "Unknown" |
| YtDlpService.ThreeMemberRow | server/Services/YtDlpService.cs:58-83 | a row of ext, url and resolution strings gives what Admit gives for those three fields |
| YtDlpService.TwoMemberRow | server/Services/YtDlpService.cs:58-83 | a row of ext and url strings gives what Admit gives for them with the resolution "Unknown" |
| YtDlpService.Header | server/Services/YtDlpService.cs:44-49 | no options yet; the title is the string or "Unknown Title" for null; the thumbnail is the string or "" for null; the platform is the extractor_key string or "Unknown" when that is absent or null; it succeeds exactly when the three reads succeed; a non-object throws the Object kind error; a missing title, or a missing thumbnail after a readable title, is the key-not-found error; a title, thumbnail or extractor_key of another kind throws the String kind error, the first one in that order |
| YtDlpService.Admit | server/Services/YtDlpService.cs:63-83 | only a non-empty url admits; "mp4" gives a video option with the resolution as quality; "m4a"/"mp3" give an audio option with quality "Audio"; nothing is added otherwise |
| YtDlpService.AppendFormats | server/Services/YtDlpService.cs:54-84 | the loop appending to the option list in place ends with exactly the admitted options, or throws what the first bad row throws |
| YtDlpService.AddFallback | server/Services/YtDlpService.cs:88-96 | the conditional append adds exactly the specified fallback, or throws when the top-level url is not a string or null |
| YtDlpService.ParseYtDlpOutput | server/Services/YtDlpService.cs:39-99 | the header, the loop and the fallback together give exactly the specified outcome, its exceptions included |
| YtDlpService.AdmittedOptionsShape | server/Services/YtDlpService.cs:54-84 | the loop adds at most one option per row, and every option has a non-empty url and type "video" or "audio" |
| YtDlpService.AdmittedProvenance | server/Services/YtDlpService.cs:54-84 | the options are, in order, what a strictly increasing list of rows admits; every other row admits nothing |
| YtDlpService.AdmittedFailure | server/Services/YtDlpService.cs:54-61 | the loop throws exactly what the first throwing row throws, and every earlier row reads |
| YtDlpService.AdmittedOptionsSucceeds | server/Services/YtDlpService.cs:54-84 | the loop completes exactly when every row reads |
| YtDlpService.FormatsOptionsCases | server/Services/YtDlpService.cs:52-54 | a non-object throws; no `formats` member gives no options; a `formats` that is not an array throws the Array kind error; an array gives exactly what its rows admit |
| YtDlpService.FallbackCases | server/Services/YtDlpService.cs:88-96 | nothing is added after admitted options or without a top-level url; a url of another kind than string or null throws the String kind error; otherwise exactly one "Default" video option with the url, or "" for null |
| YtDlpService.NormalizeCases | server/Services/YtDlpService.cs:44-98 | the header's exception comes first, then the rows', then the fallback's; without one the result keeps the header's title, thumbnail and platform, with the admitted options followed by the fallback |
| YtDlpService.ParseOutcomeCases | server/Services/YtDlpService.cs:39-98 | a document the parser rejects is reported with the parser's message; an access exception is passed on with its own message; a parsed document gives the normalised info; a parse never reports a failed or crashed process |
| YtDlpService.FetchOutcomeCases | server/Services/YtDlpService.cs:24-36 | a run that could not be started or read is reported with the exception's message, and is the only source of that error; a non-zero exit code is a failed process whatever yt-dlp printed, and the only source of that error; exit code 0 gives the parse outcome of the output |
| YtDlpService.NormalizeFallback | server/Services/YtDlpService.cs:88-96 | admitted options are kept alone; with none, a top-level url adds exactly one "Default" video option, and without one the list stays empty |
| YtDlpService.NormalizedOptions | server/Services/YtDlpService.cs:63-96 | every option's type is "video" or "audio", and only a sole fallback option can have an empty url |
| YtDlpService.FallbackWithNullUrl | server/Services/YtDlpService.cs:93 | a JSON-null top-level url yields a fallback option with an empty url |
| YtDlpService.VideoRowAdmitted | server/Services/YtDlpService.cs:65-73 | an mp4 row with a url yields a video option carrying its resolution |
| YtDlpService.AudioRowAdmitted | server/Services/YtDlpService.cs:74-82 | an m4a row yields an audio option with quality "Audio" |
| YtDlpService.ThumbnailRowSkipped | server/Services/YtDlpService.cs:63-83 | a row of another extension yields nothing |
| YtDlpService.FullDocument | server/Services/YtDlpService.cs:44-98 | a document whose formats admit something gives its header fields and exactly the admitted options, with no fallback |
| YtDlpService.CatVideoExample | server/Services/YtDlpService.cs:39-99 | a three-row document gives the video and audio options in row order |
| InfoService.GetVideoInfo | server/Services/InfoService.cs:14-30 | an argument error exactly for a blank url, with "URL cannot be empty"; success exactly for a non-blank url and a successful service, returning its value unchanged; any other failure is a plain exception "Failed to fetch video info: " + the service's message |
| InfoService.BlankUrlIgnoresService | server/Services/InfoService.cs:16-19 | for a blank url the service's outcome makes no difference |
| InfoService.NonZeroExitMessage | server/Services/InfoService.cs:25-28 | a failed yt-dlp run reaches the caller as "Failed to fetch video info: yt-dlp failed: <stderr>" |
| InfoService.CrashedRunMessage | server/Services/InfoService.cs:25-28 | a yt-dlp that cannot be started or read reaches the caller as "Failed to fetch video info: " + the exception's message |
| InfoService.StatusClassification | server/Controllers/InfoController.cs:22-37 | 400 exactly for a blank url; every service failure is a 500 "Internal Server Error" carrying the wrapped message; 200 carries the service's value |
| InfoService.GetInfo | server/Controllers/InfoController.cs:22-37 | 200 exactly for a non-blank url and a successful service, carrying its value; 400 "URL cannot be empty" exactly for a blank url; a 500 is "Internal Server Error" with the service's failure, prefixed, as details |
| DownloadOptions.FindFromCorrect | client/src/app/components/DownloadOptions.tsx:35 | scanning from a position before which nothing matches finds the leftmost, longest-grouped match, or reports none exactly when there is none |
| DownloadOptions.ExecCorrect | client/src/app/components/DownloadOptions.tsx:35 | `quality.match(/(\d+)x(\d+)/)` returns the chosen match, and null exactly when no match exists |
| DownloadOptions.ChosenMatchIsExec | client/src/app/components/DownloadOptions.tsx:35 | the chosen match is unique and is the one returned |
| DownloadOptions.QualityParam | client/src/app/components/DownloadOptions.tsx:32-41 | the result is null, "best", or digits followed by "p"; it is null exactly for a null or empty label |
| DownloadOptions.QualityParamOfMatch | client/src/app/components/DownloadOptions.tsx:35-38 | with a match, the result is the match's second group followed by "p" |
| DownloadOptions.QualityParamWithoutMatch | client/src/app/components/DownloadOptions.tsx:40 | a non-empty label without a match gives "best" |
| DownloadOptions.QualityParamOfResolution | client/src/app/components/DownloadOptions.tsx:35-38 | a whole `<width>x<height>` label gives its height and "p" |
| DownloadOptions.QualityParamExamples | client/src/app/components/DownloadOptions.tsx:32-41 | "1080x1920" gives "1920p", "Audio" gives "best", null and "" give null |
| DownloadOptions.NoDigitsNoMatch | client/src/app/components/DownloadOptions.tsx:35-40 | a label without digits has no match |
| DownloadOptions.DownloadLabel | client/src/app/components/DownloadOptions.tsx:25-30 | "Download <quality> (<type>)" when the quality is non-empty, otherwise "Download <type>" |
| DownloadOptions.DownloadLabelInjective | client/src/app/components/DownloadOptions.tsx:25-30 | for known types, equal labels mean equal type and equal shown quality |
| DownloadOptions.ApiUrl | client/src/app/components/DownloadOptions.tsx:18 | the environment value when set and non-empty, otherwise "https://localhost:8084" |
| DownloadOptions.DownloadUrl | client/src/app/components/DownloadOptions.tsx:19 | the URL starts with the API url, then "/api/Download?", then the query (the encoded page url and, only for a truthy parameter, the unencoded quality) |
| DownloadController.HeightSelector | server/Controllers/DownloadController.cs:47 | the selector begins "bestvideo[height<=" followed by the limit, 57 characters longer than the limit |
| DownloadController.FormatSelection | server/Controllers/DownloadController.cs:45-47 | "best[ext=mp4]/best" exactly when the quality is null, blank or "best" in any case; otherwise the height selector over the quality with every 'p' removed |
| DownloadController.HeightSelectorInjective | server/Controllers/DownloadController.cs:47 | different limits give different selectors |
| DownloadController.HeightLimitOfQuality | server/Controllers/DownloadController.cs:47 | the limit has no 'p' left and is the quality itself when it had none |
| DownloadController.BestSpellings | server/Controllers/DownloadController.cs:31-46 | the default "best", "BEST" and "Best" select the best single file |
| DownloadController.HeightParameter | server/Controllers/DownloadController.cs:45-47 | a parameter of digits and "p" caps the height at those digits |
| DownloadController.ArgumentsArgv | server/Controllers/DownloadController.cs:49 | with plain pieces yt-dlp receives exactly `-f`, the selector, `-o`, the path, `--no-playlist`, `--merge-output-format`, `mp4` and the url |
| DownloadController.ArgumentsQuoteInjection | server/Controllers/DownloadController.cs:49 | a url of the form `a" b "c`, with b a single word and no quotes or backslashes in a and c, makes yt-dlp receive a, b and c as three separate arguments |
| ProcessArguments.SplitWord | server/Controllers/DownloadController.cs:49-56 | text without quotes, backslashes, blanks or tabs extends the argument being built |
| ProcessArguments.SplitQuotedText | server/Controllers/DownloadController.cs:49-56 | inside quotes, text without quotes and backslashes, blanks and tabs included, extends the argument being built |
| ProcessArguments.ArgvSpacedWord | server/Controllers/DownloadController.cs:49-56 | a word and a blank give that word as one argument, ahead of the rest |
| ProcessArguments.ArgvSpacedQuote | server/Controllers/DownloadController.cs:49-56 | a quoted piece and a blank give the piece as one argument, blanks inside it included |
| ProcessArguments.ArgvQuote | server/Controllers/DownloadController.cs:49-56 | a quoted piece alone is one argument |
| ProcessArguments.ArgvTabbedWords | server/Controllers/DownloadController.cs:49-56 | a tab separates two words like a blank |
| ProcessArguments.ArgvDoubledQuote | server/Controllers/DownloadController.cs:49-56 | inside quotes `""` is one literal quote and the quote stays open |
| ProcessArguments.ArgvEscapedQuote | server/Controllers/DownloadController.cs:49-56 | a backslash before a quote makes the quote literal |
| DownloadController.TempFilePath | server/Controllers/DownloadController.cs:40 | the path starts with the temporary directory and ends with "video_<guid>.mp4" |
| DownloadController.TempFilePathExact | server/Controllers/DownloadController.cs:40 | the path is the directory followed by "video_<guid>.mp4", with a '/' between them unless the directory is empty or ends in one |
| DownloadController.Controller.Get | server/Controllers/DownloadController.cs:31-126 | the step-by-step action returns the specified result, leaves the specified files, and records the one launched argument line |
| DownloadController.Handle | server/Controllers/DownloadController.cs:31-126 | at most one process, started exactly for a url that is not blank; 400 exactly for a blank url; otherwise 200, exactly for a file, or 500 |
| DownloadController.HandleDisk | server/Controllers/DownloadController.cs:31-126 | the files afterwards are those before, those after the run, or those after the run with the temporary file deleted |
| DownloadController.BlankUrlRefused | server/Controllers/DownloadController.cs:33-36 | a blank url gives 400 "URL is required" with files untouched and no process started |
| DownloadController.OneLaunch | server/Controllers/DownloadController.cs:40-64 | any other url starts exactly one process with the documented argument line, and never gives 400 |
| DownloadController.OutcomeClassification | server/Controllers/DownloadController.cs:70-108 | a non-zero exit, a missing file, an exception and success each happen exactly under their condition; the status is 200 or 500 |
| DownloadController.ErrorDetails | server/Controllers/DownloadController.cs:70-124 | the exit failure carries stderr, a missing file carries no detail, and an exception carries its message |
| DownloadController.FileDelivered | server/Controllers/DownloadController.cs:86-108 | a 200 is `video.mp4` of type `video/mp4` at position 0, carrying the bytes yt-dlp wrote |
| DownloadController.CleanupAfterSuccess | server/Controllers/DownloadController.cs:97-108 | after a 200 the file is gone exactly when the delete did not fail; a failed delete still gives 200 |
| DownloadController.CleanupAfterException | server/Controllers/DownloadController.cs:110-125 | after an exception the file remains only if it existed and the delete failed |
| DownloadController.NoCleanupOnEarlyReturn | server/Controllers/DownloadController.cs:70-83 | a failed exit or a missing file leaves the files as yt-dlp left them, its output included |
| DownloadController.OtherFilesUnchanged | server/Controllers/DownloadController.cs:31-126 | the action's own file operations, and the run's output at the temporary path, touch no other path |
| UrlInput.Classify | client/src/app/components/UrlInput.tsx:25-38 | Blank exactly for all-whitespace text; NotHttp exactly for non-blank text without the case-sensitive "http" prefix; Accepted exactly with the prefix |
| UrlInput.ErrorText | client/src/app/components/UrlInput.tsx:25-38 | the error is empty exactly for an accepted url |
| UrlInput.BlankButEnabled | client/src/app/components/UrlInput.tsx:66 | a whitespace-only url enables the button, and submitting it reports "Please enter a URL" |
| UrlInput.AcceptedEnablesSubmit | client/src/app/components/UrlInput.tsx:66 | the button is disabled while loading and for an empty field, and enabled for every url the submit would accept |
| UrlInput.LeadingBlankRejected | client/src/app/components/UrlInput.tsx:31-34 | the prefix check is on the untrimmed text, so a leading blank is rejected |
| UrlInput.UpperCaseSchemeRejected | client/src/app/components/UrlInput.tsx:31-34 | the prefix check is case-sensitive |
| UrlInput.Input.constructor | client/src/app/components/UrlInput.tsx:12-13 | url and error start empty and nothing has been submitted |
| UrlInput.Input.Submit | client/src/app/components/UrlInput.tsx:25-38 | the url is kept, the error is the outcome's message, and `onUrlSubmit` is called once with the untrimmed url exactly when it is accepted |
| UrlInput.Input.Edit | client/src/app/components/UrlInput.tsx:48-51 | the url becomes the new text and the error is cleared |
| UrlInput.Input.Paste | client/src/app/components/UrlInput.tsx:15-23 | a successful read replaces the url and clears the error; a failed read changes nothing |
| QualityRoundTrip.QueryValue | server/Controllers/DownloadController.cs:31 | a value found comes from a pair `key=value` with no pair named `key` before it; none is found exactly when no pair starts with `key=` |
| QualityRoundTrip.BoundQuality | server/Controllers/DownloadController.cs:31 | an absent quality is "best"; a present one is decoded, and null when the decoded text is empty or all white space |
| QualityRoundTrip.BoundUrl | server/Controllers/DownloadController.cs:31 | the url is null exactly when absent or decoded to empty or all-white-space text, otherwise the decoded value |
| QualityRoundTrip.QualityParamDecodes | server/Controllers/DownloadController.cs:31 | a quality parameter the client can send decodes to itself and is not white space, so the binder keeps it |
| QualityRoundTrip.ServerQuality | server/Controllers/DownloadController.cs:31 | `Get` receives the quality the client sent, or "best" when it sent none |
| QualityRoundTrip.QueryCarriesUrl | client/src/app/components/DownloadOptions.tsx:19 | `Get` receives exactly the page url the client encoded, whatever characters it holds, or null when that url is empty or all white space |
| QualityRoundTrip.RequestLaunch | server/Controllers/DownloadController.cs:31-49 | a request built by a download button starts yt-dlp on the client's page url, with the selector derived from the button's parameter |
| QualityRoundTrip.EncodedHasNoSeparator | client/src/app/components/DownloadOptions.tsx:19 | the encoded page url has no '&' |
| QualityRoundTrip.QueryShape | client/src/app/components/DownloadOptions.tsx:19 | the query is the url pair, then, only for a non-empty quality, '&' and the quality pair |
| QualityRoundTrip.QueryPairs | client/src/app/components/DownloadOptions.tsx:19 | split at '&', the query's first pair is the whole url pair, followed by the pieces of the quality pair |
| QualityRoundTrip.QueryCarriesQuality | client/src/app/components/DownloadOptions.tsx:19 | whatever the page url, the server reads back exactly the quality parameter the client sent, or none |
| QualityRoundTrip.HeightReachesSelector | client/src/app/components/DownloadOptions.tsx:35-38 | a label with a `<w>x<h>` match makes the server select `height<=h` |
| QualityRoundTrip.NoMatchReachesBest | server/Controllers/DownloadController.cs:45-46 | a label with no match, or no quality, makes the server select "best[ext=mp4]/best" |
| QualityRoundTrip.ButtonRequest | client/src/app/components/DownloadOptions.tsx:17-63 | a button's URL is the API url, "/api/Download?" and a query from which the server binds the client's page url, or null for an empty or all-white-space one, and selects the best file when the label has no `<w>x<h>` match |
| QualityRoundTrip.ButtonSelectsHeight | client/src/app/components/DownloadOptions.tsx:35-63 | a button whose label has a `<w>x<h>` match makes the server select `height<=h` |
| UrlDecoding.HexValue | server/Controllers/DownloadController.cs:31 | a hexadecimal digit of either case has a value below 16 |
| UrlDecoding.EscapedByte | server/Controllers/DownloadController.cs:31 | a byte is read exactly when the text starts with '%' and two hexadecimal digits |
| UrlDecoding.EscapedBytes | server/Controllers/DownloadController.cs:31 | a run of n escapes gives n bytes and uses 3n characters |
| UrlDecoding.DecodeUtf8 | server/Controllers/DownloadController.cs:31 | a character is decoded only from exactly its own UTF-8 encoding (no overlong forms, no surrogates) |
| UrlDecoding.EncodesBits | server/Controllers/DownloadController.cs:31 | re-encoding the bits of a well-formed UTF-8 sequence gives the sequence back |
| UrlDecoding.BitsOfUtf8 | client/src/app/components/DownloadOptions.tsx:19 | the bits carried by a scalar value's UTF-8 encoding are that scalar value |
| UrlDecoding.Utf8Decodes | client/src/app/components/DownloadOptions.tsx:19 | every character decodes back from its UTF-8 encoding |
| UrlDecoding.QueryDecode | server/Controllers/DownloadController.cs:31 | decoding never lengthens the text |
| UrlDecoding.DecodedEscape | server/Controllers/DownloadController.cs:31 | a decoded escape run has one to four escapes, all inside the text |
| UrlDecoding.DecodePlain | server/Controllers/DownloadController.cs:31 | text without '+' and '%' decodes to itself |
| UrlDecoding.EscapedPercentBytes | client/src/app/components/DownloadOptions.tsx:19 | the escapes written for a byte sequence read back as that sequence, whatever follows |
| UrlDecoding.DecodeEncodedChar | client/src/app/components/DownloadOptions.tsx:19 | decoding undoes the encoding of one character, whatever follows it |
| UrlDecoding.DecodeEncode | client/src/app/components/DownloadOptions.tsx:19 | decoding the output of `encodeURIComponent` gives the input back, for every string |
| QualityRoundTrip.PortraitExample | client/src/app/components/DownloadOptions.tsx:34-38 | the "1080x1920" option is downloaded with `height<=1920` |

## Left out

- Process spawning and output capture (server/Services/YtDlpService.cs:14-29, server/Controllers/DownloadController.cs:53-68) are not modelled. The metadata run's outcome (`MetadataRun`: its exit code, stdout and stderr, or the message of an exception raised while starting or reading it) and the download run's (`DownloadController.DownloadRun`) are inputs, and so is what yt-dlp writes to disk. The choice of the binary name is omitted.
- DownloadController.OtherFilesUnchanged: yt-dlp is assumed to write nothing except its output at the temporary path. Its intermediate `video_<guid>.fNNN.*` and `.part` files and its cache, which a failed run can leave behind, are not modelled; the lemma speaks of the action's own file operations and that one output.
- The model is of a Unix host: `DotNetText.PathCombine` joins with '/' only, and `ProcessArguments.Split` follows .NET's Unix splitting. Windows paths and the Windows binary name `yt-dlp.exe` are not modelled.
- ProcessArguments.Split: the line is split by the rules .NET applies to `ProcessStartInfo.Arguments` on Unix. On Windows the line reaches yt-dlp whole and yt-dlp's runtime splits it; that parser is not modelled. The lemmas about the two argument lines hold for pieces without quotes and backslashes.
- The temporary directory and `Guid.NewGuid()` are inputs. That the GUID is unique, and so that the temporary file is new, is not modelled.
- The file system is modelled as a map from path to bytes. `File.Exists` is membership, and `File.Delete` either removes the entry or raises. The `FileStream`/`MemoryStream` copy becomes the bytes and their position.
- `JsonDocument.Parse` is abstract: its outcome, a tree or the parser's message, is an input. JSON numbers are kept as their literal text.
- Json.ErrorMessage: the exception messages of System.Text.Json are paraphrased in the library's style. They are not taken from the library's resources.
- Logging (`_logger`, `console.error`) is omitted because it has no effect on results.
- ASP.NET routing and attributes are not modelled, nor the `[ApiController]` automatic validation of a missing `url`; `Get`'s `url` is an `Option<string>`.
- ASP.NET's query parsing and model binding are framework code, not part of this repository. `UrlDecoding.QueryDecode` models them for well-formed input: '+' is a space, and escapes spelling the UTF-8 encoding of a character become that character.
- UrlDecoding.QueryDecode: an escape that does not decode is kept as literal text. The framework's exact treatment of malformed escapes is not reproduced; the client never produces them.
- QualityRoundTrip.QueryValue: names are compared without decoding. The client builds exactly one `url` and at most one `quality` pair.
- QualityRoundTrip.BoundQuality: a `quality=` value that decodes to empty or all-white-space text binds to null, which selects the best file like the default does.
- DotNetText.ToLower: culture-sensitive lower-casing is modelled as ASCII lower-casing.
- JsText.EncodeUriComponent: a lone surrogate, which makes `encodeURIComponent` throw, cannot occur because Dafny strings hold Unicode scalar values.
- React rendering is not modelled, and neither are `page.tsx` (fetching and loading state) and `StatusFeedback.tsx`. `isLoading` is a parameter of the submit-enabled predicate.
- `navigator.clipboard.writeText`, `alert` and `handleCopyLink` are not modelled. The `window.location` assignment is modelled only as the URL it assigns.
- client/src/app/types.ts and the service interfaces are declarations only; they are not part of this model.
- async/await is omitted: every operation runs sequentially.

/** client/src/app/components/UrlInput.tsx: the `url` and `error` state of the input
    box, the three handlers that change it, and when the submit button is enabled. The
    clipboard read is an input: the text it resolved with, or `None` when it rejected. */
module UrlInput {
  import opened Wrappers
  import opened JsText

  /** The three outcomes of `handleSubmit`. */
  datatype Verdict = Blank | NotHttp | Accepted

  const EnterUrl: string := "Please enter a URL"
  const EnterHttpUrl: string := "Please enter a valid URL starting with http/https"

  /** The checks of `handleSubmit`, in order: blank after trimming, then the case-sensitive
      "http" prefix of the untrimmed text. */
  function Classify(url: string): (v: Verdict)
    ensures v == Blank <==> AllJsWhiteSpace(url)
    ensures v == NotHttp <==> !AllJsWhiteSpace(url) && !StartsWith(url, "http")
    ensures v == Accepted <==> StartsWith(url, "http")
  {
    TrimEmptyIffBlank(url);
    assert StartsWith(url, "http") ==> !IsJsWhiteSpace(url[0]);
    if Trim(url) == "" then Blank
    else if !StartsWith(url, "http") then NotHttp
    else Accepted
  }

  /** The error message each outcome leaves behind: none only for an accepted url. */
  function ErrorText(v: Verdict): (e: string)
    ensures e == "" <==> v == Accepted
  {
    match v
    case Blank => EnterUrl
    case NotHttp => EnterHttpUrl
    case Accepted => ""
  }

  /** `disabled={isLoading || !url}`, negated. */
  predicate SubmitEnabledFor(isLoading: bool, url: string) {
    !isLoading && url != ""
  }

  /** The button is disabled while loading and for an empty field; every url the submit
      would accept enables it when nothing is loading. */
  lemma AcceptedEnablesSubmit(isLoading: bool, url: string)
    ensures isLoading || url == [] ==> !SubmitEnabledFor(isLoading, url)
    ensures !isLoading && Classify(url) == Accepted ==> SubmitEnabledFor(isLoading, url)
  {
  }

  /** A url of blanks enables the button, and the submit then reports a missing url. */
  lemma BlankButEnabled(url: string)
    requires url != "" && AllJsWhiteSpace(url)
    ensures SubmitEnabledFor(false, url)
    ensures ErrorText(Classify(url)) == EnterUrl
  {
  }

  /** Leading blanks are not trimmed before the "http" check. */
  lemma LeadingBlankRejected(rest: string)
    requires StartsWith(rest, "http")
    ensures Classify(" " + rest) == NotHttp
  {
    assert !IsJsWhiteSpace(rest[0]);
    assert (" " + rest)[1] == rest[0];
  }

  /** The prefix check is case-sensitive. */
  lemma UpperCaseSchemeRejected(rest: string)
    ensures Classify("HTTP" + rest) == NotHttp
  {
    assert ("HTTP" + rest)[0] == 'H';
  }

  class Input {
    var url: string
    var error: string
    /** The arguments `onUrlSubmit` has been called with, oldest first. */
    var submitted: seq<string>

    constructor()
      ensures url == "" && error == "" && submitted == []
    {
      url := "";
      error := "";
      submitted := [];
    }

    /** `handleSubmit`. */
    method Submit()
      modifies this
      ensures url == old(url)
      ensures error == ErrorText(Classify(old(url)))
      ensures submitted == old(submitted) + (if Classify(old(url)) == Accepted then [old(url)] else [])
    {
      if Trim(url) == "" {
        error := EnterUrl;
        return;
      }
      if !StartsWith(url, "http") {
        error := EnterHttpUrl;
        return;
      }
      error := "";
      submitted := submitted + [url];
    }

    /** The input's `onChange` handler. */
    method Edit(text: string)
      modifies this
      ensures url == text && error == "" && submitted == old(submitted)
    {
      url := text;
      if error != "" {
        error := "";
      }
    }

    /** `handlePaste`: the clipboard text replaces the url and clears the error; a rejected
        read changes nothing. */
    method Paste(clipboard: Option<string>)
      modifies this
      ensures clipboard.Some? ==> url == clipboard.value && error == ""
      ensures clipboard.None? ==> url == old(url) && error == old(error)
      ensures submitted == old(submitted)
    {
      if clipboard.Some? {
        url := clipboard.value;
        error := "";
      }
    }

    predicate SubmitEnabled(isLoading: bool)
      reads this
    {
      SubmitEnabledFor(isLoading, url)
    }
  }
}

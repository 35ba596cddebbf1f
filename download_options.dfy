/** client/src/app/components/DownloadOptions.tsx: `getQualityParam`, `getDownloadLabel`
    and the download URL that `handleDownload` navigates to. The regular expression
    `/(\d+)x(\d+)/` is given a declarative meaning (`ChosenMatch`) and a scanner that is
    proved to find exactly that match. */
module DownloadOptions {
  import opened Wrappers
  import opened Models
  import JsText

  // ---------------------------------------------------------------------------
  // The regular expression (\d+)x(\d+), unanchored

  /** `\d` in a JavaScript regular expression without the `u` flag: ASCII digits. */
  predicate IsDigit(c: char) {
    '0' <= c <= '9'
  }

  predicate AllDigits(s: string) {
    forall k :: 0 <= k < |s| ==> IsDigit(s[k])
  }

  /** The pattern matches `s[i..b]`, with group 1 `s[i..a]`, the 'x' at `a`, and group 2
      `s[a + 1..b]`. */
  ghost predicate MatchAt(s: string, i: int, a: int, b: int) {
    0 <= i < a && a + 1 < b <= |s| && AllDigits(s[i..a]) && s[a] == 'x' && AllDigits(s[a + 1..b])
  }

  /** The match `String.prototype.match` reports: the leftmost start, then (backtracking
      from greedy quantifiers) the longest group 1, then the longest group 2. */
  ghost predicate ChosenMatch(s: string, i: int, a: int, b: int) {
    && MatchAt(s, i, a, b)
    && (forall i', a', b' :: MatchAt(s, i', a', b') ==> i <= i')
    && (forall a', b' :: MatchAt(s, i, a', b') ==> a' <= a)
    && (forall b' :: MatchAt(s, i, a, b') ==> b' <= b)
  }

  ghost predicate HasMatch(s: string) {
    exists i, a, b :: MatchAt(s, i, a, b)
  }

  /** The end of the run of digits that starts at `j`. */
  function DigitRunEnd(s: string, j: nat): (e: nat)
    requires j <= |s|
    ensures j <= e <= |s| && AllDigits(s[j..e])
    ensures e < |s| ==> !IsDigit(s[e])
    decreases |s| - j
  {
    if j < |s| && IsDigit(s[j]) then
      var e := DigitRunEnd(s, j + 1);
      assert s[j..e] == [s[j]] + s[j + 1..e];
      e
    else j
  }

  /** Whether a match starts at `i`: a digit run from `i`, then 'x', then a digit. */
  predicate StartsMatch(s: string, i: nat)
    requires i <= |s|
  {
    i < |s| && IsDigit(s[i]) &&
    var a := DigitRunEnd(s, i);
    a + 1 < |s| && s[a] == 'x' && IsDigit(s[a + 1])
  }

  /** Scans starts from `i` on and returns (start, end of group 1, end of group 2). */
  function FindFrom(s: string, i: nat): (m: Option<(nat, nat, nat)>)
    requires i <= |s|
    decreases |s| - i
  {
    if i == |s| then None
    else if StartsMatch(s, i) then
      var a := DigitRunEnd(s, i);
      Some((i, a, DigitRunEnd(s, a + 1)))
    else FindFrom(s, i + 1)
  }

  /** `s.match(/(\d+)x(\d+)/)`: the start and the two group ends, or null. */
  function Exec(s: string): Option<(nat, nat, nat)> {
    FindFrom(s, 0)
  }

  /** Any match's group 1 ends where the digit run from its start ends, and its group 2
      lies inside the digit run after the 'x'. */
  lemma MatchShape(s: string, i: int, a: int, b: int)
    requires MatchAt(s, i, a, b)
    ensures a == DigitRunEnd(s, i) && b <= DigitRunEnd(s, a + 1)
  {
    var e := DigitRunEnd(s, i);
    var f := DigitRunEnd(s, a + 1);
    forall k | i <= k < a ensures IsDigit(s[k]) { DigitAt(s, i, a, k); }
    forall k | i <= k < e ensures IsDigit(s[k]) { DigitAt(s, i, e, k); }
    forall k | a + 1 <= k < b ensures IsDigit(s[k]) { DigitAt(s, a + 1, b, k); }
  }

  lemma DigitAt(s: string, j: int, e: int, k: int)
    requires 0 <= j <= k < e <= |s| && AllDigits(s[j..e])
    ensures IsDigit(s[k])
  {
    assert s[k] == s[j..e][k - j];
  }

  /** Every match starts where the scanner accepts a start. */
  lemma MatchStarts(s: string, i: int, a: int, b: int)
    requires MatchAt(s, i, a, b)
    ensures StartsMatch(s, i)
  {
    MatchShape(s, i, a, b);
    assert s[i] == s[i..a][0];
    assert s[a + 1] == s[a + 1..b][0];
  }

  /** A start accepted by the scanner gives a match. */
  lemma StartsMatchGivesMatch(s: string, i: nat)
    requires i <= |s| && StartsMatch(s, i)
    ensures MatchAt(s, i, DigitRunEnd(s, i), DigitRunEnd(s, DigitRunEnd(s, i) + 1))
  {
    var a := DigitRunEnd(s, i);
    var b := DigitRunEnd(s, a + 1);
    assert b > a + 1 by {
      assert a + 1 < |s| && IsDigit(s[a + 1]);
    }
  }

  /** The scanner is correct: it finds the chosen match when there is one, starting from
      any position before which nothing matches. */
  lemma {:induction false} FindFromCorrect(s: string, i: nat)
    requires i <= |s|
    requires forall i', a', b' :: MatchAt(s, i', a', b') ==> i <= i'
    ensures FindFrom(s, i).Some? ==>
      var m := FindFrom(s, i).value; ChosenMatch(s, m.0, m.1, m.2)
    ensures FindFrom(s, i).None? ==> !HasMatch(s)
    decreases |s| - i
  {
    if i == |s| {
    } else if StartsMatch(s, i) {
      var a := DigitRunEnd(s, i);
      var b := DigitRunEnd(s, a + 1);
      StartsMatchGivesMatch(s, i);
      forall a', b' | MatchAt(s, i, a', b') ensures a' <= a {
        MatchShape(s, i, a', b');
      }
      forall b' | MatchAt(s, i, a, b') ensures b' <= b {
        MatchShape(s, i, a, b');
      }
    } else {
      forall i', a', b' | MatchAt(s, i', a', b') ensures i + 1 <= i' {
        MatchStarts(s, i', a', b');
      }
      FindFromCorrect(s, i + 1);
    }
  }

  /** `Exec` returns exactly the match `String.prototype.match` reports, and null exactly
      when nothing matches. */
  lemma ExecCorrect(s: string)
    ensures Exec(s).Some? ==> ChosenMatch(s, Exec(s).value.0, Exec(s).value.1, Exec(s).value.2)
    ensures Exec(s).None? <==> !HasMatch(s)
  {
    FindFromCorrect(s, 0);
    if Exec(s).Some? {
      var m := Exec(s).value;
      assert MatchAt(s, m.0, m.1, m.2);
    }
  }

  /** The chosen match is unique, so `Exec` finds every chosen match. */
  lemma ChosenMatchIsExec(s: string, i: int, a: int, b: int)
    requires ChosenMatch(s, i, a, b)
    ensures Exec(s) == Some((i, a, b))
  {
    ExecCorrect(s);
    var m := Exec(s).value;
  }

  // ---------------------------------------------------------------------------
  // getQualityParam (lines 32-41)

  /** What a quality parameter can be: null, "best", or a height in digits and "p". */
  predicate IsQualityParam(q: Option<string>) {
    q.None? || q == Some("best") ||
    (|q.value| >= 2 && q.value[|q.value| - 1] == 'p' && AllDigits(q.value[..|q.value| - 1]))
  }

  /** `getQualityParam(quality)`: no parameter for a null or empty text; group 2 of the
      match and "p" when the text contains `<digits>x<digits>`; "best" otherwise. */
  function QualityParam(quality: Option<string>): (r: Option<string>)
    ensures IsQualityParam(r)
    ensures r.None? <==> quality == None || quality == Some("")
  {
    if quality == None || quality == Some("") then None
    else match Exec(quality.value)
      case Some((i, a, b)) =>
        ExecCorrect(quality.value);
        assert (quality.value[a + 1..b] + "p")[..b - a - 1] == quality.value[a + 1..b];
        Some(quality.value[a + 1..b] + "p")
      case None => Some("best")
  }

  /** With a match, the parameter is the height group of the reported match and "p". */
  lemma QualityParamOfMatch(text: string, i: int, a: int, b: int)
    requires ChosenMatch(text, i, a, b)
    ensures QualityParam(Some(text)) == Some(text[a + 1..b] + "p")
  {
    ChosenMatchIsExec(text, i, a, b);
  }

  /** Without a match ("Audio", "Default", "Unknown", "720p", ...), a non-empty text asks for "best". */
  lemma QualityParamWithoutMatch(text: string)
    requires text != "" && !HasMatch(text)
    ensures QualityParam(Some(text)) == Some("best")
  {
    ExecCorrect(text);
  }

  /** A whole `<width>x<height>` text gives its height: "1080x1920" gives "1920p". */
  lemma QualityParamOfResolution(width: string, height: string)
    requires width != [] && height != [] && AllDigits(width) && AllDigits(height)
    ensures QualityParam(Some(width + "x" + height)) == Some(height + "p")
  {
    var s := width + "x" + height;
    var a := |width|;
    assert s[0..a] == width && s[a] == 'x' && s[a + 1..|s|] == height;
    assert MatchAt(s, 0, a, |s|);
    forall a', b' | MatchAt(s, 0, a', b') ensures a' <= a {
      MatchShape(s, 0, a', b');
    }
    QualityParamOfMatch(s, 0, a, |s|);
  }

  lemma QualityParamExamples()
    ensures QualityParam(Some("1080x1920")) == Some("1920p")
    ensures QualityParam(Some("Audio")) == Some("best")
    ensures QualityParam(None) == None && QualityParam(Some("")) == None
  {
    assert "1080" + "x" + "1920" == "1080x1920";
    QualityParamOfResolution("1080", "1920");
    assert "1920" + "p" == "1920p";
    NoDigitsNoMatch("Audio");
  }

  /** A text without digits has no match. */
  lemma NoDigitsNoMatch(s: string)
    requires forall k :: 0 <= k < |s| ==> !IsDigit(s[k])
    ensures !HasMatch(s)
  {
    forall i, a, b ensures !MatchAt(s, i, a, b) {
      if 0 <= i < a <= |s| {
        assert s[i..a][0] == s[i];
      }
    }
  }

  // ---------------------------------------------------------------------------
  // getDownloadLabel (lines 25-30)

  /** The quality a text shows: its text when truthy, nothing for null or "". */
  function ShownQuality(o: DownloadOption): string {
    if o.quality.Some? then o.quality.value else ""
  }

  /** `getDownloadLabel(option)`. */
  function DownloadLabel(o: DownloadOption): (r: string)
    ensures |r| >= 9 && r[..9] == "Download "
    ensures ShownQuality(o) == "" ==> r == "Download " + o.kind
    ensures ShownQuality(o) != "" ==> r == "Download " + ShownQuality(o) + " (" + o.kind + ")"
  {
    if o.quality.Some? && o.quality.value != "" then "Download " + o.quality.value + " (" + o.kind + ")"
    else "Download " + o.kind
  }

  /** Where the kind and the quality sit in a label of a known kind. */
  lemma LabelParts(o: DownloadOption)
    requires HasKnownKind(o)
    ensures var l := DownloadLabel(o);
      && (ShownQuality(o) == "" ==> |l| == 14 && l[9..] == o.kind && l[13] == 'o')
      && (ShownQuality(o) != "" ==>
            |l| >= 18 && l[|l| - 1] == ')' && l[|l| - 6..|l| - 1] == o.kind && l[9..|l| - 8] == ShownQuality(o))
  {
    var l := DownloadLabel(o);
    if ShownQuality(o) == "" {
      assert l == "Download " + o.kind;
    } else {
      var q := ShownQuality(o);
      assert l == "Download " + q + " (" + o.kind + ")";
      assert l[9..|l| - 8] == q;
      assert l[|l| - 6..|l| - 1] == o.kind;
    }
  }

  /** Labels tell options apart by what they show: for options of a known kind, equal
      labels mean the same kind and the same shown quality. */
  lemma DownloadLabelInjective(o1: DownloadOption, o2: DownloadOption)
    requires HasKnownKind(o1) && HasKnownKind(o2)
    requires DownloadLabel(o1) == DownloadLabel(o2)
    ensures o1.kind == o2.kind && ShownQuality(o1) == ShownQuality(o2)
  {
    LabelParts(o1);
    LabelParts(o2);
  }

  // ---------------------------------------------------------------------------
  // The download URL (lines 18-19)

  const DefaultApiUrl: string := "https://localhost:8084"

  /** `process.env.NEXT_PUBLIC_API_URL || 'https://localhost:8084'`. */
  function ApiUrl(env: Option<string>): (r: string)
    ensures env.Some? && env.value != "" ==> r == env.value
    ensures env.None? || env == Some("") ==> r == DefaultApiUrl
  {
    if env.Some? && env.value != "" then env.value else DefaultApiUrl
  }

  /** The query part: the encoded page url, then `&quality=` and the parameter unencoded
      when it is truthy. */
  function DownloadQuery(originalUrl: string, quality: Option<string>): string {
    "url=" + JsText.EncodeUriComponent(originalUrl) +
    (if quality.Some? && quality.value != "" then "&quality=" + quality.value else "")
  }

  /** The URL `handleDownload` navigates to: the API url, the endpoint's path, then the query. */
  function DownloadUrl(env: Option<string>, originalUrl: string, quality: Option<string>): (r: string)
    ensures |r| >= |ApiUrl(env)| + 14 && r[..|ApiUrl(env)|] == ApiUrl(env)
    ensures r[|ApiUrl(env)|..|ApiUrl(env)| + 14] == "/api/Download?"
    ensures r[|ApiUrl(env)| + 14..] == DownloadQuery(originalUrl, quality)
  {
    ApiUrl(env) + "/api/Download?" + DownloadQuery(originalUrl, quality)
  }

  /** The URL a download button opens for an option. */
  function ButtonUrl(env: Option<string>, originalUrl: string, o: DownloadOption): string {
    DownloadUrl(env, originalUrl, QualityParam(o.quality))
  }
}

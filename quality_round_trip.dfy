/** The quality preference on its way from a download button to yt-dlp: the client's
    `getQualityParam` and download URL (client/src/app/components/DownloadOptions.tsx),
    the query-string binding of `Get`'s `url` and `quality` parameters, and the server's
    `formatSelection` (server/Controllers/DownloadController.cs). */
module QualityRoundTrip {
  import opened Wrappers
  import opened JsText
  import opened DownloadOptions
  import opened DownloadController
  import opened DotNetText
  import opened UrlDecoding
  import opened Models

  /** Splits a query string into its `name=value` pairs. */
  function SplitOn(s: string, sep: char): (r: seq<string>)
    ensures |r| >= 1
    ensures forall k :: 0 <= k < |r| ==> sep !in r[k]
    decreases |s|
  {
    if s == [] then [""]
    else
      var rest := SplitOn(s[1..], sep);
      if s[0] == sep then [""] + rest
      else [[s[0]] + rest[0]] + rest[1..]
  }

  lemma {:induction false} SplitOnNone(a: string, sep: char)
    requires sep !in a
    ensures SplitOn(a, sep) == [a]
    decreases |a|
  {
    if a != [] {
      SplitOnNone(a[1..], sep);
      assert [a[0]] + a[1..] == a;
    }
  }

  lemma {:induction false} SplitOnFirst(a: string, sep: char, b: string)
    requires sep !in a
    ensures SplitOn(a + [sep] + b, sep) == [a] + SplitOn(b, sep)
    decreases |a|
  {
    var s := a + [sep] + b;
    if a == [] {
      assert s[1..] == b;
    } else {
      assert s[0] == a[0] && s[1..] == a[1..] + [sep] + b;
      SplitOnFirst(a[1..], sep, b);
      assert [a[0]] + a[1..] == a;
    }
  }

  /** The pairs before `k` are not named `key`. */
  predicate NoneNamedBefore(pairs: seq<string>, key: string, k: int)
    requires 0 <= k <= |pairs|
  {
    forall j :: 0 <= j < k ==> !StartsWith(pairs[j], key + "=")
  }

  /** The raw value of the first pair named `key`. */
  function QueryValue(pairs: seq<string>, key: string): (r: Option<string>)
    ensures r.Some? ==> exists k :: 0 <= k < |pairs| && pairs[k] == key + "=" + r.value && NoneNamedBefore(pairs, key, k)
    ensures r.None? ==> forall k :: 0 <= k < |pairs| ==> !StartsWith(pairs[k], key + "=")
  {
    if pairs == [] then None
    else if StartsWith(pairs[0], key + "=") then
      var v := pairs[0][|key| + 1..];
      assert pairs[0] == key + "=" + v && NoneNamedBefore(pairs, key, 0);
      Some(v)
    else
      var r := QueryValue(pairs[1..], key);
      assert r.Some? ==> exists k :: 1 <= k < |pairs| && pairs[k] == key + "=" + r.value && NoneNamedBefore(pairs, key, k) by {
        if r.Some? {
          var k :| 0 <= k < |pairs[1..]| && pairs[1..][k] == key + "=" + r.value && NoneNamedBefore(pairs[1..], key, k);
          assert pairs[k + 1] == pairs[1..][k];
          forall j | 0 <= j < k + 1 ensures !StartsWith(pairs[j], key + "=") {
            if j > 0 { assert pairs[j] == pairs[1..][j - 1]; }
          }
        }
      }
      assert r.None? ==> forall k :: 1 <= k < |pairs| ==> !StartsWith(pairs[k], key + "=") by {
        if r.None? {
          forall k | 1 <= k < |pairs| ensures !StartsWith(pairs[k], key + "=") {
            assert pairs[k] == pairs[1..][k - 1];
          }
        }
      }
      r
  }

  /** `[FromQuery] string? quality = "best"`: the default when the query has no value;
      otherwise the decoded value, or null when that is empty or all white space (the
      string binder converts such values to null). */
  function BoundQuality(raw: Option<string>): (q: Option<string>)
    ensures raw.None? ==> q == Some(DefaultQuality)
    ensures raw.Some? ==> (q.None? <==> IsNullOrWhiteSpace(Some(QueryDecode(raw.value))))
    ensures raw.Some? && q.Some? ==> q.value == QueryDecode(raw.value)
  {
    if raw.None? then Some(DefaultQuality)
    else if IsNullOrWhiteSpace(Some(QueryDecode(raw.value))) then None
    else Some(QueryDecode(raw.value))
  }

  /** `[FromQuery] string url`: null when the query has no value or one that decodes to
      empty or all-white-space text, otherwise the decoded value. */
  function BoundUrl(raw: Option<string>): (u: Option<string>)
    ensures u.None? <==> raw.None? || IsNullOrWhiteSpace(Some(QueryDecode(raw.value)))
    ensures u.Some? ==> u.value == QueryDecode(raw.value)
  {
    if raw.None? || IsNullOrWhiteSpace(Some(QueryDecode(raw.value))) then None else Some(QueryDecode(raw.value))
  }

  /** The selector the server builds for a request with this query string. */
  function ServerSelection(query: string): string {
    FormatSelection(BoundQuality(QueryValue(SplitOn(query, '&'), "quality")))
  }

  /** The page url, percent-encoded, cannot contain a pair separator. */
  lemma EncodedHasNoSeparator(originalUrl: string)
    ensures '&' !in EncodeUriComponent(originalUrl)
  {
    var e := EncodeUriComponent(originalUrl);
    forall k | 0 <= k < |e| ensures e[k] != '&' {
      assert IsEncodedChar(e[k]);
    }
  }

  /** A url pair whose value has no separator is one pair, and not a quality pair. */
  lemma UrlPairOf(e: string)
    requires '&' !in e
    ensures var p := "url=" + e;
      '&' !in p && !StartsWith(p, "quality" + "=")
  {
    var p := "url=" + e;
    var key := "quality" + "=";
    assert '&' !in "url=";
    assert key[0] == 'q' && p[0] == 'u';
    assert |key| <= |p| ==> p[..|key|][0] == p[0];
  }

  /** The url pair the client writes has no separator and is not a quality pair. */
  lemma UrlPair(originalUrl: string)
    ensures var p := "url=" + EncodeUriComponent(originalUrl);
      '&' !in p && !StartsWith(p, "quality" + "=")
  {
    EncodedHasNoSeparator(originalUrl);
    UrlPairOf(EncodeUriComponent(originalUrl));
  }

  /** The url pair's name, written as the server looks it up; over a plain `e` for the
      same reason as `QualityTail`. */
  lemma UrlKey(e: string)
    ensures "url" + "=" + e == "url=" + e
  {
  }

  /** The value of a query whose first pair has the name. */
  lemma FirstPairValue(pairs: seq<string>, key: string, v: string)
    requires |pairs| >= 1 && pairs[0] == key + "=" + v
    ensures QueryValue(pairs, key) == Some(v)
  {
    assert pairs[0][..|key| + 1] == key + "=";
  }

  /** A quality pair with a parameter the client can send has no separator and reads back. */
  lemma QualityPair(q: string)
    requires IsQualityParam(Some(q))
    ensures var p := "quality=" + q;
      '&' !in p && StartsWith(p, "quality" + "=") && p[|"quality"| + 1..] == q
  {
    var p := "quality=" + q;
    forall k | 0 <= k < |p| ensures p[k] != '&' {
      if k >= 8 {
        assert p[k] == q[k - 8];
        if q != "best" && k - 8 < |q| - 1 {
          assert q[k - 8] == q[..|q| - 1][k - 8];
        }
      }
    }
    assert p[..8] == "quality=";
  }

  /** The query the client builds is the url pair, then, for a truthy parameter, '&' and
      the quality pair. */
  lemma QueryShape(originalUrl: string, quality: Option<string>)
    ensures var urlPair := "url=" + EncodeUriComponent(originalUrl);
      DownloadQuery(originalUrl, quality) ==
        if quality.Some? && quality.value != "" then urlPair + ['&'] + ("quality=" + quality.value)
        else urlPair
  {
    if quality.Some? && quality.value != "" {
      QualityTail("url=" + EncodeUriComponent(originalUrl), quality.value);
    }
  }

  /** The quality pair after the url pair. Stated over a plain `urlPair`, so that the
      reasoning about concatenation never sees `EncodeUriComponent`'s contract. */
  lemma QualityTail(urlPair: string, q: string)
    ensures urlPair + ("&quality=" + q) == urlPair + ['&'] + ("quality=" + q)
  {
    assert "&quality=" + q == ['&'] + ("quality=" + q);
  }

  /** The pairs of the query the client builds: the url pair, then the quality pair's. */
  lemma QueryPairs(originalUrl: string, quality: Option<string>)
    ensures var urlPair := "url=" + EncodeUriComponent(originalUrl);
      var pairs := SplitOn(DownloadQuery(originalUrl, quality), '&');
      if quality.Some? && quality.value != "" then
        pairs == [urlPair] + SplitOn("quality=" + quality.value, '&')
      else pairs == [urlPair]
  {
    var urlPair := "url=" + EncodeUriComponent(originalUrl);
    UrlPair(originalUrl);
    QueryShape(originalUrl, quality);
    if quality.Some? && quality.value != "" {
      SplitOnFirst(urlPair, '&', "quality=" + quality.value);
    } else {
      SplitOnNone(urlPair, '&');
    }
  }

  /** The query the client builds splits into the url pair and, when present, the quality
      pair; so the server reads back exactly the parameter the client sent, whatever the
      page url contains. */
  lemma QueryCarriesQuality(originalUrl: string, quality: Option<string>)
    requires IsQualityParam(quality)
    ensures QueryValue(SplitOn(DownloadQuery(originalUrl, quality), '&'), "quality") == quality
  {
    var urlPair := "url=" + EncodeUriComponent(originalUrl);
    var pairs := SplitOn(DownloadQuery(originalUrl, quality), '&');
    UrlPair(originalUrl);
    QueryPairs(originalUrl, quality);
    if quality.Some? {
      var qualityPair := "quality=" + quality.value;
      QualityPair(quality.value);
      SplitOnNone(qualityPair, '&');
      assert pairs == [urlPair, qualityPair];
      assert pairs[1..] == [qualityPair];
    }
  }

  /** A quality parameter the client can send is left alone by the decoder, and it is not
      white space, so the binder keeps it. */
  lemma QualityParamDecodes(q: string)
    requires IsQualityParam(Some(q))
    ensures QueryDecode(q) == q
    ensures !IsNullOrWhiteSpace(Some(q))
  {
    assert q[|q| - 1] == 'p' || q[|q| - 1] == 't';
    forall k | 0 <= k < |q| ensures q[k] != '+' && q[k] != '%' {
      if q != "best" && k < |q| - 1 {
        assert q[k] == q[..|q| - 1][k];
      }
    }
    DecodePlain(q);
  }

  /** The quality `Get` is called with: the one the client sent, or the default. */
  lemma ServerQuality(originalUrl: string, quality: Option<string>)
    requires IsQualityParam(quality)
    ensures BoundQuality(QueryValue(SplitOn(DownloadQuery(originalUrl, quality), '&'), "quality"))
      == if quality.None? then Some(DefaultQuality) else quality
  {
    QueryCarriesQuality(originalUrl, quality);
    if quality.Some? {
      QualityParamDecodes(quality.value);
    }
  }

  /** The url `Get` is called with is the page url the client encoded, whatever characters
      it holds; an empty page url binds to null. */
  lemma QueryCarriesUrl(originalUrl: string, quality: Option<string>)
    ensures BoundUrl(QueryValue(SplitOn(DownloadQuery(originalUrl, quality), '&'), "url"))
      == if IsNullOrWhiteSpace(Some(originalUrl)) then None else Some(originalUrl)
  {
    var pairs := SplitOn(DownloadQuery(originalUrl, quality), '&');
    var e := EncodeUriComponent(originalUrl);
    QueryPairs(originalUrl, quality);
    assert pairs[0] == "url=" + e;
    UrlKey(e);
    FirstPairValue(pairs, "url", e);
    DecodeEncode(originalUrl);
  }

  /** A request built from a download button starts yt-dlp on the page url the client
      had, with the selector the server derives from the button's parameter. */
  lemma RequestLaunch(disk: Disk, originalUrl: string, quality: Option<string>, host: Host)
    requires !IsNullOrWhiteSpace(Some(originalUrl))
    requires IsQualityParam(quality)
    ensures var query := DownloadQuery(originalUrl, quality);
      var pairs := SplitOn(query, '&');
      Handle(disk, BoundUrl(QueryValue(pairs, "url")), BoundQuality(QueryValue(pairs, "quality")),
        host).launched
      == [Arguments(ServerSelection(query), TempFilePath(host.tempDir, host.guid), originalUrl)]
  {
    var query := DownloadQuery(originalUrl, quality);
    var pairs := SplitOn(query, '&');
    QueryCarriesUrl(originalUrl, quality);
    assert BoundUrl(QueryValue(pairs, "url")) == Some(originalUrl);
    OneLaunch(disk, Some(originalUrl), BoundQuality(QueryValue(pairs, "quality")), host);
  }

  /** A button whose label contains a `<width>x<height>` match asks yt-dlp for at most
      that height. */
  lemma HeightReachesSelector(originalUrl: string, text: string, i: int, a: int, b: int)
    requires ChosenMatch(text, i, a, b)
    ensures ServerSelection(DownloadQuery(originalUrl, QualityParam(Some(text))))
      == HeightSelector(text[a + 1..b])
  {
    QualityParamOfMatch(text, i, a, b);
    var q := QualityParam(Some(text));
    ServerQuality(originalUrl, q);
    var h := text[a + 1..b];
    assert h != [] && forall k :: 0 <= k < |h| ==> '0' <= h[k] <= '9';
    HeightParameter(h);
  }

  /** A button without such a match, or without a quality, gets the best single file. */
  lemma NoMatchReachesBest(originalUrl: string, quality: Option<string>)
    requires quality.None? || quality == Some("") || !HasMatch(quality.value)
    ensures ServerSelection(DownloadQuery(originalUrl, QualityParam(quality))) == BestSelector
  {
    var q := QualityParam(quality);
    if quality.Some? && quality.value != "" {
      QualityParamWithoutMatch(quality.value);
    }
    ServerQuality(originalUrl, q);
    BestSpellings();
  }

  /** The URL a download button opens: the API url, the endpoint, and a query from which
      the server binds the page url the client had, and selects the best file when the
      option's label has no `<w>x<h>` match. */
  lemma ButtonRequest(env: Option<string>, originalUrl: string, o: DownloadOption)
    ensures var r := ButtonUrl(env, originalUrl, o);
      var n := |ApiUrl(env)| + 14;
      && |r| >= n && r[..|ApiUrl(env)|] == ApiUrl(env) && r[|ApiUrl(env)|..n] == "/api/Download?"
      && BoundUrl(QueryValue(SplitOn(r[n..], '&'), "url")) == (if IsNullOrWhiteSpace(Some(originalUrl)) then None else Some(originalUrl))
      && (o.quality.None? || o.quality == Some("") || !HasMatch(o.quality.value) ==>
            ServerSelection(r[n..]) == BestSelector)
  {
    QueryCarriesUrl(originalUrl, QualityParam(o.quality));
    if o.quality.None? || o.quality == Some("") || !HasMatch(o.quality.value) {
      NoMatchReachesBest(originalUrl, o.quality);
    }
  }

  /** A button whose label has a `<w>x<h>` match makes the server cap the height at h. */
  lemma ButtonSelectsHeight(env: Option<string>, originalUrl: string, o: DownloadOption, i: int, a: int, b: int)
    requires o.quality.Some? && ChosenMatch(o.quality.value, i, a, b)
    ensures ServerSelection(ButtonUrl(env, originalUrl, o)[|ApiUrl(env)| + 14..])
      == HeightSelector(o.quality.value[a + 1..b])
  {
    HeightReachesSelector(originalUrl, o.quality.value, i, a, b);
  }

  /** The option yt-dlp reports as "1080x1920" is downloaded with `height<=1920`. */
  lemma PortraitExample(originalUrl: string)
    ensures ServerSelection(DownloadQuery(originalUrl, QualityParam(Some("1080x1920"))))
      == HeightSelector("1920")
  {
    QualityParamExamples();
    ServerQuality(originalUrl, Some("1920p"));
    var h := "1920";
    assert "1920p" == h + "p";
    HeightParameter(h);
  }
}

/** How a single argument line given to `ProcessStartInfo.Arguments` is split into the
    program's argument vector, by the rules .NET uses for this on Unix (the same as those
    of the Microsoft C runtime): blanks and tabs separate arguments outside double quotes;
    double quotes group text and are dropped; `""` inside quotes is one literal quote; a
    run of n backslashes before a double quote gives n / 2 backslashes, and an odd n also
    makes that quote literal; a run of backslashes anywhere else is literal. */
module ProcessArguments {

  predicate IsSeparator(c: char) {
    c == ' ' || c == '\t'
  }

  /** The number of backslashes with which `s` starts. */
  function BackslashRun(s: string): (n: nat)
    ensures n <= |s|
    ensures forall k :: 0 <= k < n ==> s[k] == '\\'
    ensures n < |s| ==> s[n] != '\\'
  {
    if s != [] && s[0] == '\\' then 1 + BackslashRun(s[1..]) else 0
  }

  function Backslashes(n: nat): (r: string)
    ensures |r| == n && forall k :: 0 <= k < n ==> r[k] == '\\'
  {
    seq(n, _ => '\\')
  }

  /** Splits `s`; `quoted` says whether a quote is open, `current` is the argument being
      built and `open` says whether one has been started (so that `""` is an argument). */
  function Split(s: string, quoted: bool, current: string, open: bool): seq<string>
    decreases |s|
  {
    if s == [] then (if open then [current] else [])
    else if s[0] == '\\' then
      var n := BackslashRun(s);
      var after := s[n..];
      if after == [] || after[0] != '"' then Split(after, quoted, current + Backslashes(n), true)
      else if n % 2 == 1 then Split(after[1..], quoted, current + Backslashes(n / 2) + "\"", true)
      else Split(after, quoted, current + Backslashes(n / 2), true)
    else if s[0] == '"' then
      if quoted && |s| >= 2 && s[1] == '"' then Split(s[2..], true, current + "\"", true)
      else Split(s[1..], !quoted, current, true)
    else if IsSeparator(s[0]) && !quoted then
      (if open then [current] else []) + Split(s[1..], false, "", false)
    else Split(s[1..], quoted, current + [s[0]], true)
  }

  /** The argument vector the launched program receives. */
  function Argv(line: string): seq<string> {
    Split(line, false, "", false)
  }

  /** Text on which none of the quote and backslash rules acts. */
  predicate Plain(s: string) {
    forall k :: 0 <= k < |s| ==> s[k] != '"' && s[k] != '\\'
  }

  /** Plain text that no separator interrupts either. */
  predicate Word(s: string) {
    forall k :: 0 <= k < |s| ==> s[k] != '"' && s[k] != '\\' && !IsSeparator(s[k])
  }

  /** A word extends the current argument. */
  lemma {:induction false} SplitWord(w: string, rest: string, current: string, open: bool)
    requires Word(w)
    ensures Split(w + rest, false, current, open) == Split(rest, false, current + w, open || w != [])
    decreases |w|
  {
    if w == [] {
      assert w + rest == rest;
      assert current + w == current;
    } else {
      assert (w + rest)[0] == w[0] && (w + rest)[1..] == w[1..] + rest;
      assert Word(w[1..]) by { assert forall k :: 0 <= k < |w[1..]| ==> w[1..][k] == w[k + 1]; }
      SplitWord(w[1..], rest, current + [w[0]], true);
      assert current + [w[0]] + w[1..] == current + w;
    }
  }

  /** Plain text, blanks and tabs included, extends the current argument inside quotes. */
  lemma {:induction false} SplitQuotedText(w: string, rest: string, current: string)
    requires Plain(w)
    ensures Split(w + rest, true, current, true) == Split(rest, true, current + w, true)
    decreases |w|
  {
    if w == [] {
      assert w + rest == rest;
      assert current + w == current;
    } else {
      assert (w + rest)[0] == w[0] && (w + rest)[1..] == w[1..] + rest;
      assert Plain(w[1..]) by { assert forall k :: 0 <= k < |w[1..]| ==> w[1..][k] == w[k + 1]; }
      SplitQuotedText(w[1..], rest, current + [w[0]]);
      assert current + [w[0]] + w[1..] == current + w;
    }
  }

  /** A quoted argument followed by a blank becomes one argument: `"w" rest`. */
  lemma QuotedThenBlank(w: string, rest: string)
    requires Plain(w)
    ensures Split("\"" + w + "\" " + rest, false, "", false) == [w] + Split(rest, false, "", false)
  {
    var s := "\"" + w + "\" " + rest;
    assert s[0] == '"' && s[1..] == w + ("\" " + rest);
    SplitQuotedText(w, "\" " + rest, "");
    assert "" + w == w;
    var t := "\" " + rest;
    assert t[0] == '"' && t[1] == ' ' && t[1..] == " " + rest;
    var u := " " + rest;
    assert u[0] == ' ' && u[1..] == rest;
  }

  /** A quoted argument at the end of the line: `"w"`. */
  lemma QuotedAtEnd(w: string)
    requires Plain(w)
    ensures Split("\"" + w + "\"", false, "", false) == [w]
  {
    var s := "\"" + w + "\"";
    assert s[0] == '"' && s[1..] == w + "\"";
    SplitQuotedText(w, "\"", "");
    assert "" + w == w;
    var t := "\"";
    assert t[1..] == [];
  }

  /** An unquoted word followed by a blank becomes one argument: `w rest`. */
  lemma WordThenBlank(w: string, rest: string)
    requires Word(w) && w != []
    ensures Split(w + " " + rest, false, "", false) == [w] + Split(rest, false, "", false)
  {
    assert w + " " + rest == w + (" " + rest);
    SplitWord(w, " " + rest, "", false);
    assert "" + w == w;
    var u := " " + rest;
    assert u[0] == ' ' && u[1..] == rest;
  }

  /** Two pieces of an argument line separated by one blank. */
  function Spaced(a: string, b: string): string {
    a + " " + b
  }

  /** A piece in double quotes, as interpolated into an argument line. */
  function Quote(s: string): string {
    "\"" + s + "\""
  }

  lemma ArgvSpacedWord(w: string, rest: string)
    requires Word(w) && w != []
    ensures Argv(Spaced(w, rest)) == [w] + Argv(rest)
  {
    WordThenBlank(w, rest);
  }

  lemma ArgvSpacedQuote(w: string, rest: string)
    requires Plain(w)
    ensures Argv(Spaced(Quote(w), rest)) == [w] + Argv(rest)
  {
    assert Spaced(Quote(w), rest) == "\"" + w + "\" " + rest;
    QuotedThenBlank(w, rest);
  }

  lemma ArgvQuote(w: string)
    requires Plain(w)
    ensures Argv(Quote(w)) == [w]
  {
    QuotedAtEnd(w);
  }

  /** A tab separates two words just as a blank does. */
  lemma ArgvTabbedWords(a: string, b: string)
    requires Word(a) && Word(b) && a != [] && b != []
    ensures Argv(a + "\t" + b) == [a, b]
  {
    assert a + "\t" + b == a + ("\t" + b);
    SplitWord(a, "\t" + b, "", false);
    assert "" + a == a;
    var t := "\t" + b;
    assert t[0] == '\t' && t[1..] == b;
    assert b == b + [];
    SplitWord(b, [], "", false);
    assert "" + b == b;
  }

  /** Inside quotes, `""` stands for one literal quote: `"a""b"` is the argument a"b. */
  lemma ArgvDoubledQuote(a: string, b: string)
    requires Plain(a) && Plain(b)
    ensures Argv(Quote(a + "\"\"" + b)) == [a + "\"" + b]
  {
    var s := Quote(a + "\"\"" + b);
    assert s[0] == '"' && s[1..] == a + ("\"\"" + b + "\"");
    SplitQuotedText(a, "\"\"" + b + "\"", "");
    assert "" + a == a;
    var t := "\"\"" + b + "\"";
    assert t[0] == '"' && t[1] == '"' && t[2..] == b + "\"";
    SplitQuotedText(b, "\"", a + "\"");
    var u := "\"";
    assert u[1..] == [];
  }

  /** A backslash before a quote makes the quote literal, so `\"` inside an argument line
      neither opens nor closes a quote. */
  lemma ArgvEscapedQuote(a: string, b: string)
    requires Word(a) && Word(b)
    ensures Argv(a + "\\\"" + b) == [a + "\"" + b]
  {
    assert a + "\\\"" + b == a + ("\\\"" + b);
    SplitWord(a, "\\\"" + b, "", false);
    assert "" + a == a;
    var t := "\\\"" + b;
    assert t[0] == '\\' && t[1] == '"' && BackslashRun(t) == 1;
    var after := t[1..];
    assert after[0] == '"' && after[1..] == b;
    assert a + Backslashes(1 / 2) + "\"" == a + "\"" by { assert Backslashes(0) == []; }
    assert Split(t, false, a, true) == Split(b, false, a + "\"", true);
    assert b == b + [];
    SplitWord(b, [], a + "\"", true);
  }
}

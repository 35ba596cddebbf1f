/** The JavaScript string primitives the client code relies on, written out:
    `String.prototype.trim`, `startsWith`, and `encodeURIComponent`. */
module JsText {

  /** ECMAScript WhiteSpace and LineTerminator code points, the set `trim` strips. */
  predicate IsJsWhiteSpace(c: char) {
    || c == '\t' || c == '\n' || c == '\U{000B}' || c == '\U{000C}' || c == '\r'
    || c == ' ' || c == '\U{00A0}' || c == '\U{1680}'
    || ('\U{2000}' <= c <= '\U{200A}')
    || c == '\U{2028}' || c == '\U{2029}' || c == '\U{202F}' || c == '\U{205F}'
    || c == '\U{3000}' || c == '\U{FEFF}'
  }

  predicate AllJsWhiteSpace(s: string) {
    forall k :: 0 <= k < |s| ==> IsJsWhiteSpace(s[k])
  }

  /** Drops leading white space: the result is a suffix of `s`, what was dropped is all
      white space, and the result does not start with white space. */
  function TrimStart(s: string): (r: string)
    ensures |r| <= |s| && r == s[|s| - |r|..]
    ensures AllJsWhiteSpace(s[..|s| - |r|])
    ensures r != [] ==> !IsJsWhiteSpace(r[0])
  {
    if s != [] && IsJsWhiteSpace(s[0]) then TrimStart(s[1..]) else s
  }

  /** Drops trailing white space: the result is a prefix of `s`, what was dropped is all
      white space, and the result does not end with white space. */
  function TrimEnd(s: string): (r: string)
    ensures |r| <= |s| && r == s[..|r|]
    ensures AllJsWhiteSpace(s[|r|..])
    ensures r != [] ==> !IsJsWhiteSpace(r[|r| - 1])
  {
    if s != [] && IsJsWhiteSpace(s[|s| - 1]) then TrimEnd(s[..|s| - 1]) else s
  }

  /** `s.trim()`: a slice of `s` that neither starts nor ends with white space. */
  function Trim(s: string): (r: string)
    ensures |r| <= |s|
    ensures var i := |s| - |TrimStart(s)|; i + |r| <= |s| && s[i..i + |r|] == r
    ensures r != [] ==> !IsJsWhiteSpace(r[0]) && !IsJsWhiteSpace(r[|r| - 1])
  {
    var t := TrimStart(s);
    var r := TrimEnd(t);
    assert r != [] ==> r[0] == t[0];
    PrefixOfSuffix(s, t, r, |s| - |t|);
    r
  }

  /** `s.trim()` is a slice of `s` with nothing but white space before and after it. */
  lemma TrimSlice(s: string)
    ensures var r := Trim(s);
      var i := |s| - |TrimStart(s)|;
      && i + |r| <= |s| && s[i..i + |r|] == r
      && AllJsWhiteSpace(s[..i]) && AllJsWhiteSpace(s[i + |r|..])
  {
    TrimSliceTail(s);
  }

  /** A prefix `r` of a suffix `t == s[i..]` is the slice of `s` at `i`. */
  lemma PrefixOfSuffix(s: string, t: string, r: string, i: nat)
    requires i <= |s| && t == s[i..] && |r| <= |t| && r == t[..|r|]
    ensures i + |r| <= |s| && s[i..i + |r|] == r
  {
  }

  lemma TrimSliceTail(s: string)
    ensures var i := |s| - |TrimStart(s)|; i + |Trim(s)| <= |s| && AllJsWhiteSpace(s[i + |Trim(s)|..])
  {
    var t := TrimStart(s);
    assert Trim(s) == TrimEnd(t);
    SuffixSlices(s, t, |s| - |t|, |TrimEnd(t)|);
  }

  /** The parts of a suffix `t == s[i..]`, split at `n`, as slices of `s`. */
  lemma SuffixSlices(s: string, t: string, i: nat, n: nat)
    requires i + n <= |s| && t == s[i..]
    ensures s[i..i + n] == t[..n]
    ensures AllJsWhiteSpace(t[n..]) ==> AllJsWhiteSpace(s[i + n..])
  {
    assert t[n..] == s[i + n..];
  }

  /** `s.trim()` is empty exactly when `s` is nothing but white space. */
  lemma TrimEmptyIffBlank(s: string)
    ensures Trim(s) == [] <==> AllJsWhiteSpace(s)
  {
    var t := TrimStart(s);
    if Trim(s) == [] {
      assert t == [] by {
        assert AllJsWhiteSpace(t[0..]);
      }
      assert s[..|s|] == s;
    } else {
      var r := Trim(s);
      assert !IsJsWhiteSpace(r[0]);
      assert r[0] == t[0];
      assert t[0] == s[|s| - |t|];
    }
  }

  /** `s.startsWith(prefix)`: case-sensitive, on the untrimmed text. */
  predicate StartsWith(s: string, prefix: string) {
    |prefix| <= |s| && s[..|prefix|] == prefix
  }

  /** `s` starts with `prefix` exactly when it is `prefix` followed by more text. */
  lemma StartsWithConcat(s: string, prefix: string, rest: string)
    ensures StartsWith(prefix + rest, prefix)
    ensures StartsWith(s, prefix) ==> s == prefix + s[|prefix|..]
  {
    assert (prefix + rest)[..|prefix|] == prefix;
  }

  /** The characters `encodeURIComponent` leaves as they are. */
  predicate IsUnescaped(c: char) {
    || ('A' <= c <= 'Z') || ('a' <= c <= 'z') || ('0' <= c <= '9')
    || c == '-' || c == '_' || c == '.' || c == '!' || c == '~' || c == '*'
    || c == '\'' || c == '(' || c == ')'
  }

  predicate IsUpperHexDigit(c: char) {
    ('0' <= c <= '9') || ('A' <= c <= 'F')
  }

  /** The characters that can appear in the output of `encodeURIComponent`. */
  predicate IsEncodedChar(c: char) {
    IsUnescaped(c) || c == '%' || IsUpperHexDigit(c)
  }

  const HexDigits: string := "0123456789ABCDEF"

  type Byte = b: int | 0 <= b < 256

  /** The UTF-8 encoding of a Unicode scalar value (RFC 3629, section 3). */
  function Utf8(cp: int): (bytes: seq<Byte>)
    requires 0 <= cp < 0x11_0000
    ensures 1 <= |bytes| <= 4
    ensures (|bytes| == 1) == (cp < 0x80)
    ensures |bytes| > 1 ==> forall k :: 1 <= k < |bytes| ==> 0x80 <= bytes[k] < 0xC0
  {
    if cp < 0x80 then [cp]
    else if cp < 0x800 then [0xC0 + cp / 64, 0x80 + cp % 64]
    else if cp < 0x1_0000 then [0xE0 + cp / 4096, 0x80 + (cp / 64) % 64, 0x80 + cp % 64]
    else [0xF0 + cp / 262144, 0x80 + (cp / 4096) % 64, 0x80 + (cp / 64) % 64, 0x80 + cp % 64]
  }

  /** One byte as `%` and two upper-case hexadecimal digits. */
  function PercentByte(b: Byte): (r: string)
    ensures |r| == 3 && r[0] == '%' && IsUpperHexDigit(r[1]) && IsUpperHexDigit(r[2])
  {
    ['%', HexDigits[b / 16], HexDigits[b % 16]]
  }

  function PercentBytes(bytes: seq<Byte>): (r: string)
    ensures |r| == 3 * |bytes|
    ensures forall k :: 0 <= k < |r| ==> IsEncodedChar(r[k])
    ensures bytes != [] ==> r[0] == '%'
  {
    if bytes == [] then []
    else PercentByte(bytes[0]) + PercentBytes(bytes[1..])
  }

  function EncodeChar(c: char): (r: string)
    ensures r != []
    ensures forall k :: 0 <= k < |r| ==> IsEncodedChar(r[k])
  {
    if IsUnescaped(c) then [c] else PercentBytes(Utf8(c as int))
  }

  /** `encodeURIComponent(s)`: every character outside the unescaped set becomes the
      percent-encoding of its UTF-8 bytes (section 2.1 of RFC 3986). The output is made
      of unescaped characters, '%' and upper-case hexadecimal digits only; in particular
      it holds no '&', '=', '+', '#' or space. */
  function EncodeUriComponent(s: string): (r: string)
    ensures |r| >= |s|
    ensures forall k :: 0 <= k < |r| ==> IsEncodedChar(r[k])
  {
    if s == [] then [] else EncodeChar(s[0]) + EncodeUriComponent(s[1..])
  }

  /** A string of unescaped characters is its own encoding. */
  lemma {:induction false} EncodeUnescapedIsIdentity(s: string)
    requires forall k :: 0 <= k < |s| ==> IsUnescaped(s[k])
    ensures EncodeUriComponent(s) == s
  {
    if s != [] {
      EncodeUnescapedIsIdentity(s[1..]);
    }
  }

  /** Encoding distributes over concatenation. */
  lemma {:induction false} EncodeAppend(s: string, t: string)
    ensures EncodeUriComponent(s + t) == EncodeUriComponent(s) + EncodeUriComponent(t)
  {
    if s != [] {
      assert (s + t)[0] == s[0] && (s + t)[1..] == s[1..] + t;
      EncodeAppend(s[1..], t);
      calc {
        EncodeUriComponent(s + t);
        EncodeChar(s[0]) + EncodeUriComponent(s[1..] + t);
        EncodeChar(s[0]) + (EncodeUriComponent(s[1..]) + EncodeUriComponent(t));
        (EncodeChar(s[0]) + EncodeUriComponent(s[1..])) + EncodeUriComponent(t);
      }
    } else {
      assert s + t == t;
    }
  }
}

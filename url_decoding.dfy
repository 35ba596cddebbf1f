/** The decoding ASP.NET applies to a query-string value before binding it to a
    `[FromQuery]` parameter of `DownloadController.Get`: '+' stands for a space, and a
    run of `%XY` escapes that spells the UTF-8 encoding of one Unicode scalar value
    becomes that character. An escape that does not decode is kept as it is. */
module UrlDecoding {
  import opened Wrappers
  import opened JsText

  /** Either case, as the decoder accepts both. */
  predicate IsHexDigit(c: char) {
    ('0' <= c <= '9') || ('A' <= c <= 'F') || ('a' <= c <= 'f')
  }

  function HexValue(c: char): (v: int)
    requires IsHexDigit(c)
    ensures 0 <= v < 16
  {
    if '0' <= c <= '9' then c as int - '0' as int
    else if 'A' <= c <= 'F' then c as int - 'A' as int + 10
    else c as int - 'a' as int + 10
  }

  /** The byte written by the escape at the start of `s`, if `s` starts with one. */
  function EscapedByte(s: string): (r: Option<Byte>)
    ensures r.Some? <==> |s| >= 3 && s[0] == '%' && IsHexDigit(s[1]) && IsHexDigit(s[2])
  {
    if |s| >= 3 && s[0] == '%' && IsHexDigit(s[1]) && IsHexDigit(s[2])
    then Some(HexValue(s[1]) * 16 + HexValue(s[2]))
    else None
  }

  /** The bytes of `n` consecutive escapes at the start of `s`. */
  function EscapedBytes(s: string, n: nat): (r: Option<seq<Byte>>)
    ensures r.Some? ==> |r.value| == n && 3 * n <= |s|
    decreases n
  {
    if n == 0 then Some([])
    else match EscapedByte(s)
      case None => None
      case Some(b) =>
        match EscapedBytes(s[3..], n - 1)
        case None => None
        case Some(rest) => Some([b] + rest)
  }

  /** How many bytes a UTF-8 sequence with this first byte has; 0 for a byte that cannot
      start one (RFC 3629, section 3). */
  function SequenceLength(lead: Byte): (n: nat)
    ensures n <= 4
  {
    if lead < 0x80 then 1
    else if 0xC0 <= lead < 0xE0 then 2
    else if 0xE0 <= lead < 0xF0 then 3
    else if 0xF0 <= lead < 0xF8 then 4
    else 0
  }

  predicate IsContinuation(b: Byte) {
    0x80 <= b < 0xC0
  }

  /** The bits a UTF-8 sequence of one to four bytes carries. */
  function Bits(bytes: seq<Byte>): int
    requires 1 <= |bytes| <= 4
  {
    var b := seq(|bytes|, k requires 0 <= k < |bytes| => bytes[k] as int);
    if |b| == 1 then b[0]
    else if |b| == 2 then (b[0] - 0xC0) * 64 + (b[1] - 0x80)
    else if |b| == 3 then (b[0] - 0xE0) * 4096 + (b[1] - 0x80) * 64 + (b[2] - 0x80)
    else (b[0] - 0xF0) * 262144 + (b[1] - 0x80) * 4096 + (b[2] - 0x80) * 64 + (b[3] - 0x80)
  }

  /** The smallest scalar value a sequence of this length may encode; shorter forms are
      overlong and rejected. */
  function MinimumFor(n: int): int {
    if n == 1 then 0 else if n == 2 then 0x80 else if n == 3 then 0x800 else 0x1_0000
  }

  /** The character a complete UTF-8 sequence encodes, if it encodes one. */
  function DecodeUtf8(bytes: seq<Byte>): (r: Option<char>)
    ensures r.Some? ==> Utf8(r.value as int) == bytes
  {
    if 1 <= |bytes| <= 4 && SequenceLength(bytes[0]) == |bytes|
      && (forall k :: 1 <= k < |bytes| ==> IsContinuation(bytes[k]))
    then
      var cp := Bits(bytes);
      if MinimumFor(|bytes|) <= cp < 0x11_0000 && !(0xD800 <= cp < 0xE000) then
        EncodesBits(bytes);
        Some(cp as char)
      else None
    else None
  }

  lemma DivMod64(q: int, r: int)
    requires 0 <= r < 64
    ensures (q * 64 + r) / 64 == q && (q * 64 + r) % 64 == r
  {
  }

  lemma DivMod4096(q: int, r: int)
    requires 0 <= r < 4096
    ensures (q * 4096 + r) / 4096 == q
  {
  }

  lemma DivMod262144(q: int, r: int)
    requires 0 <= r < 262144
    ensures (q * 262144 + r) / 262144 == q
  {
  }

  lemma EncodesTwo(b0: Byte, b1: Byte)
    requires 0xC0 <= b0 < 0xE0 && IsContinuation(b1)
    requires 0x80 <= (b0 - 0xC0) * 64 + (b1 - 0x80)
    ensures Utf8((b0 - 0xC0) * 64 + (b1 - 0x80)) == [b0, b1]
  {
    DivMod64(b0 - 0xC0, b1 - 0x80);
  }

  lemma EncodesThree(b0: Byte, b1: Byte, b2: Byte)
    requires 0xE0 <= b0 < 0xF0 && IsContinuation(b1) && IsContinuation(b2)
    requires 0x800 <= (b0 - 0xE0) * 4096 + (b1 - 0x80) * 64 + (b2 - 0x80)
    ensures Utf8((b0 - 0xE0) * 4096 + (b1 - 0x80) * 64 + (b2 - 0x80)) == [b0, b1, b2]
  {
    var q0, q1, r2 := b0 - 0xE0, b1 - 0x80, b2 - 0x80;
    var cp := q0 * 4096 + q1 * 64 + r2;
    DivMod4096(q0, q1 * 64 + r2);
    assert cp == (q0 * 64 + q1) * 64 + r2;
    DivMod64(q0 * 64 + q1, r2);
    DivMod64(q0, q1);
  }

  lemma EncodesFour(b0: Byte, b1: Byte, b2: Byte, b3: Byte)
    requires 0xF0 <= b0 < 0xF8 && IsContinuation(b1) && IsContinuation(b2)
    requires IsContinuation(b3)
    requires var cp := (b0 - 0xF0) * 262144 + (b1 - 0x80) * 4096 + (b2 - 0x80) * 64 + (b3 - 0x80);
      0x1_0000 <= cp < 0x11_0000
    ensures var cp := (b0 - 0xF0) * 262144 + (b1 - 0x80) * 4096 + (b2 - 0x80) * 64 + (b3 - 0x80);
      Utf8(cp) == [b0, b1, b2, b3]
  {
    var q0, q1, q2, r3 := b0 - 0xF0, b1 - 0x80, b2 - 0x80, b3 - 0x80;
    var cp := q0 * 262144 + q1 * 4096 + q2 * 64 + r3;
    DivMod262144(q0, q1 * 4096 + q2 * 64 + r3);
    assert cp == (q0 * 64 + q1) * 4096 + (q2 * 64 + r3);
    DivMod4096(q0 * 64 + q1, q2 * 64 + r3);
    DivMod64(q0, q1);
    assert cp == (q0 * 4096 + q1 * 64 + q2) * 64 + r3;
    DivMod64(q0 * 4096 + q1 * 64 + q2, r3);
    assert q0 * 4096 + q1 * 64 + q2 == (q0 * 64 + q1) * 64 + q2;
    DivMod64(q0 * 64 + q1, q2);
  }

  /** Re-encoding the bits of a well-formed sequence gives the sequence back. */
  lemma EncodesBits(bytes: seq<Byte>)
    requires 1 <= |bytes| <= 4 && SequenceLength(bytes[0]) == |bytes|
    requires forall k :: 1 <= k < |bytes| ==> IsContinuation(bytes[k])
    requires MinimumFor(|bytes|) <= Bits(bytes) < 0x11_0000
    ensures Utf8(Bits(bytes)) == bytes
  {
    if |bytes| == 2 {
      EncodesTwo(bytes[0], bytes[1]);
    } else if |bytes| == 3 {
      EncodesThree(bytes[0], bytes[1], bytes[2]);
    } else if |bytes| == 4 {
      EncodesFour(bytes[0], bytes[1], bytes[2], bytes[3]);
    }
  }

  /** The decoded query value. */
  function QueryDecode(s: string): (r: string)
    ensures |r| <= |s|
    decreases |s|
  {
    if s == [] then []
    else if s[0] == '+' then [' '] + QueryDecode(s[1..])
    else if s[0] != '%' then [s[0]] + QueryDecode(s[1..])
    else match DecodedEscape(s)
      case Some((c, n)) => [c] + QueryDecode(s[3 * n..])
      case None => ['%'] + QueryDecode(s[1..])
  }

  /** The character spelled by the run of escapes at the start of `s`, and the number of
      escapes it takes. */
  function DecodedEscape(s: string): (r: Option<(char, nat)>)
    ensures r.Some? ==> 1 <= r.value.1 <= 4 && 3 * r.value.1 <= |s|
  {
    match EscapedByte(s)
    case None => None
    case Some(lead) =>
      var n := SequenceLength(lead);
      if n == 0 then None
      else match EscapedBytes(s, n)
        case None => None
        case Some(bytes) =>
          match DecodeUtf8(bytes)
          case None => None
          case Some(c) => Some((c, n))
  }

  /** Text without '+' and '%' decodes to itself. */
  lemma {:induction false} DecodePlain(s: string)
    requires '+' !in s && '%' !in s
    ensures QueryDecode(s) == s
    decreases |s|
  {
    if s != [] {
      DecodePlain(s[1..]);
      assert [s[0]] + s[1..] == s;
    }
  }

  lemma HexDigitsValue(d: int)
    requires 0 <= d < 16
    ensures IsHexDigit(HexDigits[d]) && HexValue(HexDigits[d]) == d
  {
  }

  lemma {:induction false} EscapedPercentBytes(bytes: seq<Byte>, rest: string)
    ensures EscapedBytes(PercentBytes(bytes) + rest, |bytes|) == Some(bytes)
    decreases |bytes|
  {
    if bytes != [] {
      var b := bytes[0];
      var s := PercentBytes(bytes) + rest;
      assert s == PercentByte(b) + (PercentBytes(bytes[1..]) + rest);
      HexDigitsValue(b / 16);
      HexDigitsValue(b % 16);
      assert EscapedByte(s) == Some(b);
      assert s[3..] == PercentBytes(bytes[1..]) + rest;
      EscapedPercentBytes(bytes[1..], rest);
      assert [b] + bytes[1..] == bytes;
    }
  }

  /** The bits of a scalar value's encoding are the scalar value. */
  lemma BitsOfUtf8(cp: int)
    requires 0 <= cp < 0x11_0000
    ensures Bits(Utf8(cp)) == cp
  {
    var q := cp / 64;
    assert cp == q * 64 + cp % 64;
    if 0x800 <= cp < 0x1_0000 {
      assert cp / 4096 == q / 64;
      assert q == (q / 64) * 64 + q % 64;
    } else if 0x1_0000 <= cp {
      var p := q / 64;
      assert cp / 4096 == p && cp / 262144 == p / 64;
      assert q == p * 64 + q % 64;
      assert p == (p / 64) * 64 + p % 64;
    }
  }

  /** Every Unicode scalar value is decoded back from its UTF-8 encoding. */
  lemma Utf8Decodes(c: char)
    ensures SequenceLength(Utf8(c as int)[0]) == |Utf8(c as int)|
    ensures DecodeUtf8(Utf8(c as int)) == Some(c)
  {
    var cp := c as int;
    BitsOfUtf8(cp);
    assert MinimumFor(|Utf8(cp)|) <= cp;
  }

  /** Decoding undoes the encoding of one character, whatever follows it. */
  lemma DecodeEncodedChar(c: char, rest: string)
    ensures QueryDecode(EncodeChar(c) + rest) == [c] + QueryDecode(rest)
  {
    var s := EncodeChar(c) + rest;
    if IsUnescaped(c) {
      assert s[0] == c && s[1..] == rest;
    } else {
      var bytes := Utf8(c as int);
      assert s == PercentBytes(bytes) + rest;
      EscapedPercentBytes(bytes, rest);
      Utf8Decodes(c);
      HexDigitsValue(bytes[0] / 16);
      HexDigitsValue(bytes[0] % 16);
      assert EscapedByte(s) == Some(bytes[0]);
      assert DecodedEscape(s) == Some((c, |bytes|));
      assert s[3 * |bytes|..] == rest;
    }
  }

  /** The server reads back exactly the text `encodeURIComponent` encoded. */
  lemma {:induction false} DecodeEncode(s: string)
    ensures QueryDecode(EncodeUriComponent(s)) == s
    decreases |s|
  {
    if s != [] {
      DecodeEncodedChar(s[0], EncodeUriComponent(s[1..]));
      DecodeEncode(s[1..]);
      assert [s[0]] + s[1..] == s;
    }
  }
}

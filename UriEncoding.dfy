/** `encodeURIComponent` and its inverse `decodeURIComponent` (the URI
    handling functions of ECMA-262, section 19.2.6): every character outside the unescaped
    set is written as the percent-escapes (section 2.1 of RFC 3986, upper-case
    hexadecimal) of its UTF-8 bytes. Strings here are sequences of Unicode scalar
    values, so the lone surrogates on which the JavaScript functions throw do
    not arise. */
module UriEncoding {

  import opened Wrappers

  /** The characters encodeURIComponent leaves as they are: ASCII letters,
      decimal digits and the marks - _ . ! ~ * ' ( ) */
  predicate IsUnescaped(c: char)
  {
    ('A' <= c <= 'Z') || ('a' <= c <= 'z') || ('0' <= c <= '9')
    || c == '-' || c == '_' || c == '.' || c == '!' || c == '~' || c == '*'
    || c == '\'' || c == '(' || c == ')'
  }

  predicate IsHexDigit(c: char)
  {
    ('0' <= c <= '9') || ('A' <= c <= 'F') || ('a' <= c <= 'f')
  }

  /** Upper-case hexadecimal digit for 0..15. */
  function HexChar(d: int): (c: char)
    requires 0 <= d < 16
    ensures IsHexDigit(c) && IsUnescaped(c)
  {
    if d < 10 then ('0' as int + d) as char else ('A' as int + d - 10) as char
  }

  function HexValue(c: char): (v: int)
    requires IsHexDigit(c)
    ensures 0 <= v < 16
  {
    if '0' <= c <= '9' then c as int - '0' as int
    else if 'A' <= c <= 'F' then c as int - 'A' as int + 10
    else c as int - 'a' as int + 10
  }

  type Byte = b: int | 0 <= b < 256

  predicate IsContinuation(b: Byte)
  {
    0x80 <= b < 0xC0
  }

  /** Number of bytes of the UTF-8 sequence a lead byte announces; 0 when the
      byte cannot start a sequence. */
  function Utf8Length(lead: Byte): nat
  {
    if lead < 0x80 then 1
    else if 0xC0 <= lead < 0xE0 then 2
    else if 0xE0 <= lead < 0xF0 then 3
    else if 0xF0 <= lead < 0xF8 then 4
    else 0
  }

  /** The code point a well-formed sequence of 1 to 4 UTF-8 bytes stands for. */
  function CodePoint(bytes: seq<Byte>): int
    requires 1 <= |bytes| <= 4
  {
    var b0: int := bytes[0];
    if |bytes| == 1 then b0
    else
      var b1: int := bytes[1];
      if |bytes| == 2 then (b0 - 0xC0) * 64 + (b1 - 0x80)
      else
        var b2: int := bytes[2];
        if |bytes| == 3 then ((b0 - 0xE0) * 64 + (b1 - 0x80)) * 64 + (b2 - 0x80)
        else
          var b3: int := bytes[3];
          (((b0 - 0xF0) * 64 + (b1 - 0x80)) * 64 + (b2 - 0x80)) * 64 + (b3 - 0x80)
  }

  /** A code point decoded from `n` bytes is accepted when `n` is the shortest
      length for it and it is a Unicode scalar value. */
  predicate IsShortestScalar(cp: int, n: nat)
  {
    && (n == 1 ==> 0 <= cp < 0x80)
    && (n == 2 ==> 0x80 <= cp < 0x800)
    && (n == 3 ==> 0x800 <= cp < 0x10000 && !(0xD800 <= cp < 0xE000))
    && (n == 4 ==> 0x10000 <= cp < 0x110000)
  }

  /** UTF-8 encoding of one character, shortest form. */
  function Utf8Encode(c: char): (bytes: seq<Byte>)
    ensures 1 <= |bytes| <= 4
    ensures Utf8Length(bytes[0]) == |bytes|
    ensures forall j :: 1 <= j < |bytes| ==> IsContinuation(bytes[j])
    ensures CodePoint(bytes) == c as int
    ensures IsShortestScalar(c as int, |bytes|)
  {
    var cp := c as int;
    var q1, r0 := cp / 64, cp % 64;
    var q2, r1 := q1 / 64, q1 % 64;
    var q3, r2 := q2 / 64, q2 % 64;
    if cp < 0x80 then [cp]
    else if cp < 0x800 then [0xC0 + q1, 0x80 + r0]
    else if cp < 0x10000 then [0xE0 + q2, 0x80 + r1, 0x80 + r0]
    else [0xF0 + q3, 0x80 + r2, 0x80 + r1, 0x80 + r0]
  }

  /** Each byte as `%XY`. */
  function PercentEncode(bytes: seq<Byte>): (t: string)
    ensures |t| == 3 * |bytes|
  {
    if bytes == [] then []
    else ['%', HexChar(bytes[0] / 16), HexChar(bytes[0] % 16)] + PercentEncode(bytes[1..])
  }

  /** Byte `j` is written at indices 3j, 3j+1 and 3j+2. */
  lemma {:induction false} PercentEncodeAt(bytes: seq<Byte>, j: nat)
    requires j < |bytes|
    ensures PercentEncode(bytes)[3 * j] == '%'
    ensures PercentEncode(bytes)[3 * j + 1] == HexChar(bytes[j] / 16)
    ensures PercentEncode(bytes)[3 * j + 2] == HexChar(bytes[j] % 16)
  {
    if j > 0 {
      PercentEncodeAt(bytes[1..], j - 1);
    }
  }

  function EncodeChar(c: char): string
  {
    if IsUnescaped(c) then [c] else PercentEncode(Utf8Encode(c))
  }

  /** Every character is unescaped or a `%`, and every `%` starts an escape of
      two hexadecimal digits. */
  ghost predicate IsEscapedForm(t: string)
  {
    && (forall i :: 0 <= i < |t| ==> IsUnescaped(t[i]) || t[i] == '%')
    && (forall i :: 0 <= i < |t| && t[i] == '%' ==> i + 2 < |t| && IsHexDigit(t[i + 1]) && IsHexDigit(t[i + 2]))
  }

  lemma EscapedFormConcat(a: string, b: string)
    requires IsEscapedForm(a) && IsEscapedForm(b)
    ensures IsEscapedForm(a + b)
  {
    var t := a + b;
    forall i | 0 <= i < |t| && t[i] == '%'
      ensures i + 2 < |t| && IsHexDigit(t[i + 1]) && IsHexDigit(t[i + 2])
    {
      if i < |a| {
        assert a[i] == '%';
      } else {
        assert b[i - |a|] == '%';
      }
    }
  }

  lemma {:induction false} EscapedFormOfPercentEncode(bytes: seq<Byte>)
    ensures IsEscapedForm(PercentEncode(bytes))
  {
    if bytes != [] {
      var head := ['%', HexChar(bytes[0] / 16), HexChar(bytes[0] % 16)];
      EscapedFormOfPercentEncode(bytes[1..]);
      EscapedFormConcat(head, PercentEncode(bytes[1..]));
    }
  }

  lemma EscapedFormOfEncodeChar(c: char)
    ensures IsEscapedForm(EncodeChar(c))
  {
    if !IsUnescaped(c) {
      EscapedFormOfPercentEncode(Utf8Encode(c));
    }
  }

  /** `encodeURIComponent(s)`. Its result uses only unescaped characters and
      well-formed escapes. */
  function EncodeUriComponent(s: string): (t: string)
    ensures IsEscapedForm(t)
  {
    if s == [] then []
    else
      EscapedFormOfEncodeChar(s[0]);
      EscapedFormConcat(EncodeChar(s[0]), EncodeUriComponent(s[1..]));
      EncodeChar(s[0]) + EncodeUriComponent(s[1..])
  }

  /** The byte written as `%XY` at index `i`, if there is one. */
  function EscapedByte(t: string, i: nat): (r: Option<Byte>)
    ensures r.Some? ==> i + 3 <= |t|
  {
    if i + 3 <= |t| && t[i] == '%' && IsHexDigit(t[i + 1]) && IsHexDigit(t[i + 2])
    then Some(HexValue(t[i + 1]) * 16 + HexValue(t[i + 2]))
    else None
  }

  /** `k` escaped continuation bytes starting at index `i`. */
  function EscapedContinuations(t: string, i: nat, k: nat): (r: Option<seq<Byte>>)
    decreases k
    ensures r.Some? ==> |r.value| == k && (k > 0 ==> i + 3 * k <= |t|)
  {
    if k == 0 then Some([])
    else match EscapedByte(t, i)
      case None => None
      case Some(b) =>
        if !IsContinuation(b) then None
        else match EscapedContinuations(t, i + 3, k - 1)
          case None => None
          case Some(bs) => Some([b] + bs)
  }

  /** Decodes the escaped UTF-8 sequence at the start of `t`: the character and
      the number of characters of `t` it takes. */
  function DecodeEscape(t: string): (r: Option<(char, nat)>)
    ensures r.Some? ==> 3 <= r.value.1 <= |t|
  {
    match EscapedByte(t, 0)
    case None => None
    case Some(lead) =>
      var n := Utf8Length(lead);
      if n == 0 then None
      else match EscapedContinuations(t, 3, n - 1)
        case None => None
        case Some(rest) =>
          var cp := CodePoint([lead] + rest);
          if IsShortestScalar(cp, n) then Some((cp as char, 3 * n)) else None
  }

  /** `decodeURIComponent(t)`; `None` where JavaScript throws a URIError. */
  function DecodeUriComponent(t: string): (r: Option<string>)
    decreases |t|
  {
    if t == [] then Some([])
    else if t[0] != '%' then
      match DecodeUriComponent(t[1..])
      case None => None
      case Some(rest) => Some([t[0]] + rest)
    else
      match DecodeEscape(t)
      case None => None
      case Some((c, k)) =>
        match DecodeUriComponent(t[k..])
        case None => None
        case Some(rest) => Some([c] + rest)
  }

  lemma HexPairValue(b: Byte)
    ensures HexValue(HexChar(b / 16)) * 16 + HexValue(HexChar(b % 16)) == b
  {
  }

  lemma EscapedByteOfEncoding(bytes: seq<Byte>, rest: string, j: nat)
    requires j < |bytes|
    ensures EscapedByte(PercentEncode(bytes) + rest, 3 * j) == Some(bytes[j])
  {
    HexPairValue(bytes[j]);
    PercentEncodeAt(bytes, j);
    var t := PercentEncode(bytes) + rest;
    assert t[3 * j] == '%' && t[3 * j + 1] == HexChar(bytes[j] / 16) && t[3 * j + 2] == HexChar(bytes[j] % 16);
  }

  lemma {:induction false} ContinuationsOfEncoding(bytes: seq<Byte>, rest: string, j: nat, k: nat)
    requires j + k <= |bytes|
    requires forall m :: j <= m < j + k ==> IsContinuation(bytes[m])
    ensures EscapedContinuations(PercentEncode(bytes) + rest, 3 * j, k) == Some(bytes[j..j + k])
    decreases k
  {
    if k > 0 {
      EscapedByteOfEncoding(bytes, rest, j);
      ContinuationsOfEncoding(bytes, rest, j + 1, k - 1);
      assert 3 * j + 3 == 3 * (j + 1);
      assert [bytes[j]] + bytes[j + 1..j + k] == bytes[j..j + k];
    }
  }

  /** The escapes written for one character decode back to that character and
      nothing more. */
  lemma DecodeEscapeOfEncodeChar(c: char, rest: string)
    requires !IsUnescaped(c)
    ensures DecodeEscape(EncodeChar(c) + rest) == Some((c, |EncodeChar(c)|))
  {
    var bytes := Utf8Encode(c);
    var n := |bytes|;
    EscapedByteOfEncoding(bytes, rest, 0);
    ContinuationsOfEncoding(bytes, rest, 1, n - 1);
    assert [bytes[0]] + bytes[1..n] == bytes;
  }

  /** decodeURIComponent undoes encodeURIComponent. */
  lemma {:induction false} DecodeEncode(s: string)
    ensures DecodeUriComponent(EncodeUriComponent(s)) == Some(s)
  {
    if s != [] {
      var c := s[0];
      var head := EncodeChar(c);
      var tail := EncodeUriComponent(s[1..]);
      var t := head + tail;
      assert EncodeUriComponent(s) == t;
      DecodeEncode(s[1..]);
      if IsUnescaped(c) {
        assert t[0] == c && t[1..] == tail;
      } else {
        DecodeEscapeOfEncodeChar(c, tail);
        assert t[0] == '%';
        assert t[|head|..] == tail;
      }
      assert [c] + s[1..] == s;
    }
  }

  /** The encoded text holds none of the characters that delimit a query
      string or a URL (`&`, `=`, `?`, `#`, `+`, space), so it can be placed as
      one query parameter value. */
  lemma EncodedHasNoDelimiters(s: string)
    ensures forall i :: 0 <= i < |EncodeUriComponent(s)| ==> EncodeUriComponent(s)[i] !in "&=?#+ "
  {
  }
}

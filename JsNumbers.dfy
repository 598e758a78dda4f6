/** The two JavaScript number/string conversions the components rely on:
    `Number.prototype.toString()` for integer values (used for `currentPage.toString()`,
    `String(level)` and template literals; the Number::toString operation of
    ECMA-262) and the global `parseInt(string)` with no radix argument (the
    parseInt function of ECMA-262, section 19.2.5). */
module JsNumbers {

  import opened Wrappers

  predicate IsDecimalDigit(c: char)
  {
    '0' <= c <= '9'
  }

  function DigitChar(d: int): (c: char)
    requires 0 <= d < 10
    ensures IsDecimalDigit(c)
  {
    ('0' as int + d) as char
  }

  /** Decimal digits of `n`, most significant first, without leading zeros. */
  function NatToDecimal(n: nat): (s: string)
    ensures |s| >= 1
    ensures forall i :: 0 <= i < |s| ==> IsDecimalDigit(s[i])
    ensures |s| > 1 ==> s[0] != '0'
  {
    if n < 10 then [DigitChar(n)] else NatToDecimal(n / 10) + [DigitChar(n % 10)]
  }

  /** `n.toString()` for an integer-valued Number below 10^21 in magnitude. */
  function NumberToString(n: int): (s: string)
    ensures |s| >= 1
    ensures s[0] == '-' <==> n < 0
    ensures forall i :: (if n < 0 then 1 else 0) <= i < |s| ==> IsDecimalDigit(s[i])
    ensures |s| > (if n < 0 then 2 else 1) ==> s[if n < 0 then 1 else 0] != '0'
  {
    if n < 0 then "-" + NatToDecimal(-n) else NatToDecimal(n)
  }

  /** The value of an alphanumeric character as a digit (0-9, then a-z / A-Z as
      10-35); 36 for every other character. */
  function DigitValue(c: char): (v: nat)
    ensures v <= 36
  {
    if '0' <= c <= '9' then c as int - '0' as int
    else if 'a' <= c <= 'z' then c as int - 'a' as int + 10
    else if 'A' <= c <= 'Z' then c as int - 'A' as int + 10
    else 36
  }

  predicate IsRadixDigit(c: char, radix: nat)
  {
    DigitValue(c) < radix
  }

  /** Length of the longest prefix of `s` made of radix-`radix` digits. */
  function DigitRunLength(s: string, radix: nat): (n: nat)
    ensures n <= |s|
    ensures forall i :: 0 <= i < n ==> IsRadixDigit(s[i], radix)
    ensures n < |s| ==> !IsRadixDigit(s[n], radix)
  {
    if s == [] || !IsRadixDigit(s[0], radix) then 0 else 1 + DigitRunLength(s[1..], radix)
  }

  /** The mathematical value of a digit string in the given radix (only ever
      applied to a run of radix digits). */
  function DigitsValue(s: string, radix: nat): nat
  {
    if s == [] then 0
    else DigitsValue(s[..|s| - 1], radix) * radix + DigitValue(s[|s| - 1])
  }

  /** WhiteSpace and LineTerminator code points, which parseInt trims from the
      start (TAB, VT, FF, SP, NBSP, ZWNBSP, the other Zs space separators, LF,
      CR, LS and PS). */
  predicate IsStrWhiteSpace(c: char)
  {
    c == '\t' || c == '\n' || c == '\U{000B}' || c == '\U{000C}' || c == '\r' || c == ' '
    || c == '\U{00A0}' || c == '\U{1680}' || ('\U{2000}' <= c <= '\U{200A}')
    || c == '\U{2028}' || c == '\U{2029}' || c == '\U{202F}' || c == '\U{205F}'
    || c == '\U{3000}' || c == '\U{FEFF}'
  }

  function TrimStart(s: string): (t: string)
    ensures |t| <= |s| && t == s[|s| - |t|..]
    ensures t == [] || !IsStrWhiteSpace(t[0])
    ensures forall i :: 0 <= i < |s| - |t| ==> IsStrWhiteSpace(s[i])
  {
    if s != [] && IsStrWhiteSpace(s[0]) then TrimStart(s[1..]) else s
  }

  /** What parseInt has decided before it reads digits: the sign, the radix
      and the text from which the digit run is taken. */
  datatype Scan = Scan(sign: int, radix: nat, digits: string)

  /** On text already trimmed: one optional sign, then a `0x`/`0X` prefix
      selects radix 16 (radix 10 otherwise). */
  function ScanTrimmed(t: string): Scan
  {
    var sign := if t != [] && t[0] == '-' then -1 else 1;
    var u := if t != [] && (t[0] == '+' || t[0] == '-') then t[1..] else t;
    if |u| >= 2 && u[0] == '0' && (u[1] == 'x' || u[1] == 'X') then Scan(sign, 16, u[2..])
    else Scan(sign, 10, u)
  }

  /** Skips leading white space, then scans sign and radix prefix. */
  function ScanPrefix(s: string): Scan
  {
    ScanTrimmed(TrimStart(s))
  }

  /** `parseInt(s)`: `None` stands for NaN. The longest run of digits after the
      scanned prefix is converted; trailing text is ignored. The result -0 of
      "-0" is the integer 0 here. */
  function ParseInt(s: string): (r: Option<int>)
    ensures var sc := ScanPrefix(s);
            r.Some? <==> sc.digits != [] && IsRadixDigit(sc.digits[0], sc.radix)
    ensures r.Some? && ScanPrefix(s).sign == 1 ==> r.value >= 0
    ensures r.Some? && ScanPrefix(s).sign == -1 ==> r.value <= 0
  {
    var sc := ScanPrefix(s);
    var n := DigitRunLength(sc.digits, sc.radix);
    if n == 0 then None else Some(sc.sign * DigitsValue(sc.digits[..n], sc.radix))
  }

  lemma {:induction false} NatToDecimalValue(n: nat)
    ensures DigitsValue(NatToDecimal(n), 10) == n
  {
    var s := NatToDecimal(n);
    if n >= 10 {
      NatToDecimalValue(n / 10);
      assert s[..|s| - 1] == NatToDecimal(n / 10);
    }
  }

  /** A run of radix digits followed by text that does not start with one is
      read exactly up to its end. */
  lemma {:induction false} DigitRunOfConcat(d: string, rest: string, radix: nat)
    requires forall i :: 0 <= i < |d| ==> IsRadixDigit(d[i], radix)
    requires rest == [] || !IsRadixDigit(rest[0], radix)
    ensures DigitRunLength(d + rest, radix) == |d|
  {
    if d == [] {
      assert d + rest == rest;
    } else {
      assert (d + rest)[0] == d[0];
      assert (d + rest)[1..] == d[1..] + rest;
      DigitRunOfConcat(d[1..], rest, radix);
    }
  }

  /** A number printed by `toString` starts with a digit or a minus sign, so
      the scan keeps the sign and reads its digits in radix 10. */
  lemma ScanOfNumberToString(n: int)
    ensures ScanPrefix(NumberToString(n)) ==
              if n < 0 then Scan(-1, 10, NatToDecimal(-n)) else Scan(1, 10, NatToDecimal(n))
  {
    var s := NumberToString(n);
    assert s[0] == '-' || IsDecimalDigit(s[0]);
    assert TrimStart(s) == s;
  }

  /** Reading back what `toString` printed gives the same integer: parseInt is a
      left inverse of Number-to-string on integers. */
  lemma ParseIntOfNumberToString(n: int)
    ensures ParseInt(NumberToString(n)) == Some(n)
  {
    var m: nat := if n < 0 then -n else n;
    var d := NatToDecimal(m);
    NatToDecimalValue(m);
    forall i | 0 <= i < |d| ensures IsRadixDigit(d[i], 10) {
      assert IsDecimalDigit(d[i]);
    }
    DigitRunOfConcat(d, [], 10);
    assert d + [] == d && d[..|d|] == d;
    ScanOfNumberToString(n);
  }

  /** Text that starts with neither white space nor a sign nor `0` is scanned
      as a positive decimal number from its first character. */
  lemma ScanOfPlainText(s: string)
    requires s != [] && !IsStrWhiteSpace(s[0]) && s[0] != '+' && s[0] != '-' && s[0] != '0'
    ensures ScanPrefix(s) == Scan(1, 10, s)
  {
    assert TrimStart(s) == s;
  }

  /** Only the leading digits count: digits followed by anything that does not
      start with a digit read as the digits' value ("3abc" is 3). */
  lemma ParseIntReadsDigitPrefix(d: string, rest: string)
    requires |d| >= 1 && d[0] != '0'
    requires forall i :: 0 <= i < |d| ==> IsDecimalDigit(d[i])
    requires rest == [] || !IsDecimalDigit(rest[0])
    ensures ParseInt(d + rest) == Some(DigitsValue(d, 10))
  {
    var s := d + rest;
    assert s[0] == d[0];
    ScanOfPlainText(s);
    DigitRunOfConcat(d, rest, 10);
    assert s[..|d|] == d;
  }

  lemma {:induction false} TrimStartOfWhiteSpace(ws: string, s: string)
    requires forall i :: 0 <= i < |ws| ==> IsStrWhiteSpace(ws[i])
    ensures TrimStart(ws + s) == TrimStart(s)
  {
    if ws == [] {
      assert ws + s == s;
    } else {
      assert (ws + s)[0] == ws[0];
      assert (ws + s)[1..] == ws[1..] + s;
      TrimStartOfWhiteSpace(ws[1..], s);
    }
  }

  /** parseInt depends on its input only through the text left after
      trimming. */
  lemma ParseIntOfSameTrim(a: string, b: string)
    requires TrimStart(a) == TrimStart(b)
    ensures ParseInt(a) == ParseInt(b)
  {
    assert ScanPrefix(a) == ScanTrimmed(TrimStart(b));
  }

  /** Leading white space never changes the result (" 12" is 12). */
  lemma ParseIntSkipsWhiteSpace(ws: string, s: string)
    requires forall i :: 0 <= i < |ws| ==> IsStrWhiteSpace(ws[i])
    ensures ParseInt(ws + s) == ParseInt(s)
  {
    TrimStartOfWhiteSpace(ws, s);
    ParseIntOfSameTrim(ws + s, s);
  }

  lemma ScanOfHexPrefix(u: string)
    requires |u| >= 2 && u[0] == '0' && u[1] == 'x'
    ensures ScanPrefix(u) == Scan(1, 16, u[2..])
  {
    assert TrimStart(u) == u;
  }

  /** A `0x` prefix switches to hexadecimal: "0x" followed by hex digits reads
      as their value in radix 16 ("0x1A" is 26). */
  lemma ParseIntReadsHex(h: string, rest: string)
    requires |h| >= 1
    requires forall i :: 0 <= i < |h| ==> IsRadixDigit(h[i], 16)
    requires rest == [] || !IsRadixDigit(rest[0], 16)
    ensures ParseInt("0x" + h + rest) == Some(DigitsValue(h, 16))
  {
    var d := h + rest;
    var s := "0x" + d;
    assert "0x" + h + rest == s;
    assert s[0] == '0' && s[1] == 'x' && s[2..] == d;
    ScanOfHexPrefix(s);
    DigitRunOfConcat(h, rest, 16);
    assert d[..|h|] == h;
    assert ParseInt(s) == Some(DigitsValue(h, 16));
  }

  /** Empty text, and text starting with anything but white space, a sign or a
      digit, is NaN ("abc" is NaN). */
  lemma ParseIntRejectsNonNumeric(s: string)
    requires s == [] || (!IsStrWhiteSpace(s[0]) && s[0] != '+' && s[0] != '-' && !IsDecimalDigit(s[0]))
    ensures ParseInt(s) == None
  {
    if s != [] {
      ScanOfPlainText(s);
    }
  }
}

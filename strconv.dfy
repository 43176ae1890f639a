/** The parts of Go's `strconv` package the parser relies on: `Atoi`, the decimal
    formatting used by `%d`, `QuoteToASCII` and `Unquote`. */
module StrConv {
  import opened Wrappers
  import Strings
  import Seqs

  const MinInt64: int := -0x8000_0000_0000_0000
  const MaxInt64: int := 0x7FFF_FFFF_FFFF_FFFF

  predicate IsDigit(c: char) { '0' <= c <= '9' }

  predicate IsDigits(s: string)
  {
    |s| > 0 && forall k :: 0 <= k < |s| ==> IsDigit(s[k])
  }

  /** The number a string of decimal digits denotes. */
  function DecimalValue(s: string): nat
    requires forall k :: 0 <= k < |s| ==> IsDigit(s[k])
  {
    if |s| == 0 then 0
    else
      assert IsDigit(s[|s| - 1]);
      DecimalValue(s[..|s| - 1]) * 10 + (s[|s| - 1] as int - '0' as int)
  }

  /** `strconv.Atoi` on a 64-bit platform: an optional sign followed by at least one
      decimal digit, whose value fits in 64 bits; anything else is an error. */
  function Atoi(s: string): (r: Option<int>)
    ensures r.Some? ==> MinInt64 <= r.value <= MaxInt64
    ensures r.Some? ==> |s| > 0 && (s[0] == '+' || s[0] == '-' || IsDigit(s[0]))
    ensures r.Some? ==> IsDigit(s[|s| - 1])
    ensures r.Some? && r.value < 0 ==> s[0] == '-'
  {
    var signed := |s| > 0 && (s[0] == '+' || s[0] == '-');
    var digits := if signed then s[1..] else s;
    if !IsDigits(digits) then None
    else
      assert IsDigit(digits[|digits| - 1]);
      var n: int := DecimalValue(digits);
      var v := if signed && s[0] == '-' then -n else n;
      if MinInt64 <= v <= MaxInt64 then Some(v) else None
  }

  function DigitChar(d: nat): (c: char)
    requires d < 10
    ensures IsDigit(c) && c as int - '0' as int == d
  {
    (d + '0' as int) as char
  }

  /** Decimal rendering of a natural number, as `%d` writes it. */
  function FormatNat(n: nat): (r: string)
    ensures IsDigits(r)
  {
    if n < 10 then [DigitChar(n)] else FormatNat(n / 10) + [DigitChar(n % 10)]
  }

  lemma {:induction false} DecimalValueOfFormatNat(n: nat)
    ensures DecimalValue(FormatNat(n)) == n
  {
    if n >= 10 {
      var s := FormatNat(n);
      assert s[..|s| - 1] == FormatNat(n / 10);
      DecimalValueOfFormatNat(n / 10);
    }
  }

  /** `Atoi` reads back what `%d` writes. */
  lemma AtoiOfFormatNat(n: nat)
    requires n <= MaxInt64
    ensures Atoi(FormatNat(n)) == Some(n)
  {
    DecimalValueOfFormatNat(n);
  }

  // ---------------------------------------------------------------- hexadecimal

  function Pow16(width: nat): (r: nat)
    ensures r >= 1
  {
    if width == 0 then 1 else 16 * Pow16(width - 1)
  }

  function HexDigit(d: nat): (c: char)
    requires d < 16
    ensures HexValue(c) == Some(d)
  {
    if d < 10 then (d + '0' as int) as char else (d - 10 + 'a' as int) as char
  }

  function HexValue(c: char): Option<nat>
  {
    if '0' <= c <= '9' then Some(c as int - '0' as int)
    else if 'a' <= c <= 'f' then Some(c as int - 'a' as int + 10)
    else if 'A' <= c <= 'F' then Some(c as int - 'A' as int + 10)
    else None
  }

  /** The low `width` hexadecimal digits of `v`, lower case, as Go's escapes write them. */
  function Hex(v: nat, width: nat): (r: string)
    ensures |r| == width
    ensures forall k :: 0 <= k < |r| ==> ('0' <= r[k] <= '9' || 'a' <= r[k] <= 'f')
  {
    if width == 0 then "" else Hex(v / 16, width - 1) + [HexDigit(v % 16)]
  }

  function ParseHex(s: string): Option<nat>
  {
    if |s| == 0 then Some(0)
    else match (ParseHex(s[..|s| - 1]), HexValue(s[|s| - 1]))
      case (Some(high), Some(low)) => Some(high * 16 + low)
      case _ => None
  }

  lemma {:induction false} ParseHexOfHex(v: nat, width: nat)
    requires v < Pow16(width)
    ensures ParseHex(Hex(v, width)) == Some(v)
  {
    if width > 0 {
      var s := Hex(v, width);
      assert s[..|s| - 1] == Hex(v / 16, width - 1);
      ParseHexOfHex(v / 16, width - 1);
    }
  }

  // ---------------------------------------------------------------- QuoteToASCII

  predicate IsPrintableAscii(c: char) { 0x20 <= c as int <= 0x7E }

  /** A scalar value Go's `utf8.ValidRune` accepts. */
  predicate IsScalar(v: int)
  {
    (0 <= v < 0xD800) || (0xE000 <= v < 0x11_0000)
  }

  /** How `QuoteToASCII` writes one character: printable ASCII as itself (with `"` and
      `\` backslash-escaped), the seven C control escapes, other ASCII controls as
      `\xHH`, and everything beyond ASCII as `\uHHHH` or `\UHHHHHHHH`. */
  function EscapeRune(c: char): (r: string)
    ensures |r| > 0
    ensures forall k :: 0 <= k < |r| ==> IsPrintableAscii(r[k])
  {
    var v := c as int;
    if c == '"' || c == '\\' then ['\\', c]
    else if IsPrintableAscii(c) then [c]
    else if v == 7 then "\\a"
    else if v == 8 then "\\b"
    else if v == 12 then "\\f"
    else if v == 10 then "\\n"
    else if v == 13 then "\\r"
    else if v == 9 then "\\t"
    else if v == 11 then "\\v"
    else if v < 0x20 || v == 0x7F then "\\x" + Hex(v, 2)
    else if v < 0x1_0000 then "\\u" + Hex(v, 4)
    else "\\U" + Hex(v, 8)
  }

  function Escape(s: string): (r: string)
    ensures forall k :: 0 <= k < |r| ==> IsPrintableAscii(r[k])
  {
    if |s| == 0 then "" else EscapeRune(s[0]) + Escape(s[1..])
  }

  /** `strconv.QuoteToASCII`: a double-quoted Go string literal of pure ASCII. */
  function QuoteToASCII(s: string): (r: string)
    ensures |r| >= 2 && r[0] == '"' && r[|r| - 1] == '"'
    ensures Strings.IsAscii(r)
    ensures forall k :: 0 <= k < |r| ==> IsPrintableAscii(r[k])
  {
    "\"" + Escape(s) + "\""
  }

  /** Escaping never writes a '/' that was not there: '/' is printable and none of
      the escapes uses it. */
  lemma {:induction false} EscapeAddsNoSlash(s: string)
    requires '/' !in s
    ensures '/' !in Escape(s)
    decreases |s|
  {
    if |s| > 0 {
      var e := EscapeRune(s[0]);
      assert '/' !in e;
      EscapeAddsNoSlash(s[1..]);
      assert Escape(s) == e + Escape(s[1..]);
    }
  }

  lemma QuoteAddsNoSlash(s: string)
    requires '/' !in s
    ensures '/' !in QuoteToASCII(s)
  {
    EscapeAddsNoSlash(s);
    assert QuoteToASCII(s) == "\"" + Escape(s) + "\"";
  }

  // ---------------------------------------------------------------- Unquote

  predicate IsOctal(c: char) { '0' <= c <= '7' }

  /** `strconv.UnquoteChar`: decodes the first character (or escape) of `s` inside a
      literal delimited by `quote`, returning it and the unread tail. An escaped
      byte of 0x80 or more (`\xHH`, `\OOO`) is rejected here: it does not stand for
      a character. */
  function UnquoteChar(s: string, quote: char): (r: Option<(char, string)>)
    requires |s| > 0
    ensures r.Some? ==> |r.value.1| < |s| && r.value.1 == s[|s| - |r.value.1|..]
  {
    var c := s[0];
    if c == quote && (quote == '\'' || quote == '"') then None
    else if c as int >= 0x80 || c != '\\' then Some((c, s[1..]))
    else if |s| == 1 then None
    else
      var e, rest := s[1], s[2..];
      if e == 'a' then Some(('\U{7}', rest))
      else if e == 'b' then Some(('\U{8}', rest))
      else if e == 'f' then Some(('\U{C}', rest))
      else if e == 'n' then Some(('\n', rest))
      else if e == 'r' then Some(('\r', rest))
      else if e == 't' then Some(('\t', rest))
      else if e == 'v' then Some(('\U{B}', rest))
      else if e == 'x' || e == 'u' || e == 'U' then
        var width := if e == 'x' then 2 else if e == 'u' then 4 else 8;
        if |rest| < width then None
        else match ParseHex(rest[..width])
          case None => None
          case Some(v) =>
            if e == 'x' && v >= 0x80 then None
            else if !IsScalar(v) then None
            else Some((v as char, rest[width..]))
      else if IsOctal(e) then
        if |rest| < 2 || !IsOctal(rest[0]) || !IsOctal(rest[1]) then None
        else
          var v := (e as int - '0' as int) * 64 + (rest[0] as int - '0' as int) * 8
                   + (rest[1] as int - '0' as int);
          if v >= 0x80 then None else Some((v as char, rest[2..]))
      else if e == '\\' then Some(('\\', rest))
      else if e == '\'' || e == '"' then
        if e != quote then None else Some((e, rest))
      else None
  }

  function UnquoteAll(s: string, quote: char): Option<string>
    decreases |s|
  {
    if |s| == 0 then Some("")
    else match UnquoteChar(s, quote)
      case None => None
      case Some((c, rest)) =>
        match UnquoteAll(rest, quote)
        case None => None
        case Some(tail) => Some([c] + tail)
  }

  function WithoutCarriageReturns(s: string): (r: string)
    ensures '\r' !in r
  {
    if |s| == 0 then "" else (if s[0] == '\r' then "" else [s[0]]) + WithoutCarriageReturns(s[1..])
  }

  /** `strconv.Unquote`: the text denoted by a Go string literal in double quotes,
      single quotes (one character) or back quotes, or an error. */
  function Unquote(s: string): Option<string>
  {
    if |s| < 2 || s[0] != s[|s| - 1] then None
    else
      var quote, inner := s[0], s[1..|s| - 1];
      if quote == '`' then
        if '`' in inner then None else Some(WithoutCarriageReturns(inner))
      else if quote != '"' && quote != '\'' then None
      else if '\n' in inner then None
      else if quote == '"' then UnquoteAll(inner, '"')
      else if |inner| == 0 then Some("")
      else match UnquoteChar(inner, '\'')
        case Some((c, rest)) => if |rest| == 0 then Some([c]) else None
        case None => None
  }

  lemma UnquoteCharOfHexEscape(c: char, e: char, width: nat, rest: string)
    requires (e == 'x' && width == 2 && c as int < 0x80) || (e == 'u' && width == 4)
             || (e == 'U' && width == 8)
    requires c as int < Pow16(width)
    ensures UnquoteChar(['\\', e] + Hex(c as int, width) + rest, '"') == Some((c, rest))
  {
    var h := Hex(c as int, width);
    var t := h + rest;
    assert ['\\', e] + h + rest == ['\\', e] + t;
    Seqs.AppendParts(h, rest);
    ParseHexOfHex(c as int, width);
    assert IsScalar(c as int) && (c as int) as char == c;
    UnquoteCharOfHexDigits(e, width, t, c as int);
  }

  /** A hex escape whose digits stand for a scalar value (below 0x80 for `\x`) reads as
      that value, the rest left over. */
  lemma UnquoteCharOfHexDigits(e: char, width: nat, t: string, v: nat)
    requires (e == 'x' && width == 2 && v < 0x80) || (e == 'u' && width == 4) || (e == 'U' && width == 8)
    requires |t| >= width && ParseHex(t[..width]) == Some(v) && IsScalar(v)
    ensures UnquoteChar(['\\', e] + t, '"') == Some((v as char, t[width..]))
  {
    var s := ['\\', e] + t;
    assert s[0] == '\\' && s[1] == e && s[2..] == t;
  }

  lemma UnquoteCharOfEscapeRune(c: char, rest: string)
    ensures UnquoteChar(EscapeRune(c) + rest, '"') == Some((c, rest))
  {
    var v := c as int;
    if c == '"' || c == '\\' || IsPrintableAscii(c) {
    } else if v == 7 || v == 8 || v == 12 || v == 10 || v == 13 || v == 9 || v == 11 {
    } else if v < 0x20 || v == 0x7F {
      assert Pow16(2) == 256;
      UnquoteCharOfHexEscape(c, 'x', 2, rest);
    } else if v < 0x1_0000 {
      assert Pow16(4) == 0x1_0000;
      UnquoteCharOfHexEscape(c, 'u', 4, rest);
    } else {
      assert Pow16(8) == 0x1_0000_0000;
      UnquoteCharOfHexEscape(c, 'U', 8, rest);
    }
  }

  lemma {:induction false} UnquoteAllOfEscape(s: string)
    ensures UnquoteAll(Escape(s), '"') == Some(s)
  {
    if |s| > 0 {
      UnquoteCharOfEscapeRune(s[0], Escape(s[1..]));
      UnquoteAllOfEscape(s[1..]);
      assert [s[0]] + s[1..] == s;
    }
  }

  /** Unquoting undoes `QuoteToASCII` for every text. */
  lemma UnquoteOfQuoteToASCII(s: string)
    ensures Unquote(QuoteToASCII(s)) == Some(s)
  {
    var q := QuoteToASCII(s);
    assert q[1..|q| - 1] == Escape(s);
    assert '\n' !in Escape(s) by {
      forall k | 0 <= k < |Escape(s)| ensures Escape(s)[k] != '\n' {
        assert IsPrintableAscii(Escape(s)[k]);
      }
    }
    UnquoteAllOfEscape(s);
  }
}

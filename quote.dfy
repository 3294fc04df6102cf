/**
 * The parts of `strconv.Quote`, `strconv.Unquote`, `strconv.ParseBool` and
 * `strconv.FormatBool` that the settings file relies on.
 */
module Quoting {
  import opened Wrappers
  import opened Strs

  /** `unicode.IsPrint` above ASCII (the Unicode graphic categories and U+0020), left uninterpreted. */
  const PrintTable: char -> bool

  /** `unicode.IsPrint`: in ASCII exactly the code points from space to `~`. */
  predicate IsPrint(c: char) {
    if c < '\U{80}' then ' ' <= c <= '~' else PrintTable(c)
  }

  const LowerHex: string := "0123456789abcdef"

  /** The last `n` hexadecimal digits of `v`, most significant first. */
  function Hex(v: nat, n: nat): string
    decreases n
  {
    if n == 0 then [] else Hex(v / 16, n - 1) + [LowerHex[v % 16]]
  }

  /** How `strconv.Quote` writes one code point inside the double quotes. */
  function QuoteRune(c: char): string {
    if c == '"' || c == '\\' then ['\\', c]
    else if IsPrint(c) then [c]
    else if c == '\U{07}' then "\\a"
    else if c == '\U{08}' then "\\b"
    else if c == '\U{0C}' then "\\f"
    else if c == '\n' then "\\n"
    else if c == '\r' then "\\r"
    else if c == '\t' then "\\t"
    else if c == '\U{0B}' then "\\v"
    else if c < ' ' || c == '\U{7F}' then "\\x" + Hex(c as int, 2)
    else if c as int < 0x10000 then "\\u" + Hex(c as int, 4)
    else "\\U" + Hex(c as int, 8)
  }

  function QuoteBody(s: string): string {
    if s == [] then [] else QuoteRune(s[0]) + QuoteBody(s[1..])
  }

  /** `strconv.Quote`: a double-quoted Go string literal. */
  function Quote(s: string): string {
    "\"" + QuoteBody(s) + "\""
  }

  /** Code points `strconv.Quote` writes as they are. */
  predicate Verbatim(s: string) {
    forall i :: 0 <= i < |s| ==> IsPrint(s[i]) && s[i] != '"' && s[i] != '\\'
  }

  /** `strconv.Unquote` of a double-quoted literal holding a backslash: escape decoding, left uninterpreted. */
  const UnquoteEscaped: string -> Option<string>

  /** `strconv.Unquote` of a single-quoted rune literal, left uninterpreted. */
  const UnquoteRune: string -> Option<string>

  /** A raw string's value: its text with carriage returns dropped. */
  function DropCR(s: string): string {
    if s == [] then [] else (if s[0] == '\r' then [] else [s[0]]) + DropCR(s[1..])
  }

  /**
   * `strconv.Unquote`: the value of a Go string literal, or `None` when `s` is not exactly
   * one literal. A raw literal runs to the next backquote; an interpreted one without a
   * backslash runs to the next double quote and may hold no newline.
   */
  function Unquote(s: string): Option<string> {
    if |s| < 2 then None
    else if s[0] == '`' then
      match Cut(s[1..], '`')
      case None => None
      case Some(p) => if p.1 == [] then Some(DropCR(p.0)) else None
    else if s[0] == '"' then
      match Cut(s[1..], '"')
      case None => None
      case Some(p) =>
        if '\\' in p.0 then UnquoteEscaped(s)
        else if '\n' in p.0 || p.1 != [] then None
        else Some(p.0)
    else if s[0] == '\'' then UnquoteRune(s)
    else None
  }

  /** Printable text without quotes or backslashes is quoted by wrapping it in double quotes. */
  lemma {:induction false} QuoteVerbatim(s: string)
    requires Verbatim(s)
    ensures QuoteBody(s) == s
    decreases |s|
  {
    if s != [] {
      assert Verbatim(s[1..]) by {
        assert forall i :: 0 <= i < |s| - 1 ==> s[1..][i] == s[i + 1];
      }
      QuoteVerbatim(s[1..]);
      assert s == [s[0]] + s[1..];
    }
  }

  /** Unquoting undoes quoting for printable text without quotes or backslashes. */
  lemma UnquoteQuote(s: string)
    requires Verbatim(s)
    ensures Unquote(Quote(s)) == Some(s)
  {
    QuoteVerbatim(s);
    var q := Quote(s);
    assert q[1..] == s + [] + "\"" + [];
    assert q[1..] == s + ['"'] + [];
    CutAt(s, '"', []);
  }

  /** Hexadecimal digits are never a line feed or a carriage return. */
  lemma {:induction false} HexClean(v: nat, n: nat)
    ensures '\n' !in Hex(v, n) && '\r' !in Hex(v, n)
    decreases n
  {
    if n > 0 {
      HexClean(v / 16, n - 1);
      assert forall k :: 0 <= k < |LowerHex| ==> LowerHex[k] != '\n' && LowerHex[k] != '\r';
    }
  }

  /** Every code point is written without a raw line break: `\n` and `\r` are escaped. */
  /** A numeric escape, its tag followed by hexadecimal digits, holds no line break. */
  lemma EscapeClean(tag: string, v: nat, n: nat)
    requires '\n' !in tag && '\r' !in tag
    ensures '\n' !in tag + Hex(v, n) && '\r' !in tag + Hex(v, n)
  {
    HexClean(v, n);
  }

  lemma QuoteRuneClean(c: char)
    ensures '\n' !in QuoteRune(c) && '\r' !in QuoteRune(c)
  {
    if c == '"' || c == '\\' {
    } else if IsPrint(c) {
      assert QuoteRune(c) == [c] && c != '\n' && c != '\r';
    } else if c == '\U{07}' || c == '\U{08}' || c == '\U{0C}' || c == '\n' || c == '\r' || c == '\t' || c == '\U{0B}' {
      assert |QuoteRune(c)| == 2 && QuoteRune(c)[0] == '\\' && 'a' <= QuoteRune(c)[1] <= 'v';
    } else if c < ' ' || c == '\U{7F}' {
      EscapeClean("\\x", c as int, 2);
    } else if c as int < 0x10000 {
      EscapeClean("\\u", c as int, 4);
    } else {
      EscapeClean("\\U", c as int, 8);
    }
  }

  lemma {:induction false} QuoteBodyClean(s: string)
    ensures '\n' !in QuoteBody(s) && '\r' !in QuoteBody(s)
    decreases |s|
  {
    if s != [] {
      QuoteRuneClean(s[0]);
      QuoteBodyClean(s[1..]);
    }
  }

  /** A quoted literal holds no line break, whatever the text: it always stays on one line. */
  lemma QuoteClean(s: string)
    ensures '\n' !in Quote(s) && '\r' !in Quote(s)
  {
    QuoteBodyClean(s);
  }

  /** A quoted literal starts and ends with a double quote. */
  lemma QuoteEnds(s: string)
    ensures var q := Quote(s); |q| >= 2 && q[0] == '"' && q[|q| - 1] == '"'
  {
  }

  /** `strconv.ParseBool`. */
  function ParseBool(s: string): Option<bool> {
    if s in ["1", "t", "T", "TRUE", "true", "True"] then Some(true)
    else if s in ["0", "f", "F", "FALSE", "false", "False"] then Some(false)
    else None
  }

  /** `strconv.FormatBool`. */
  function FormatBool(b: bool): string {
    if b then "true" else "false"
  }

  /** `ParseBool` reads back what `FormatBool` writes. */
  lemma ParseFormatBool(b: bool)
    ensures ParseBool(FormatBool(b)) == Some(b)
  {
  }

  /** `ParseBool` accepts exactly the six spellings of each value. */
  lemma ParseBoolSome(s: string)
    ensures ParseBool(s) == Some(true) <==> s in ["1", "t", "T", "TRUE", "true", "True"]
    ensures ParseBool(s) == Some(false) <==> s in ["0", "f", "F", "FALSE", "false", "False"]
  {
  }
}

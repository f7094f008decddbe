/**
 * Python's `repr` for the values the answer node interpolates into its messages
 * (f-strings format lists and dicts with `repr` of their items): strings, booleans,
 * lists of strings and the execute node's result record. A character `str.isprintable`
 * accepts is written as it is; any other is written `\xhh`, `\uhhhh` or `\Uhhhhhhhh`.
 */
module PyRepr {
  import opened Text
  import opened State

  function HexDigit(d: nat): char
    requires d < 16
  {
    if d < 10 then ('0' as int + d) as char else ('a' as int + d - 10) as char
  }

  predicate IsHexDigit(c: char) {
    '0' <= c <= '9' || 'a' <= c <= 'f'
  }

  function HexValue(c: char): nat
    requires IsHexDigit(c)
  {
    if c <= '9' then c as int - '0' as int else c as int - 'a' as int + 10
  }

  function Pow16(n: nat): (r: nat)
    ensures r > 0
  {
    if n == 0 then 1 else 16 * Pow16(n - 1)
  }

  /** `v` written with exactly `n` lower-case hex digits, most significant first. */
  function Hex(v: nat, n: nat): string {
    if n == 0 then "" else Hex(v / 16, n - 1) + [HexDigit(v % 16)]
  }

  predicate AllHex(t: string) {
    forall i :: 0 <= i < |t| ==> IsHexDigit(t[i])
  }

  /** The number a run of hex digits denotes. */
  function HexNumber(t: string): nat
    requires AllHex(t)
  {
    if |t| == 0 then 0 else HexNumber(t[..|t| - 1]) * 16 + HexValue(t[|t| - 1])
  }

  /** The code points a `char` can hold: every Unicode scalar value. */
  predicate IsCharValue(v: int) {
    0 <= v < 0xD800 || 0xE000 <= v < 0x11_0000
  }

  // ---------------------------------------------------------------------------
  // `str.isprintable` for one character, by Unicode general category (Unicode 15.0)

  /** Category Cc: the C0 controls, DEL and the C1 controls. */
  predicate IsControl(c: char) {
    c as int <= 0x1f || 0x7f <= c as int <= 0x9f
  }

  /** Categories Zs (all but the ASCII space), Zl and Zp. */
  predicate IsSeparator(c: char) {
    var v := c as int;
    v == 0xa0 || v == 0x1680 || 0x2000 <= v <= 0x200a || v == 0x2028 || v == 0x2029
    || v == 0x202f || v == 0x205f || v == 0x3000
  }

  /** Category Cf: format characters. */
  predicate IsFormat(c: char) {
    var v := c as int;
    v == 0xad || 0x600 <= v <= 0x605 || v == 0x61c || v == 0x6dd || v == 0x70f
    || 0x890 <= v <= 0x891 || v == 0x8e2 || v == 0x180e || 0x200b <= v <= 0x200f
    || 0x202a <= v <= 0x202e || 0x2060 <= v <= 0x2064 || 0x2066 <= v <= 0x206f
    || v == 0xfeff || 0xfff9 <= v <= 0xfffb || v == 0x110bd || v == 0x110cd
    || 0x13430 <= v <= 0x1343f || 0x1bca0 <= v <= 0x1bca3 || 0x1d173 <= v <= 0x1d17a
    || v == 0xe0001 || 0xe0020 <= v <= 0xe007f
  }

  /** Category Co: the private-use planes and area. */
  predicate IsPrivateUse(c: char) {
    var v := c as int;
    0xe000 <= v <= 0xf8ff || 0xf_0000 <= v <= 0xf_fffd || 0x10_0000 <= v <= 0x10_fffd
  }

  /** Whether `repr` may write the character as it is. */
  predicate IsPrintable(c: char) {
    !IsControl(c) && !IsSeparator(c) && !IsFormat(c) && !IsPrivateUse(c)
  }

  /** How many hex digits `repr`'s escape of a non-printable character has: `\xhh`, `\uhhhh` or `\Uhhhhhhhh`. */
  function EscapeWidth(c: char): (n: nat)
    ensures c as int < Pow16(n)
  {
    if c as int < 0x100 then 2 else if c as int < 0x1_0000 then 4 else 8
  }

  function EscapeLetter(c: char): char {
    if c as int < 0x100 then 'x' else if c as int < 0x1_0000 then 'u' else 'U'
  }

  /** How `repr` writes one character of a string quoted with `quote`. */
  function EscapeChar(c: char, quote: char): (r: string)
    ensures |r| > 0
  {
    if c == '\\' then "\\\\"
    else if c == quote then ['\\', quote]
    else if c == '\n' then "\\n"
    else if c == '\r' then "\\r"
    else if c == '\t' then "\\t"
    else if IsPrintable(c) then [c]
    else ['\\', EscapeLetter(c)] + Hex(c as int, EscapeWidth(c))
  }

  function Escape(s: string, quote: char): string {
    if |s| == 0 then "" else EscapeChar(s[0], quote) + Escape(s[1..], quote)
  }

  /** `repr` quotes with `"` only when the text has a `'` and no `"`. */
  function QuoteFor(s: string): char {
    if '\'' in s && '"' !in s then '"' else '\''
  }

  /** `repr(s)` for a string. */
  function ReprStr(s: string): string {
    var q := QuoteFor(s);
    [q] + Escape(s, q) + [q]
  }

  function ReprBool(b: bool): string {
    if b then "True" else "False"
  }

  function ReprItems(xs: seq<string>): (r: seq<string>)
    ensures |r| == |xs|
  {
    if |xs| == 0 then [] else [ReprStr(xs[0])] + ReprItems(xs[1..])
  }

  /** `repr(xs)` for a list of strings. */
  function ReprList(xs: seq<string>): string {
    "[" + Join(", ", ReprItems(xs)) + "]"
  }

  /** `repr` of the execute node's `{"dummy": ..., "sql": ..., "rows": ...}`. */
  function ReprResult(r: ExecResult): string {
    "{'dummy': " + ReprBool(r.dummy) + ", 'sql': " + ReprStr(r.sql) + ", 'rows': " + ReprList(r.rows) + "}"
  }

  /** `repr` of an optional result: `None` when there is none. */
  function ReprOptResult(r: Option<ExecResult>): string {
    if r.Some? then ReprResult(r.value) else "None"
  }

  // ---------------------------------------------------------------------------
  // Reading a quoted body back

  /** Undoes `Escape`: the text between the quotes of a `repr`, back to the string. */
  function Unescape(t: string): Option<string>
    decreases |t|
  {
    if |t| == 0 then Some("")
    else if t[0] != '\\' then
      var rest := Unescape(t[1..]);
      if rest.Some? then Some([t[0]] + rest.value) else None
    else if |t| < 2 then None
    else
      var c := t[1];
      var head: Option<char> :=
        if c == '\\' || c == '\'' || c == '"' then Some(c)
        else if c == 'n' then Some('\n')
        else if c == 'r' then Some('\r')
        else if c == 't' then Some('\t')
        else None;
      var n := if c == 'x' then 2 else if c == 'u' then 4 else if c == 'U' then 8 else 0;
      if head.Some? then
        var rest := Unescape(t[2..]);
        if rest.Some? then Some([head.value] + rest.value) else None
      else if n > 0 && |t| >= 2 + n && AllHex(t[2..2 + n]) && IsCharValue(HexNumber(t[2..2 + n])) then
        var rest := Unescape(t[2 + n..]);
        if rest.Some? then Some([HexNumber(t[2..2 + n]) as char] + rest.value) else None
      else None
  }

  lemma HexDigitValue(d: nat)
    requires d < 16
    ensures IsHexDigit(HexDigit(d)) && HexValue(HexDigit(d)) == d
  {
  }

  /** `Hex` gives `n` digits that read back as `v`. */
  lemma {:induction false} HexRoundTrip(v: nat, n: nat)
    requires v < Pow16(n)
    ensures var h := Hex(v, n); |h| == n && AllHex(h) && HexNumber(h) == v
  {
    if n > 0 {
      HexRoundTrip(v / 16, n - 1);
      HexDigitValue(v % 16);
      var h := Hex(v, n);
      assert h[..|h| - 1] == Hex(v / 16, n - 1);
    }
  }

  /** How `repr` writes a character it escapes by its code point. */
  function HexEscape(c: char): string {
    ['\\', EscapeLetter(c)] + Hex(c as int, EscapeWidth(c))
  }

  /** Unescaping a code-point escape and then the rest. */
  lemma UnescapeHex(c: char, t: string)
    requires Unescape(t).Some?
    ensures Unescape(HexEscape(c) + t) == Some([c] + Unescape(t).value)
  {
    var n := EscapeWidth(c);
    var e := HexEscape(c) + t;
    HexRoundTrip(c as int, n);
    assert e[1] == EscapeLetter(c);
    assert e[2..2 + n] == Hex(c as int, n);
    assert e[2 + n..] == t;
  }

  /** The characters `EscapeChar` escapes by code point. */
  predicate EscapedByCode(c: char, quote: char) {
    c != '\\' && c != quote && c != '\n' && c != '\r' && c != '\t' && !IsPrintable(c)
  }

  /** Unescaping a character written as it is, or as a backslash and one letter, and then the rest. */
  lemma UnescapeSimple(c: char, quote: char, t: string)
    requires quote == '\'' || quote == '"'
    requires Unescape(t).Some? && !EscapedByCode(c, quote)
    ensures Unescape(EscapeChar(c, quote) + t) == Some([c] + Unescape(t).value)
  {
    var e := EscapeChar(c, quote);
    if c == '\\' || c == quote || c == '\n' || c == '\r' || c == '\t' {
      assert (e + t)[2..] == t;
    } else {
      assert e == [c];
      assert (e + t)[1..] == t;
    }
  }

  /** Unescaping one escaped character and then the rest. */
  lemma UnescapeChar(c: char, quote: char, t: string)
    requires quote == '\'' || quote == '"'
    requires Unescape(t).Some?
    ensures Unescape(EscapeChar(c, quote) + t) == Some([c] + Unescape(t).value)
  {
    if EscapedByCode(c, quote) {
      UnescapeHex(c, t);
    } else {
      UnescapeSimple(c, quote, t);
    }
  }

  /** `Unescape` inverts `Escape`. */
  lemma {:induction false} UnescapeEscape(s: string, quote: char)
    requires quote == '\'' || quote == '"'
    ensures Unescape(Escape(s, quote)) == Some(s)
  {
    if |s| > 0 {
      var e := Escape(s[1..], quote);
      assert Escape(s, quote) == EscapeChar(s[0], quote) + e;
      UnescapeEscape(s[1..], quote);
      UnescapeChar(s[0], quote, e);
      assert [s[0]] + s[1..] == s;
    }
  }

  /** Visible ASCII and the space. */
  predicate PlainAscii(ch: char) {
    ' ' <= ch <= '~'
  }

  lemma PlainAsciiPrintable(ch: char)
    requires PlainAscii(ch)
    ensures IsPrintable(ch)
  {
  }

  /** A code-point escape is made of a backslash, a letter and hex digits: no quote, nothing non-printable. */
  lemma HexEscapePlain(c: char)
    ensures var h := HexEscape(c);
      forall i :: 0 <= i < |h| ==> PlainAscii(h[i]) && h[i] != '\'' && h[i] != '"'
  {
    HexRoundTrip(c as int, EscapeWidth(c));
    var h := HexEscape(c);
    forall i | 2 <= i < |h| ensures PlainAscii(h[i]) && h[i] != '\'' && h[i] != '"' {
      assert h[i] == Hex(c as int, EscapeWidth(c))[i - 2];
    }
  }

  /** Within one escaped character a quote only ever follows a backslash, and it never comes first. */
  lemma EscapeCharQuoted(c: char, quote: char)
    requires quote == '\'' || quote == '"'
    ensures var h := EscapeChar(c, quote);
      h[0] != quote && forall i :: 0 <= i < |h| && h[i] == quote ==> i > 0 && h[i - 1] == '\\'
  {
    if EscapedByCode(c, quote) {
      HexEscapePlain(c);
      assert EscapeChar(c, quote) == HexEscape(c);
    }
  }

  /** No character of an escaped body is a bare quote: each quote follows a backslash. */
  lemma {:induction false} EscapeQuoted(s: string, quote: char)
    requires quote == '\'' || quote == '"'
    ensures var e := Escape(s, quote);
      (|e| > 0 ==> e[0] != quote) && forall i :: 0 <= i < |e| && e[i] == quote ==> i > 0 && e[i - 1] == '\\'
  {
    if |s| > 0 {
      EscapeQuoted(s[1..], quote);
      EscapeCharQuoted(s[0], quote);
      var h := EscapeChar(s[0], quote);
      var t := Escape(s[1..], quote);
      assert Escape(s, quote) == h + t;
      forall i | 0 <= i < |h + t| && (h + t)[i] == quote
        ensures i > 0 && (h + t)[i - 1] == '\\'
      {
        if i >= |h| {
          assert t[i - |h|] == quote;
          assert i - |h| > 0;
          assert (h + t)[i - 1] == t[i - |h| - 1];
        } else {
          assert h[i] == quote;
        }
      }
    }
  }

  predicate AllPrintable(t: string) {
    forall i :: 0 <= i < |t| ==> IsPrintable(t[i])
  }

  /** Every character of one escaped character is printable. */
  lemma EscapeCharPrintable(c: char, quote: char)
    requires quote == '\'' || quote == '"'
    ensures AllPrintable(EscapeChar(c, quote))
  {
    var h := EscapeChar(c, quote);
    if EscapedByCode(c, quote) {
      HexEscapePlain(c);
      assert h == HexEscape(c);
      forall i | 0 <= i < |h| ensures IsPrintable(h[i]) {
        PlainAsciiPrintable(h[i]);
      }
    } else if c == '\\' || c == quote || c == '\n' || c == '\r' || c == '\t' {
      PlainAsciiPrintable('\\');
      PlainAsciiPrintable(h[1]);
    }
  }

  /** What `repr` writes is printable throughout, whatever the string holds. */
  lemma {:induction false} EscapePrintable(s: string, quote: char)
    requires quote == '\'' || quote == '"'
    ensures AllPrintable(Escape(s, quote))
  {
    if |s| > 0 {
      EscapePrintable(s[1..], quote);
      EscapeCharPrintable(s[0], quote);
      var h := EscapeChar(s[0], quote);
      var t := Escape(s[1..], quote);
      assert Escape(s, quote) == h + t;
      assert AllPrintable(h) && AllPrintable(t);
      forall i | 0 <= i < |h + t| ensures IsPrintable((h + t)[i]) {
        if i >= |h| {
          assert (h + t)[i] == t[i - |h|];
        } else {
          assert (h + t)[i] == h[i];
        }
      }
    }
  }

  /** A no-break space is written `\xa0`, and a line separator `\u2028`. */
  lemma NonPrintableEscapes()
    ensures EscapeChar('\U{a0}', '\'') == "\\xa0"
    ensures EscapeChar('\U{2028}', '\'') == "\\u2028"
  {
  }

  /** Text with nothing to escape is written as it is, between single quotes. */
  lemma {:induction false} EscapePlain(s: string, quote: char)
    requires forall i :: 0 <= i < |s| ==> s[i] != '\\' && s[i] != quote && IsPrintable(s[i])
    ensures Escape(s, quote) == s
  {
    if |s| > 0 {
      EscapePlain(s[1..], quote);
      assert [s[0]] + s[1..] == s;
    }
  }

  /** `repr(s)` of printable text without quotes or backslashes is `'s'`. */
  lemma ReprPlain(s: string)
    requires forall i :: 0 <= i < |s| ==> s[i] != '\\' && s[i] != '\'' && IsPrintable(s[i])
    ensures ReprStr(s) == "'" + s + "'"
  {
    EscapePlain(s, '\'');
  }

  /** The quoted string reads back: it opens and closes with its quote and its body unescapes to `s`. */
  lemma ReprStrRoundTrip(s: string)
    ensures var r := ReprStr(s);
      |r| >= 2 && r[0] == r[|r| - 1] == QuoteFor(s) && Unescape(r[1..|r| - 1]) == Some(s)
  {
    var q := QuoteFor(s);
    var r := ReprStr(s);
    UnescapeEscape(s, q);
    assert r[1..|r| - 1] == Escape(s, q);
  }

  lemma ReprListEmpty()
    ensures ReprList([]) == "[]"
  {
  }
}

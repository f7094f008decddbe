/**
 * Character classes, Python string helpers (strip, lower, split, join, str(int))
 * and the handful of regular-expression shapes the SQL gates use, written out by hand.
 *
 * A "word character" is what `\w` matches, restricted to ASCII (letters, digits, `_`);
 * lower- and upper-casing are ASCII only. Whitespace is Python's `str.isspace()`, which
 * is also the class `\s` and `str.strip()` use.
 *
 * The searching predicates are recursive over an index, so that the verifier can
 * evaluate them on short literal strings; each comes with a lemma that states it as a
 * plain existential over positions, and with a lemma that splits a search over a
 * concatenation.
 */
module Text {

  /** Python's `str.isspace()`. */
  predicate IsSpace(c: char) {
    c == ' ' || ('\t' <= c <= '\r') || ('\U{001C}' <= c <= '\U{001F}')
    || c == '\U{0085}' || c == '\U{00A0}' || c == '\U{1680}'
    || ('\U{2000}' <= c <= '\U{200A}') || c == '\U{2028}' || c == '\U{2029}'
    || c == '\U{202F}' || c == '\U{205F}' || c == '\U{3000}'
  }

  /** `\w`, restricted to ASCII. */
  predicate IsWordChar(c: char) {
    ('a' <= c <= 'z') || ('A' <= c <= 'Z') || ('0' <= c <= '9') || c == '_'
  }

  predicate IsDigit(c: char) {
    '0' <= c <= '9'
  }

  /** A non-empty run of word characters: an identifier as `\w+` sees it. */
  predicate IsWord(w: string) {
    |w| > 0 && forall i :: 0 <= i < |w| ==> IsWordChar(w[i])
  }

  predicate AllSpace(s: string) {
    forall i :: 0 <= i < |s| ==> IsSpace(s[i])
  }

  function LowerChar(c: char): char {
    if 'A' <= c <= 'Z' then (c as int + 32) as char else c
  }

  function UpperChar(c: char): char {
    if 'a' <= c <= 'z' then (c as int - 32) as char else c
  }

  /** Python's `str.lower()` (ASCII letters only). */
  function Lower(s: string): (r: string)
    ensures |r| == |s|
    ensures forall i :: 0 <= i < |s| ==> r[i] == LowerChar(s[i])
  {
    seq(|s|, i requires 0 <= i < |s| => LowerChar(s[i]))
  }

  /** Python's `str.upper()` (ASCII letters only). */
  function Upper(s: string): (r: string)
    ensures |r| == |s|
    ensures forall i :: 0 <= i < |s| ==> r[i] == UpperChar(s[i])
  {
    seq(|s|, i requires 0 <= i < |s| => UpperChar(s[i]))
  }

  lemma LowerConcat(a: string, b: string)
    ensures Lower(a + b) == Lower(a) + Lower(b)
  {
  }

  // ---------------------------------------------------------------------------
  // strip / rstrip

  /** Python's `str.lstrip()`: drops leading whitespace. */
  function LStrip(s: string): string {
    if |s| > 0 && IsSpace(s[0]) then LStrip(s[1..]) else s
  }

  /** Python's `str.rstrip()`: drops trailing whitespace. */
  function RStrip(s: string): string {
    if |s| > 0 && IsSpace(s[|s| - 1]) then RStrip(s[..|s| - 1]) else s
  }

  /** Python's `str.strip()`. */
  function Strip(s: string): string {
    RStrip(LStrip(s))
  }

  /** `lstrip` removes a whitespace prefix and stops at the first other character. */
  lemma {:induction false} LStripSpec(s: string)
    ensures |LStrip(s)| <= |s| && LStrip(s) == s[|s| - |LStrip(s)|..]
    ensures AllSpace(s[..|s| - |LStrip(s)|])
    ensures LStrip(s) == [] || !IsSpace(LStrip(s)[0])
  {
    if |s| > 0 && IsSpace(s[0]) {
      var p := s[1..];
      LStripSpec(p);
      var l := LStrip(p);
      assert LStrip(s) == l;
      assert p[|p| - |l|..] == s[|s| - |l|..];
      assert s[..|s| - |l|] == [s[0]] + p[..|p| - |l|];
    }
  }

  /** `rstrip` removes a whitespace suffix and stops at the last other character. */
  lemma {:induction false} RStripSpec(s: string)
    ensures |RStrip(s)| <= |s| && RStrip(s) == s[..|RStrip(s)|]
    ensures AllSpace(s[|RStrip(s)|..])
    ensures RStrip(s) == [] || !IsSpace(RStrip(s)[|RStrip(s)| - 1])
  {
    if |s| > 0 && IsSpace(s[|s| - 1]) {
      var p := s[..|s| - 1];
      RStripSpec(p);
      var r := RStrip(p);
      assert RStrip(s) == r;
      assert p[..|r|] == s[..|r|];
      assert s[|r|..] == p[|r|..] + [s[|s| - 1]];
    }
  }

  /**
   * `strip` keeps the slice of `s` between a whitespace prefix and a whitespace suffix;
   * the result is empty exactly for an all-whitespace input and otherwise starts and
   * ends with a non-whitespace character.
   */
  lemma StripSpec(s: string)
    ensures |LStrip(s)| <= |s|
    ensures var i := |s| - |LStrip(s)|;
      i + |Strip(s)| <= |s| && Strip(s) == s[i..i + |Strip(s)|]
      && AllSpace(s[..i]) && AllSpace(s[i + |Strip(s)|..])
    ensures Strip(s) == [] || (!IsSpace(Strip(s)[0]) && !IsSpace(Strip(s)[|Strip(s)| - 1]))
    ensures Strip(s) == [] <==> AllSpace(s)
  {
    var l := LStrip(s);
    var r := RStrip(l);
    var i := |s| - |l|;
    LStripSpec(s);
    RStripSpec(l);
    assert l == s[i..] && r == l[..|r|];
    assert s[i..][..|r|] == s[i..i + |r|];
    assert l[|r|..] == s[i + |r|..];
    if r == [] {
      assert s == s[..i] + l;
    }
  }

  /** A string whose two ends are not whitespace is its own strip. */
  lemma StripNoSpaceEnds(s: string)
    requires s == [] || (!IsSpace(s[0]) && !IsSpace(s[|s| - 1]))
    ensures Strip(s) == s
  {
  }

  lemma StripIdempotent(s: string)
    ensures Strip(Strip(s)) == Strip(s)
  {
    StripSpec(s);
    StripNoSpaceEnds(Strip(s));
  }

  /** Python's `str.rstrip(c)` for a single character `c`: drops every trailing `c`. */
  function RStripChar(s: string, c: char): string {
    if |s| > 0 && s[|s| - 1] == c then RStripChar(s[..|s| - 1], c) else s
  }

  lemma {:induction false} RStripCharSpec(s: string, c: char)
    ensures |RStripChar(s, c)| <= |s| && RStripChar(s, c) == s[..|RStripChar(s, c)|]
    ensures RStripChar(s, c) == [] || RStripChar(s, c)[|RStripChar(s, c)| - 1] != c
    ensures forall i :: |RStripChar(s, c)| <= i < |s| ==> s[i] == c
  {
    if |s| > 0 && s[|s| - 1] == c {
      RStripCharSpec(s[..|s| - 1], c);
    }
  }

  lemma RStripCharNoop(s: string, c: char)
    requires s == [] || s[|s| - 1] != c
    ensures RStripChar(s, c) == s
  {
  }

  // ---------------------------------------------------------------------------
  // Prefixes and substrings (Python's `startswith` and `in`)

  predicate StartsWith(s: string, p: string) {
    |p| <= |s| && s[..|p|] == p
  }

  /** `s[i + k] == w[k]` for every `k` from `j` on. */
  predicate MatchAt(s: string, i: nat, w: string, j: nat)
    requires i + |w| <= |s| && j <= |w|
    decreases |w| - j
  {
    j == |w| || (s[i + j] == w[j] && MatchAt(s, i, w, j + 1))
  }

  lemma MatchAtIndex(s: string, i: nat, w: string, k: nat)
    requires i + |w| <= |s| && k < |w| && MatchAt(s, i, w, 0)
    ensures s[i + k] == w[k]
  {
    MatchAtSpec(s, i, w, 0);
  }

  lemma {:induction false} MatchAtSpec(s: string, i: nat, w: string, j: nat)
    requires i + |w| <= |s| && j <= |w|
    ensures MatchAt(s, i, w, j) <==> forall k :: j <= k < |w| ==> s[i + k] == w[k]
    decreases |w| - j
  {
    if j < |w| {
      MatchAtSpec(s, i, w, j + 1);
    }
  }

  predicate SubstrAt(s: string, w: string, i: nat) {
    i + |w| <= |s| && MatchAt(s, i, w, 0)
  }

  predicate SubstrFrom(s: string, w: string, i: nat)
    requires i <= |s|
    decreases |s| - i
  {
    SubstrAt(s, w, i) || (i < |s| && SubstrFrom(s, w, i + 1))
  }

  /** Python's `w in s`. */
  predicate ContainsSubstr(s: string, w: string) {
    SubstrFrom(s, w, 0)
  }

  lemma {:induction false} SubstrFromSpec(s: string, w: string, i: nat)
    requires i <= |s|
    ensures SubstrFrom(s, w, i) <==> exists k :: i <= k <= |s| && SubstrAt(s, w, k)
    decreases |s| - i
  {
    if i < |s| {
      SubstrFromSpec(s, w, i + 1);
    }
  }

  lemma ContainsSubstrSpec(s: string, w: string)
    ensures ContainsSubstr(s, w) <==> exists k :: 0 <= k <= |s| && SubstrAt(s, w, k)
  {
    SubstrFromSpec(s, w, 0);
  }

  lemma SubstrAtSlice(s: string, w: string, k: nat)
    requires k + |w| <= |s|
    ensures SubstrAt(s, w, k) <==> s[k..k + |w|] == w
  {
    MatchAtSpec(s, k, w, 0);
  }

  /** An occurrence exhibited by its position. */
  lemma ContainsSubstrWitness(s: string, w: string, k: nat)
    requires k + |w| <= |s| && s[k..k + |w|] == w
    ensures ContainsSubstr(s, w)
  {
    SubstrAtSlice(s, w, k);
    ContainsSubstrSpec(s, w);
  }

  /** A text contains whatever it is built around. */
  lemma ContainsSubstrMiddle(a: string, w: string, b: string)
    ensures ContainsSubstr(a + w + b, w)
  {
    assert (a + w + b)[|a|..|a| + |w|] == w;
    ContainsSubstrWitness(a + w + b, w, |a|);
  }

  /** A string that lacks one character of `w` does not contain `w`. */
  lemma NoSubstrWithoutChar(s: string, w: string, k: nat)
    requires k < |w|
    requires forall i :: 0 <= i < |s| ==> s[i] != w[k]
    ensures !ContainsSubstr(s, w)
  {
    ContainsSubstrSpec(s, w);
    if ContainsSubstr(s, w) {
      var p :| 0 <= p <= |s| && SubstrAt(s, w, p);
      MatchAtIndex(s, p, w, k);
      assert false;
    }
  }

  /**
   * An occurrence in `a + b` lies in `a` or in `b` when the last character of `a`
   * does not occur in `w` (so no occurrence can straddle the join).
   */
  lemma ContainsSubstrConcat(a: string, b: string, w: string)
    requires |a| > 0 && forall j :: 0 <= j < |w| ==> w[j] != a[|a| - 1]
    ensures ContainsSubstr(a + b, w) <==> ContainsSubstr(a, w) || ContainsSubstr(b, w)
  {
    var s := a + b;
    ContainsSubstrSpec(s, w);
    ContainsSubstrSpec(a, w);
    ContainsSubstrSpec(b, w);
    if ContainsSubstr(s, w) {
      var k :| 0 <= k <= |s| && SubstrAt(s, w, k);
      MatchAtSpec(s, k, w, 0);
      if k + |w| <= |a| {
        MatchAtSpec(a, k, w, 0);
        assert SubstrAt(a, w, k);
      } else if k >= |a| {
        MatchAtSpec(b, k - |a|, w, 0);
        assert SubstrAt(b, w, k - |a|);
      } else {
        MatchAtIndex(s, k, w, |a| - 1 - k);
        assert false;
      }
    }
    if ContainsSubstr(a, w) {
      var k :| 0 <= k <= |a| && SubstrAt(a, w, k);
      MatchAtSpec(a, k, w, 0);
      MatchAtSpec(s, k, w, 0);
      assert SubstrAt(s, w, k);
    }
    if ContainsSubstr(b, w) {
      var k :| 0 <= k <= |b| && SubstrAt(b, w, k);
      MatchAtSpec(b, k, w, 0);
      MatchAtSpec(s, |a| + k, w, 0);
      assert SubstrAt(s, w, |a| + k);
    }
  }

  // ---------------------------------------------------------------------------
  // `\b` and whole-word, case-insensitive matching

  /** `\b` at position `p`: a word character on exactly one side. */
  predicate Boundary(s: string, p: nat)
    requires p <= |s|
  {
    (p > 0 && IsWordChar(s[p - 1])) != (p < |s| && IsWordChar(s[p]))
  }

  /** `LowerChar(s[i + k]) == LowerChar(w[k])` for every `k` from `j` on. */
  predicate MatchCI(s: string, i: nat, w: string, j: nat)
    requires i + |w| <= |s| && j <= |w|
    decreases |w| - j
  {
    j == |w| || (LowerChar(s[i + j]) == LowerChar(w[j]) && MatchCI(s, i, w, j + 1))
  }

  lemma MatchCIIndex(s: string, i: nat, w: string, k: nat)
    requires i + |w| <= |s| && k < |w| && MatchCI(s, i, w, 0)
    ensures LowerChar(s[i + k]) == LowerChar(w[k])
  {
    MatchCISpec(s, i, w, 0);
  }

  lemma {:induction false} MatchCISpec(s: string, i: nat, w: string, j: nat)
    requires i + |w| <= |s| && j <= |w|
    ensures MatchCI(s, i, w, j) <==> forall k :: j <= k < |w| ==> LowerChar(s[i + k]) == LowerChar(w[k])
    decreases |w| - j
  {
    if j < |w| {
      MatchCISpec(s, i, w, j + 1);
    }
  }

  /** `\b` + `w` (case-insensitively) + `\b` matches at position `i`. */
  predicate WordAt(s: string, w: string, i: nat) {
    i + |w| <= |s| && MatchCI(s, i, w, 0) && Boundary(s, i) && Boundary(s, i + |w|)
  }

  predicate WordFrom(s: string, w: string, i: nat)
    requires i <= |s|
    decreases |s| - i
  {
    WordAt(s, w, i) || (i < |s| && WordFrom(s, w, i + 1))
  }

  /** `re.search(r"\b" + re.escape(w) + r"\b", s, re.IGNORECASE)` succeeds. */
  predicate ContainsWordCI(s: string, w: string) {
    WordFrom(s, w, 0)
  }

  /** `re.match(re.escape(w) + r"\b", s, re.IGNORECASE)` succeeds. */
  predicate StartsWithWordCI(s: string, w: string) {
    |w| <= |s| && MatchCI(s, 0, w, 0) && Boundary(s, |w|)
  }

  /** Some word of `ws` occurs: the alternation `\b(w0|w1|...)\b`. */
  predicate ContainsAnyWordCI(s: string, ws: seq<string>) {
    exists k :: 0 <= k < |ws| && ContainsWordCI(s, ws[k])
  }

  lemma {:induction false} WordFromSpec(s: string, w: string, i: nat)
    requires i <= |s|
    ensures WordFrom(s, w, i) <==> exists k :: i <= k <= |s| && WordAt(s, w, k)
    decreases |s| - i
  {
    if i < |s| {
      WordFromSpec(s, w, i + 1);
    }
  }

  lemma ContainsWordCISpec(s: string, w: string)
    ensures ContainsWordCI(s, w) <==> exists k :: 0 <= k <= |s| && WordAt(s, w, k)
  {
    WordFromSpec(s, w, 0);
  }

  /** An occurrence exhibited by its position. */
  lemma ContainsWordCIWitness(s: string, w: string, k: nat)
    requires WordAt(s, w, k)
    ensures ContainsWordCI(s, w)
  {
    ContainsWordCISpec(s, w);
  }

  /** A string that lacks (in either case) one letter of `w` does not contain the word `w`. */
  lemma NoWordWithoutChar(s: string, w: string, k: nat)
    requires k < |w|
    requires forall i :: 0 <= i < |s| ==> LowerChar(s[i]) != LowerChar(w[k])
    ensures !ContainsWordCI(s, w)
  {
    ContainsWordCISpec(s, w);
    if ContainsWordCI(s, w) {
      var p :| 0 <= p <= |s| && WordAt(s, w, p);
      MatchCIIndex(s, p, w, k);
      assert false;
    }
  }

  lemma MatchCIShift(a: string, b: string, w: string, i: nat)
    requires i + |w| <= |b|
    ensures MatchCI(a + b, |a| + i, w, 0) <==> MatchCI(b, i, w, 0)
  {
    MatchCISpec(a + b, |a| + i, w, 0);
    MatchCISpec(b, i, w, 0);
  }

  lemma MatchCIPrefix(a: string, b: string, w: string, i: nat)
    requires i + |w| <= |a|
    ensures MatchCI(a + b, i, w, 0) <==> MatchCI(a, i, w, 0)
  {
    MatchCISpec(a + b, i, w, 0);
    MatchCISpec(a, i, w, 0);
  }

  /** An occurrence inside `a` is one in `a + b` and vice versa, when the join is at a non-word character. */
  lemma WordAtPrefix(a: string, b: string, w: string, k: nat)
    requires IsWord(w) && k + |w| <= |a|
    requires (|a| > 0 && !IsWordChar(a[|a| - 1])) || (|b| > 0 && !IsWordChar(b[0]))
    ensures WordAt(a + b, w, k) <==> WordAt(a, w, k)
  {
    MatchCIPrefix(a, b, w, k);
    if k + |w| == |a| && MatchCI(a, k, w, 0) {
      MatchCIIndex(a, k, w, |w| - 1);
    }
  }

  lemma WordAtSuffix(a: string, b: string, w: string, k: nat)
    requires IsWord(w) && k + |w| <= |b|
    requires (|a| > 0 && !IsWordChar(a[|a| - 1])) || (|b| > 0 && !IsWordChar(b[0]))
    ensures WordAt(a + b, w, |a| + k) <==> WordAt(b, w, k)
  {
    MatchCIShift(a, b, w, k);
    if k == 0 && MatchCI(b, k, w, 0) {
      MatchCIIndex(b, k, w, 0);
    }
  }

  lemma WordAtNoStraddle(a: string, b: string, w: string, k: nat)
    requires IsWord(w) && k < |a| < k + |w| <= |a| + |b|
    requires (|a| > 0 && !IsWordChar(a[|a| - 1])) || (|b| > 0 && !IsWordChar(b[0]))
    ensures !WordAt(a + b, w, k)
  {
    if MatchCI(a + b, k, w, 0) {
      MatchCIIndex(a + b, k, w, |a| - 1 - k);
      MatchCIIndex(a + b, k, w, |a| - k);
      assert false;
    }
  }

  /**
   * A whole word occurs in `a + b` exactly when it occurs in `a` or in `b`, provided
   * the join is next to a non-word character (so that no word spans it and the
   * boundaries at the join are the same on both sides).
   */
  lemma ContainsWordCIConcat(a: string, b: string, w: string)
    requires IsWord(w)
    requires (|a| > 0 && !IsWordChar(a[|a| - 1])) || (|b| > 0 && !IsWordChar(b[0]))
    ensures ContainsWordCI(a + b, w) <==> ContainsWordCI(a, w) || ContainsWordCI(b, w)
  {
    var s := a + b;
    ContainsWordCISpec(s, w);
    ContainsWordCISpec(a, w);
    ContainsWordCISpec(b, w);
    if ContainsWordCI(s, w) {
      var k :| 0 <= k <= |s| && WordAt(s, w, k);
      if k + |w| <= |a| {
        WordAtPrefix(a, b, w, k);
      } else if k >= |a| {
        WordAtSuffix(a, b, w, k - |a|);
      } else {
        WordAtNoStraddle(a, b, w, k);
      }
    }
    if ContainsWordCI(a, w) {
      var k :| 0 <= k <= |a| && WordAt(a, w, k);
      WordAtPrefix(a, b, w, k);
    }
    if ContainsWordCI(b, w) {
      var k :| 0 <= k <= |b| && WordAt(b, w, k);
      WordAtSuffix(a, b, w, k);
    }
  }

  /** The alternation version of `ContainsWordCIConcat`. */
  lemma ContainsAnyWordCIConcat(a: string, b: string, ws: seq<string>)
    requires forall k :: 0 <= k < |ws| ==> IsWord(ws[k])
    requires (|a| > 0 && !IsWordChar(a[|a| - 1])) || (|b| > 0 && !IsWordChar(b[0]))
    ensures ContainsAnyWordCI(a + b, ws) <==> ContainsAnyWordCI(a, ws) || ContainsAnyWordCI(b, ws)
  {
    forall k | 0 <= k < |ws|
      ensures ContainsWordCI(a + b, ws[k]) <==> ContainsWordCI(a, ws[k]) || ContainsWordCI(b, ws[k])
    {
      ContainsWordCIConcat(a, b, ws[k]);
    }
  }

  /** A word cannot occur in a string made only of non-word characters. */
  lemma NoWordInNonWordText(s: string, w: string)
    requires IsWord(w)
    requires forall i :: 0 <= i < |s| ==> !IsWordChar(s[i])
    ensures !ContainsWordCI(s, w)
  {
    NoWordWithoutChar(s, w, 0);
  }

  /**
   * Whether `w` starts `s` as a whole word depends only on the first `|w|` characters
   * and on whether a word character follows them.
   */
  lemma StartsWithWordCIReplaceTail(a: string, b: string, c: string, w: string)
    requires |w| <= |a|
    requires b == [] || !IsWordChar(b[0])
    requires c == [] || !IsWordChar(c[0])
    ensures StartsWithWordCI(a + b, w) <==> StartsWithWordCI(a + c, w)
  {
    MatchCIPrefix(a, b, w, 0);
    MatchCIPrefix(a, c, w, 0);
  }

  /** A string with no leading whitespace is its own `lstrip`. */
  lemma LStripNoSpace(s: string)
    requires s == [] || !IsSpace(s[0])
    ensures LStrip(s) == s
  {
  }

  // ---------------------------------------------------------------------------
  // Texts made of tokens and separators

  /** A non-empty run of non-word characters. */
  predicate IsSeparator(s: string) {
    |s| > 0 && forall i :: 0 <= i < |s| ==> !IsWordChar(s[i])
  }

  /** Equal up to ASCII case. */
  predicate SameWordCI(a: string, b: string) {
    |a| == |b| && MatchCI(a, 0, b, 0)
  }

  lemma SameWordCIRefl(a: string)
    ensures SameWordCI(a, a)
  {
    MatchCISpec(a, 0, a, 0);
  }

  lemma LowerCharWord(c: char)
    ensures IsWordChar(LowerChar(c)) == IsWordChar(c)
  {
  }

  /** Inside a single word, another word occurs only as the whole of it. */
  lemma WordInToken(tok: string, w: string)
    requires IsWord(tok) && IsWord(w)
    ensures ContainsWordCI(tok, w) <==> SameWordCI(tok, w)
  {
    ContainsWordCISpec(tok, w);
    if ContainsWordCI(tok, w) {
      var k :| 0 <= k <= |tok| && WordAt(tok, w, k);
      assert k == 0;
      assert k + |w| == |tok|;
    }
    if SameWordCI(tok, w) {
      assert WordAt(tok, w, 0);
    }
  }

  /** A word followed by a non-word character (or nothing) starts with `w` exactly when it is `w`. */
  lemma StartsWithWordToken(a: string, rest: string, w: string)
    requires IsWord(a) && IsWord(w) && (rest == [] || !IsWordChar(rest[0]))
    ensures StartsWithWordCI(a + rest, w) <==> SameWordCI(a, w)
  {
    var s := a + rest;
    if |w| < |a| {
      if MatchCI(s, 0, w, 0) {
        assert IsWordChar(s[|w| - 1]) && IsWordChar(s[|w|]);
      }
    } else if |w| > |a| {
      if |w| <= |s| && MatchCI(s, 0, w, 0) {
        MatchCIIndex(s, 0, w, |a|);
        LowerCharWord(s[|a|]);
        LowerCharWord(w[|a|]);
        assert false;
      }
    } else {
      MatchCIPrefix(a, rest, w, 0);
    }
  }

  // ---------------------------------------------------------------------------
  // Greedy runs of one character class

  /** The number of whitespace characters from `j` on: what a greedy `\s*` takes. */
  function SpaceRun(s: string, j: nat): (n: nat)
    requires j <= |s|
    ensures j + n <= |s|
    decreases |s| - j
  {
    if j < |s| && IsSpace(s[j]) then 1 + SpaceRun(s, j + 1) else 0
  }

  /** The space run is all spaces and stops at the end or at a non-space. */
  lemma {:induction false} SpaceRunSpec(s: string, j: nat)
    requires j <= |s|
    ensures var n := SpaceRun(s, j); (j + n == |s| || !IsSpace(s[j + n]))
    ensures forall k :: j <= k < j + SpaceRun(s, j) ==> IsSpace(s[k])
    decreases |s| - j
  {
    if j < |s| && IsSpace(s[j]) {
      SpaceRunSpec(s, j + 1);
    }
  }

  /** What a greedy `\w*` takes from `j` on. */
  function WordRun(s: string, j: nat): (n: nat)
    requires j <= |s|
    ensures j + n <= |s|
    decreases |s| - j
  {
    if j < |s| && IsWordChar(s[j]) then 1 + WordRun(s, j + 1) else 0
  }

  /** The word run is all word characters and stops at the end or at another character. */
  lemma {:induction false} WordRunSpec(s: string, j: nat)
    requires j <= |s|
    ensures var n := WordRun(s, j); (j + n == |s| || !IsWordChar(s[j + n]))
    ensures forall k :: j <= k < j + WordRun(s, j) ==> IsWordChar(s[k])
    decreases |s| - j
  {
    if j < |s| && IsWordChar(s[j]) {
      WordRunSpec(s, j + 1);
    }
  }

  /** The space run is exactly `n` long when `n` spaces are followed by a non-space. */
  lemma {:induction false} SpaceRunIs(s: string, p: nat, n: nat)
    requires p + n <= |s|
    requires forall j :: p <= j < p + n ==> IsSpace(s[j])
    requires p + n == |s| || !IsSpace(s[p + n])
    ensures SpaceRun(s, p) == n
    decreases n
  {
    if n > 0 {
      SpaceRunIs(s, p + 1, n - 1);
    }
  }

  /** The word run is exactly `n` long when `n` word characters are followed by another character. */
  lemma {:induction false} WordRunIs(s: string, p: nat, n: nat)
    requires p + n <= |s|
    requires forall j :: p <= j < p + n ==> IsWordChar(s[j])
    requires p + n == |s| || !IsWordChar(s[p + n])
    ensures WordRun(s, p) == n
    decreases n
  {
    if n > 0 {
      WordRunIs(s, p + 1, n - 1);
    }
  }

  // ---------------------------------------------------------------------------
  // join / split

  /** Python's `sep.join(xs)`. */
  function Join(sep: string, xs: seq<string>): string {
    if |xs| == 0 then "" else if |xs| == 1 then xs[0] else xs[0] + sep + Join(sep, xs[1..])
  }

  /** Index of the first `c` in `s`, or `|s|` when there is none. */
  function IndexOf(s: string, c: char): (i: nat)
    ensures i <= |s|
    ensures i < |s| ==> s[i] == c
    ensures forall k :: 0 <= k < i ==> s[k] != c
  {
    if |s| == 0 then 0 else if s[0] == c then 0 else 1 + IndexOf(s[1..], c)
  }

  /** Python's `s.split(c)` for a one-character separator. */
  function Split(s: string, c: char): (parts: seq<string>)
    ensures |parts| > 0
    decreases |s|
  {
    var i := IndexOf(s, c);
    if i == |s| then [s] else [s[..i]] + Split(s[i + 1..], c)
  }

  /** Joining the pieces of a split with the separator gives back the string. */
  lemma {:induction false} SplitJoin(s: string, c: char)
    ensures Join([c], Split(s, c)) == s
    decreases |s|
  {
    var i := IndexOf(s, c);
    if i < |s| {
      SplitJoin(s[i + 1..], c);
      assert s == s[..i] + [c] + s[i + 1..];
    }
  }

  /** No piece of a split contains the separator. */
  lemma {:induction false} SplitPiecesFree(s: string, c: char)
    ensures forall p :: p in Split(s, c) ==> forall k :: 0 <= k < |p| ==> p[k] != c
    decreases |s|
  {
    var i := IndexOf(s, c);
    if i < |s| {
      SplitPiecesFree(s[i + 1..], c);
    }
  }

  /** Number of occurrences of `c` in `s`. */
  function Count(s: string, c: char): nat {
    if |s| == 0 then 0 else (if s[0] == c then 1 else 0) + Count(s[1..], c)
  }

  // ---------------------------------------------------------------------------
  // str(int) and int(digits)

  function DigitChar(d: nat): char
    requires d < 10
  {
    ('0' as int + d) as char
  }

  /** Python's `str(n)` for a natural number. */
  function NatToString(n: nat): (r: string)
    ensures |r| > 0 && forall i :: 0 <= i < |r| ==> IsDigit(r[i])
  {
    if n < 10 then [DigitChar(n)] else NatToString(n / 10) + [DigitChar(n % 10)]
  }

  /** Python's `str(i)`. */
  function IntToString(i: int): string {
    if i < 0 then "-" + NatToString(-i) else NatToString(i)
  }
}

/**
 * The loose JSON reading of the UI client (`_parse_json_loose` in ui/graph_client.py):
 * a dict is passed through; text is trimmed and handed to `json.loads`; when that
 * fails, the first `{` is located and a scanner that tracks brace depth, whether it is
 * inside a string literal and whether the previous character was a backslash finds the
 * `}` that brings the depth back to zero; the slice between them is handed to
 * `json.loads` again. `json.loads` itself is a parameter: any function from text to a
 * value or an error message.
 */
module JsonLoose {
  import opened Text
  import opened State

  /**
   * One entry of a decoded object, as `obj.get(key) or ""` sees it: a string, a falsy
   * value of any other kind (the key missing, `null`, `0`, `false`, `[]`, `{}`), or a
   * truthy value that is not a string, known by its Python type name.
   */
  datatype Entry = Str(text: string) | Falsy | Truthy(typeName: string)

  /**
   * A decoded JSON value, reduced to what the client reads from it: an object's `sql`
   * and `answer` entries, or a value of another kind, known by its Python type name.
   */
  datatype Json = JObject(sql: Entry, answer: Entry) | JOther(typeName: string)

  /** What `json.loads` does with a text: a value, or a raised error with its message. */
  datatype Loaded = Loaded(value: Json) | LoadError(message: string)

  /** The message content the chat reply carries: already a dict, or text. */
  datatype Content = DictContent(sql: Entry, answer: Entry) | TextContent(text: string)

  /** The outcome of `_parse_json_loose`: a value, or a raised `ValueError` (or decode error). */
  datatype Parsed = Parsed(value: Json) | Raised(message: string)

  // ---------------------------------------------------------------------------
  // The brace scanner

  /** The scanner's three variables: `depth`, `in_str` and `esc`. */
  datatype Lex = Lex(depth: int, inStr: bool, esc: bool)

  const Initial := Lex(0, false, false)

  /** One iteration of the scanning loop on character `ch`. */
  function Step(l: Lex, ch: char): Lex {
    if l.inStr then
      if l.esc then l.(esc := false)
      else if ch == '\\' then l.(esc := true)
      else if ch == '"' then l.(inStr := false)
      else l
    else if ch == '"' then l.(inStr := true)
    else if ch == '{' then l.(depth := l.depth + 1)
    else if ch == '}' then l.(depth := l.depth - 1)
    else l
  }

  /** The scanner's state when the loop, started at `start`, reaches index `i`. */
  function LexAt(text: string, start: nat, i: nat): Lex
    requires start <= i <= |text|
    decreases i - start
  {
    if i == start then Initial else Step(LexAt(text, start, i - 1), text[i - 1])
  }

  /** The character at `i` is a `}` outside a string that brings the depth back to zero. */
  predicate ClosesAt(text: string, start: nat, i: nat)
    requires start <= i < |text|
  {
    var l := LexAt(text, start, i);
    !l.inStr && text[i] == '}' && l.depth - 1 == 0
  }

  /** The first closing index at or after `i`, if any: the reference the loop follows. */
  function CloseFrom(text: string, start: nat, i: nat): (e: Option<nat>)
    requires start <= i <= |text|
    ensures e.Some? ==> i <= e.value < |text| && ClosesAt(text, start, e.value)
    ensures e.Some? ==> forall k :: i <= k < e.value ==> !ClosesAt(text, start, k)
    ensures e.None? ==> forall k :: i <= k < |text| ==> !ClosesAt(text, start, k)
    decreases |text| - i
  {
    if i == |text| then None
    else if ClosesAt(text, start, i) then Some(i)
    else CloseFrom(text, start, i + 1)
  }

  /** The `for i in range(start, len(text))` loop: the index of the closing `}`, if any. */
  method FindObjectEnd(text: string, start: nat) returns (e: Option<nat>)
    requires start <= |text|
    ensures e == CloseFrom(text, start, start)
    ensures e.Some? ==> start <= e.value < |text| && ClosesAt(text, start, e.value)
    ensures e.Some? ==> forall k :: start <= k < e.value ==> !ClosesAt(text, start, k)
    ensures e.None? ==> forall k :: start <= k < |text| ==> !ClosesAt(text, start, k)
  {
    var depth := 0;
    var inStr := false;
    var esc := false;
    var i := start;
    while i < |text|
      invariant start <= i <= |text|
      invariant Lex(depth, inStr, esc) == LexAt(text, start, i)
      invariant CloseFrom(text, start, i) == CloseFrom(text, start, start)
    {
      var ch := text[i];
      if inStr {
        if esc {
          esc := false;
        } else if ch == '\\' {
          esc := true;
        } else if ch == '"' {
          inStr := false;
        }
      } else {
        if ch == '"' {
          inStr := true;
        } else if ch == '{' {
          depth := depth + 1;
        } else if ch == '}' {
          depth := depth - 1;
          if depth == 0 {
            return Some(i);
          }
        }
      }
      i := i + 1;
    }
    return None;
  }

  // ---------------------------------------------------------------------------
  // What the scanner guarantees

  /** Outside a string literal the scanner is never in its after-backslash state. */
  lemma {:induction false} EscOnlyInString(text: string, start: nat, i: nat)
    requires start <= i <= |text|
    ensures LexAt(text, start, i).esc ==> LexAt(text, start, i).inStr
    decreases i - start
  {
    if i > start {
      EscOnlyInString(text, start, i - 1);
    }
  }

  /** Inside a string literal no character changes the depth, braces included. */
  lemma StringsHideBraces(text: string, start: nat, i: nat)
    requires start <= i < |text| && LexAt(text, start, i).inStr
    ensures LexAt(text, start, i + 1).depth == LexAt(text, start, i).depth
    ensures !LexAt(text, start, i).esc && text[i] != '"' ==> LexAt(text, start, i + 1).inStr
  {
  }

  /** A backslash inside a string keeps the next character, a `"` included, inside the string. */
  lemma EscapedQuoteStaysInString(text: string, start: nat, i: nat)
    requires start <= i && i + 2 <= |text|
    requires LexAt(text, start, i).inStr && !LexAt(text, start, i).esc && text[i] == '\\'
    ensures LexAt(text, start, i + 1).inStr && LexAt(text, start, i + 1).esc
    ensures LexAt(text, start, i + 2).inStr && !LexAt(text, start, i + 2).esc
    ensures LexAt(text, start, i + 2).depth == LexAt(text, start, i).depth
  {
  }

  /** Before the first close, every position after the opening `{` is at depth one or more. */
  lemma {:induction false} DepthPositiveInside(text: string, start: nat, k: nat)
    requires start < k <= |text| && text[start] == '{'
    requires forall q :: start <= q < k ==> !ClosesAt(text, start, q)
    ensures LexAt(text, start, k).depth >= 1
    decreases k - start
  {
    if k > start + 1 {
      DepthPositiveInside(text, start, k - 1);
      assert !ClosesAt(text, start, k - 1);
    }
  }

  /**
   * The slice the scanner picks is a balanced object: it opens with `{`, closes with
   * `}`, the depth stays positive strictly inside it, and after it the scanner is
   * back in its initial state, outside any string and at depth zero.
   */
  lemma BlobBalanced(text: string, start: nat, e: nat)
    requires start < |text| && text[start] == '{' && CloseFrom(text, start, start) == Some(e)
    ensures var blob := text[start..e + 1];
      |blob| >= 2 && blob[0] == '{' && blob[|blob| - 1] == '}'
    ensures forall k :: start < k <= e ==> LexAt(text, start, k).depth >= 1
    ensures LexAt(text, start, e + 1) == Initial
  {
    forall k | start < k <= e
      ensures LexAt(text, start, k).depth >= 1
    {
      DepthPositiveInside(text, start, k);
    }
    EscOnlyInString(text, start, e);
  }

  // ---------------------------------------------------------------------------
  // `_parse_json_loose`

  /** `text[:500]`. */
  function Raw(text: string): (r: string)
    ensures |r| <= 500 && r <= text
  {
    if |text| <= 500 then text else text[..500]
  }

  function NoObjectMessage(text: string): string {
    "No JSON object found. Raw: " + Raw(text)
  }

  function UnterminatedMessage(text: string): string {
    "Unterminated JSON object. Raw: " + Raw(text)
  }

  /** A `json.loads` call inside `_parse_json_loose`: its error propagates. */
  function FromLoaded(r: Loaded): (p: Parsed)
    ensures p.Parsed? <==> r.Loaded?
    ensures r.Loaded? ==> p.value == r.value
    ensures r.LoadError? ==> p.message == r.message
  {
    match r
    case Loaded(v) => Parsed(v)
    case LoadError(m) => Raised(m)
  }

  /** What `_parse_json_loose(content)` returns or raises, with `json.loads` as `loads`. */
  function LooseParse(content: Content, loads: string -> Loaded): Parsed {
    match content
    case DictContent(sql, answer) => Parsed(JObject(sql, answer))
    case TextContent(raw) =>
      var text := Strip(raw);
      if loads(text).Loaded? then Parsed(loads(text).value)
      else
        var start := IndexOf(text, '{');
        if start == |text| then Raised(NoObjectMessage(text))
        else
          var e := CloseFrom(text, start, start);
          if e.Some? then FromLoaded(loads(text[start..e.value + 1]))
          else Raised(UnterminatedMessage(text))
  }

  /** `_parse_json_loose` as the source performs it, with its scanning loop. */
  method ParseJsonLoose(content: Content, loads: string -> Loaded) returns (r: Parsed)
    ensures r == LooseParse(content, loads)
  {
    if content.DictContent? {
      return Parsed(JObject(content.sql, content.answer));
    }
    var text := Strip(content.text);
    var direct := loads(text);
    if direct.Loaded? {
      return Parsed(direct.value);
    }
    var start := IndexOf(text, '{');
    if start == |text| {
      return Raised(NoObjectMessage(text));
    }
    var e := FindObjectEnd(text, start);
    if e.None? {
      return Raised(UnterminatedMessage(text));
    }
    var blob := text[start..e.value + 1];
    r := FromLoaded(loads(blob));
  }

  // ---------------------------------------------------------------------------
  // What `_parse_json_loose` promises

  /**
   * The outcomes of reading text: the direct reading wins when it succeeds; otherwise
   * the result is the reading of the first balanced object, or one of the two errors,
   * each with the first 500 characters of the trimmed text.
   */
  lemma LooseParseText(raw: string, loads: string -> Loaded)
    ensures var text := Strip(raw);
      var r := LooseParse(TextContent(raw), loads);
      && (loads(text).Loaded? ==> r == Parsed(loads(text).value))
      && (loads(text).LoadError? && '{' !in text ==> r == Raised(NoObjectMessage(text)))
      && (loads(text).LoadError? && '{' in text ==>
            var start := IndexOf(text, '{');
            (forall e :: start <= e < |text| && ClosesAt(text, start, e)
               && (forall k :: start <= k < e ==> !ClosesAt(text, start, k))
               ==> r == FromLoaded(loads(text[start..e + 1])))
            && ((forall k :: start <= k < |text| ==> !ClosesAt(text, start, k))
               ==> r == Raised(UnterminatedMessage(text))))
  {
    var text := Strip(raw);
    var r := LooseParse(TextContent(raw), loads);
    var start := IndexOf(text, '{');
    if loads(text).Loaded? {
    } else if '{' in text {
      var i :| 0 <= i < |text| && text[i] == '{';
      assert start <= i;
      var c := CloseFrom(text, start, start);
      assert r == if c.Some? then FromLoaded(loads(text[start..c.value + 1])) else Raised(UnterminatedMessage(text));
      forall e | start <= e < |text| && ClosesAt(text, start, e)
          && (forall k :: start <= k < e ==> !ClosesAt(text, start, k))
        ensures c == Some(e)
      {
      }
    } else {
      assert start == |text|;
    }
  }

  /** A dict is returned as it is. */
  lemma LooseParseDict(sql: Entry, answer: Entry, loads: string -> Loaded)
    ensures LooseParse(DictContent(sql, answer), loads) == Parsed(JObject(sql, answer))
  {
  }

  /**
   * Whatever `json.loads` does, a text outcome is one of: a value `json.loads` gave for
   * the trimmed text or for the balanced object in it, its error on that object, or
   * one of the two scanner errors.
   */
  lemma LooseParseAnswers(raw: string, loads: string -> Loaded)
    ensures var text := Strip(raw);
      var r := LooseParse(TextContent(raw), loads);
      r.Parsed? ==>
        (loads(text) == Loaded(r.value)
         || exists s, e :: 0 <= s <= e < |text| && text[s] == '{' && text[e] == '}'
              && loads(text[s..e + 1]) == Loaded(r.value))
  {
    var text := Strip(raw);
    var r := LooseParse(TextContent(raw), loads);
    if r.Parsed? && loads(text).LoadError? {
      var s := IndexOf(text, '{');
      var e := CloseFrom(text, s, s).value;
      assert text[s] == '{' && text[e] == '}';
      assert loads(text[s..e + 1]) == Loaded(r.value);
    }
  }
}

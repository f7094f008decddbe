/**
 * The read-only gate of the UI (ui/validators.py): `enforce_readonly` trims the
 * query, drops trailing semicolons, accepts only a statement that opens with the word
 * SELECT or WITH, appends a default LIMIT when none is present and closes the result
 * with exactly one `;`. A raised `ValueError` is the `Raised` outcome, with its message.
 */
module UiValidators {
  import opened Text

  datatype Checked = Accepted(sql: string) | Raised(message: string)

  const EmptyMessage := "boş sql"
  const NotReadonlyMessage := "sadece SELECT/WITH sorgularına izin var"
  const LimitWord := "limit"

  /** `(sql or "").strip().rstrip(";")`. */
  function Body(sql: string): string {
    RStripChar(Strip(sql), ';')
  }

  /** `re.match(r"^(select|with)\b", s, re.IGNORECASE)`. */
  predicate ReadOnlyStart(s: string) {
    StartsWithWordCI(s, "select") || StartsWithWordCI(s, "with")
  }

  /** The body with `f" LIMIT {default_limit}"` appended unless the word `limit` occurs. */
  function WithLimit(body: string, defaultLimit: int): string {
    if ContainsWordCI(body, LimitWord) then body else body + " LIMIT " + IntToString(defaultLimit)
  }

  /** `enforce_readonly(sql, default_limit)`. */
  function EnforceReadonly(sql: string, defaultLimit: int): (r: Checked)
    ensures r == Raised(EmptyMessage) <==> Body(sql) == []
    ensures r == Raised(NotReadonlyMessage) <==> Body(sql) != [] && !ReadOnlyStart(Body(sql))
    ensures r.Accepted? <==> Body(sql) != [] && ReadOnlyStart(Body(sql))
  {
    var s := Body(sql);
    if s == [] then Raised(EmptyMessage)
    else if !ReadOnlyStart(s) then Raised(NotReadonlyMessage)
    else Accepted(WithLimit(s, defaultLimit) + ";")
  }

  // ---------------------------------------------------------------------------

  /** The body, when not empty, starts and ends with something other than whitespace or a final `;`. */
  lemma BodyEnds(sql: string)
    requires Body(sql) != []
    ensures !IsSpace(Body(sql)[0]) && Body(sql)[|Body(sql)| - 1] != ';'
  {
    StripSpec(sql);
    RStripCharSpec(Strip(sql), ';');
  }

  lemma IntToStringEnd(i: int)
    ensures |IntToString(i)| > 0 && IsDigit(IntToString(i)[|IntToString(i)| - 1])
  {
  }

  /** The appended clause holds the word `limit`, whatever precedes and follows it. */
  lemma LimitClauseHasWord(a: string, rest: string)
    ensures ContainsWordCI(a + " LIMIT " + rest, LimitWord)
  {
    var o := a + " LIMIT " + rest;
    assert o[|a|..|a| + 7] == " LIMIT ";
    MatchCISpec(o, |a| + 1, LimitWord, 0);
    ContainsWordCIWitness(o, LimitWord, |a| + 1);
  }

  /** Appending the limit keeps the opening word and makes the word `limit` present. */
  lemma WithLimitFacts(body: string, n: int)
    requires body != [] && ReadOnlyStart(body)
    ensures var t := WithLimit(body, n);
      t != [] && t[0] == body[0] && ReadOnlyStart(t) && ContainsWordCI(t + ";", LimitWord)
      && (t[|t| - 1] == body[|body| - 1] || IsDigit(t[|t| - 1]))
  {
    if ContainsWordCI(body, LimitWord) {
      ContainsWordCIConcat(body, ";", LimitWord);
    } else {
      WithLimitAppended(body, n);
    }
  }

  lemma WithLimitAppended(body: string, n: int)
    requires body != [] && ReadOnlyStart(body) && !ContainsWordCI(body, LimitWord)
    ensures var t := WithLimit(body, n);
      t != [] && t[0] == body[0] && ReadOnlyStart(t) && ContainsWordCI(t + ";", LimitWord)
      && IsDigit(t[|t| - 1])
  {
    var digits := IntToString(n);
    var tail := " LIMIT " + digits;
    var t := body + tail;
    assert WithLimit(body, n) == t;
    var w := if StartsWithWordCI(body, "select") then "select" else "with";
    assert body + [] == body;
    StartsWithWordCIReplaceTail(body, [], tail, w);
    IntToStringEnd(n);
    assert t + ";" == body + " LIMIT " + (digits + ";");
    LimitClauseHasWord(body, digits + ";");
  }

  /**
   * An accepted query opens with SELECT or WITH, contains the word `limit` and ends
   * with exactly one `;`.
   */
  lemma AcceptedShape(sql: string, n: int)
    requires EnforceReadonly(sql, n).Accepted?
    ensures var o := EnforceReadonly(sql, n).sql;
      |o| >= 2 && ReadOnlyStart(o) && ContainsWordCI(o, LimitWord)
      && o[|o| - 1] == ';' && o[|o| - 2] != ';'
  {
    var b := Body(sql);
    var t := WithLimit(b, n);
    BodyEnds(sql);
    WithLimitFacts(b, n);
    var w := if StartsWithWordCI(t, "select") then "select" else "with";
    assert t + [] == t;
    StartsWithWordCIReplaceTail(t, [], ";", w);
  }

  /** A body that already has the word `limit` is kept as it is, with one `;` added. */
  lemma LimitKept(sql: string, n: int)
    requires Body(sql) != [] && ReadOnlyStart(Body(sql)) && ContainsWordCI(Body(sql), LimitWord)
    ensures EnforceReadonly(sql, n) == Accepted(Body(sql) + ";")
  {
  }

  /** Without the word `limit`, the default limit is appended. */
  lemma LimitAppended(sql: string, n: int)
    requires Body(sql) != [] && ReadOnlyStart(Body(sql)) && !ContainsWordCI(Body(sql), LimitWord)
    ensures EnforceReadonly(sql, n) == Accepted(Body(sql) + " LIMIT " + IntToString(n) + ";")
  {
  }

  /** Enforcing twice with the same default limit gives what enforcing once gave. */
  lemma EnforceIdempotent(sql: string, n: int)
    requires EnforceReadonly(sql, n).Accepted?
    ensures EnforceReadonly(EnforceReadonly(sql, n).sql, n) == EnforceReadonly(sql, n)
  {
    var b := Body(sql);
    var t := WithLimit(b, n);
    var o := t + ";";
    BodyEnds(sql);
    WithLimitFacts(b, n);
    StripNoSpaceEnds(o);
    assert o[..|o| - 1] == t;
    RStripCharNoop(t, ';');
    assert Body(o) == t;
    ContainsWordCIConcat(t, ";", LimitWord);
    NoWordInNonWordText(";", LimitWord);
  }
}

/**
 * The regular expressions the router and the SQL validator share
 * (src/text2sql/nodes/router.py and src/text2sql/nodes/sql_validate.py compile the
 * same dangerous-word and select-start patterns separately).
 */
module SqlPatterns {
  import opened Text

  const SelectKeyword := "select"
  const LimitKeyword := "limit"

  /** The words of `\b(drop|delete|update|insert|alter|truncate)\b`. */
  const DangerousWords: seq<string> := ["drop", "delete", "update", "insert", "alter", "truncate"]

  /** `\b(drop|delete|update|insert|alter|truncate)\b`, case-insensitive, found anywhere. */
  predicate HasDangerousWord(text: string) {
    ContainsAnyWordCI(text, DangerousWords)
  }

  /** `^\s*select\b`, case-insensitive. */
  predicate StartsWithSelect(text: string) {
    StartsWithWordCI(LStrip(text), SelectKeyword)
  }

  /** `\blimit\b`, case-insensitive, found anywhere. */
  predicate HasLimitWord(text: string) {
    ContainsWordCI(text, LimitKeyword)
  }

  /** `;\s*\S+` found anywhere: a semicolon with something other than whitespace after it. */
  predicate MultiStatement(text: string) {
    exists i :: 0 <= i < |text| && text[i] == ';' && LStrip(text[i + 1..]) != []
  }

  predicate NoSemicolon(text: string) {
    forall i :: 0 <= i < |text| ==> text[i] != ';'
  }

  /** Text without a semicolon is a single statement. */
  lemma NoSemicolonSingle(text: string)
    requires NoSemicolon(text)
    ensures !MultiStatement(text)
  {
  }

  /**
   * On trimmed text, a multiple statement is exactly a semicolon before the last
   * character; in particular a lone trailing `;` is not one.
   */
  lemma MultiStatementTrimmed(text: string)
    requires text == [] || !IsSpace(text[|text| - 1])
    ensures MultiStatement(text) <==> exists i :: 0 <= i < |text| - 1 && text[i] == ';'
  {
    forall i | 0 <= i < |text| - 1 && text[i] == ';'
      ensures LStrip(text[i + 1..]) != []
    {
      var rest := text[i + 1..];
      LStripSpec(rest);
      assert rest[..|rest|] == rest;
      assert !IsSpace(rest[|rest| - 1]);
    }
    if MultiStatement(text) {
      var i :| 0 <= i < |text| && text[i] == ';' && LStrip(text[i + 1..]) != [];
      assert i < |text| - 1;
    }
  }

  /** A lone trailing semicolon after semicolon-free text is not a multiple statement. */
  lemma TrailingSemicolonSingle(text: string)
    requires NoSemicolon(text)
    ensures !MultiStatement(text + ";")
  {
    MultiStatementTrimmed(text + ";");
    assert forall i :: 0 <= i < |text| ==> (text + ";")[i] == text[i];
  }

  /** Trimmed text that is a single statement has no semicolon except possibly as its last character. */
  lemma SingleStatementTrimmed(text: string)
    requires text == [] || !IsSpace(text[|text| - 1])
    requires !MultiStatement(text)
    ensures forall i :: 0 <= i < |text| - 1 ==> text[i] != ';'
  {
    MultiStatementTrimmed(text);
  }
}

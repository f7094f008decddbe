/**
 * The SQL validator node: collects hard issues without short-circuiting, and on a
 * clean statement appends a default `LIMIT 200` when no limit is present
 * (src/text2sql/nodes/sql_validate.py).
 */
module SqlValidateNode {
  import opened Text
  import opened State
  import opened SqlPatterns
  import opened PieceText

  const DefaultLimit: nat := 200

  const MissingIssue := "SQL missing"
  const NotSelectIssue := "Only SELECT statements are allowed."
  const DangerousIssue := "Dangerous SQL operation detected."
  const MultiIssue := "Multiple statements detected; only single statement allowed."
  const TablesIssue := "SQL does not reference allowed tables from metadata."
  const LimitIssue := "LIMIT added for safety/performance."

  /** The hard issues in the order the checks run. */
  const HardIssues: seq<string> := [NotSelectIssue, DangerousIssue, MultiIssue, TablesIssue]

  /** Some candidate table occurs in the SQL as a whole word (any case). */
  predicate ReferencesTable(sql: string, tables: seq<string>) {
    exists k :: 0 <= k < |tables| && ContainsWordCI(sql, tables[k])
  }

  /** The outcome of each hard check, in check order: `true` where the check fails. */
  function Checks(sql: string, tables: seq<string>): (r: seq<bool>)
    ensures |r| == 4
  {
    [!StartsWithSelect(sql), HasDangerousWord(sql), MultiStatement(sql), tables != [] && !ReferencesTable(sql, tables)]
  }

  /** Hard check number `check` fails. */
  predicate Fails(sql: string, tables: seq<string>, check: nat)
    requires check < 4
  {
    Checks(sql, tables)[check]
  }

  /** The issues list built by successive appends: every failing check contributes its message. */
  function Issues(sql: string, tables: seq<string>): seq<string> {
    (if !StartsWithSelect(sql) then [NotSelectIssue] else [])
    + (if HasDangerousWord(sql) then [DangerousIssue] else [])
    + (if MultiStatement(sql) then [MultiIssue] else [])
    + (if tables != [] && !ReferencesTable(sql, tables) then [TablesIssue] else [])
  }

  /** The statement with the default limit appended (after dropping trailing semicolons). */
  function WithDefaultLimit(sql: string): string {
    RStripChar(sql, ';') + " LIMIT " + NatToString(DefaultLimit)
  }

  /** The trimmed SQL the node inspects. */
  function Inspected(s: Snapshot): string {
    Strip(StrOr(s.sql, ""))
  }

  /** The candidate tables the node checks against. */
  function Tables(s: Snapshot): seq<string> {
    ListOr(s.tableCandidates, [])
  }

  /** `sql_validate_node` on the state as a value. */
  function Validate(s: Snapshot): Snapshot {
    var sql := Inspected(s);
    var issues := Issues(sql, Tables(s));
    if sql == "" then s.(sqlOk := Some(false), sqlIssues := Some([MissingIssue]))
    else if issues != [] then s.(sqlOk := Some(false), sqlIssues := Some(issues))
    else if !HasLimitWord(sql) then
      s.(sqlOk := Some(true), sqlIssues := Some([LimitIssue]), sql := Some(WithDefaultLimit(sql)))
    else s.(sqlOk := Some(true), sqlIssues := Some([]))
  }

  /** The hard checks as the node runs them, each failing one appending its message. */
  method CollectIssues(sql: string, tables: seq<string>) returns (issues: seq<string>)
    ensures issues == Issues(sql, tables)
  {
    issues := [];
    if !StartsWithSelect(sql) {
      issues := issues + [NotSelectIssue];
    }
    if HasDangerousWord(sql) {
      issues := issues + [DangerousIssue];
    }
    if MultiStatement(sql) {
      issues := issues + [MultiIssue];
    }
    if tables != [] {
      if !ReferencesTable(sql, tables) {
        issues := issues + [TablesIssue];
      }
    }
  }

  /** `sql_validate_node`, updating the shared state in place. */
  method Update(st: OrchestratorState)
    modifies st
    ensures st.Snap() == Validate(old(st.Snap()))
  {
    ghost var s0 := st.Snap();
    var sql := Strip(StrOr(st.sql, ""));
    assert sql == Inspected(s0);

    st.sqlOk := Some(true);
    st.sqlIssues := Some([]);

    if sql == "" {
      st.sqlOk := Some(false);
      st.sqlIssues := Some([MissingIssue]);
      assert st.Snap() == s0.(sqlOk := Some(false), sqlIssues := Some([MissingIssue]));
      return;
    }

    var tables := ListOr(st.tableCandidates, []);
    var issues := CollectIssues(sql, tables);
    assert tables == Tables(s0);
    if issues != [] {
      st.sqlOk := Some(false);
      st.sqlIssues := Some(issues);
      assert st.Snap() == s0.(sqlOk := Some(false), sqlIssues := Some(issues));
      return;
    }

    if !HasLimitWord(sql) {
      st.sql := Some(RStripChar(sql, ';') + " LIMIT " + NatToString(DefaultLimit));
      st.sqlIssues := Some([LimitIssue]);
    }
  }

  // ---------------------------------------------------------------------------
  // Properties of the validator

  /** The messages of the failing checks among the first `n`, in check order. */
  function FailingUpTo(flags: seq<bool>, n: nat): seq<string>
    requires |flags| == 4 && n <= 4
  {
    if n == 0 then [] else FailingUpTo(flags, n - 1) + (if flags[n - 1] then [HardIssues[n - 1]] else [])
  }

  /** Every check runs, and the issues are the failing checks' messages in check order. */
  lemma IssuesInCheckOrder(sql: string, tables: seq<string>)
    ensures Issues(sql, tables) == FailingUpTo(Checks(sql, tables), 4)
  {
    var flags := Checks(sql, tables);
    var f0 := if flags[0] then [NotSelectIssue] else [];
    var f1 := if flags[1] then [DangerousIssue] else [];
    var f2 := if flags[2] then [MultiIssue] else [];
    var f3 := if flags[3] then [TablesIssue] else [];
    assert FailingUpTo(flags, 1) == f0;
    assert FailingUpTo(flags, 2) == f0 + f1;
    assert FailingUpTo(flags, 3) == f0 + f1 + f2;
    assert FailingUpTo(flags, 4) == f0 + f1 + f2 + f3;
  }

  /** An issue is reported exactly when its check fails. */
  lemma IssueIff(sql: string, tables: seq<string>, c: nat)
    requires c < 4
    ensures HardIssues[c] in Issues(sql, tables) <==> Fails(sql, tables, c)
  {
  }

  /** Missing, empty or all-whitespace SQL gives exactly "SQL missing". */
  lemma MissingSql(s: Snapshot)
    requires s.sql.None? || AllSpace(s.sql.value)
    ensures Validate(s).sqlOk == Some(false) && Validate(s).sqlIssues == Some([MissingIssue])
    ensures Validate(s).sql == s.sql
  {
    if s.sql.Some? {
      StripSpec(s.sql.value);
    }
  }

  /** Any hard issue rejects the SQL, reports exactly the issues, and leaves `sql` as it was. */
  lemma HardIssuesReject(s: Snapshot)
    requires Inspected(s) != "" && Issues(Inspected(s), Tables(s)) != []
    ensures Validate(s).sqlOk == Some(false)
    ensures Validate(s).sqlIssues == Some(Issues(Inspected(s), Tables(s)))
    ensures Validate(s).sql == s.sql
  {
  }

  /** Without candidate tables the allow-list check cannot fire; with them it fires exactly when none occurs. */
  lemma AllowListCheck(sql: string, tables: seq<string>)
    ensures tables == [] ==> TablesIssue !in Issues(sql, tables)
    ensures tables != [] ==> (TablesIssue in Issues(sql, tables) <==> !ReferencesTable(sql, tables))
  {
    IssueIff(sql, tables, 3);
  }

  /** A clean statement without a limit gets the default one appended, with the note. */
  lemma LimitAppended(s: Snapshot)
    requires Inspected(s) != "" && Issues(Inspected(s), Tables(s)) == [] && !HasLimitWord(Inspected(s))
    ensures Validate(s).sqlOk == Some(true) && Validate(s).sqlIssues == Some([LimitIssue])
    ensures Validate(s).sql == Some(RStripChar(Inspected(s), ';') + " LIMIT 200")
  {
    var core := RStripChar(Inspected(s), ';');
    assert NatToString(DefaultLimit) == "200";
    assert core + " LIMIT " + "200" == core + " LIMIT 200";
  }

  /** A clean statement that has a limit is accepted as given, with no issues. */
  lemma LimitPresent(s: Snapshot)
    requires Inspected(s) != "" && Issues(Inspected(s), Tables(s)) == [] && HasLimitWord(Inspected(s))
    ensures Validate(s) == s.(sqlOk := Some(true), sqlIssues := Some([]))
  {
  }

  /** ` LIMIT 200` */
  function LimitEnd(): Pieces {
    Cons(" ", Cons("LIMIT", Cons(" ", Cons("200", Nil))))
  }

  /** Pieces the validator has nothing against: well split, no dangerous word, no semicolon. */
  predicate Clean(ps: Pieces) {
    WellSplit(ps) && !HasAnyPiece(ps, DangerousWords) && NoChar(ps, ';')
  }

  lemma CleanApp(a: Pieces, b: Pieces)
    requires Clean(a) && Clean(b)
    requires a.Nil? || b.Nil? || !WordPiece(Last(a)) || !WordPiece(b.head)
    ensures Clean(App(a, b))
  {
    WellSplitApp(a, b);
    HasAnyPieceApp(a, b, DangerousWords);
    NoCharApp(a, b, ';');
  }

  lemma LimitEndClean()
    ensures Clean(LimitEnd()) && Last(LimitEnd()) == "200" && HasPiece(LimitEnd(), LimitKeyword)
  {
  }

  lemma LimitEndText()
    ensures Concat(LimitEnd()) == " LIMIT 200"
  {
  }

  /** What `WithDefaultLimit` appends is ` LIMIT 200`, which is clean and has the limit word. */
  lemma LimitSuffixFacts()
    ensures WithDefaultLimitSuffix() == Concat(LimitEnd())
    ensures var suffix := Concat(LimitEnd());
      !HasDangerousWord(suffix) && HasLimitWord(suffix) && NoSemicolon(suffix)
      && |suffix| > 0 && suffix[0] == ' ' && suffix[|suffix| - 1] == '0'
  {
    assert NatToString(DefaultLimit) == "200";
    LimitEndText();
    LimitEndClean();
    assert forall k :: 0 <= k < |DangerousWords| ==> IsWord(DangerousWords[k]);
    AnyWordInPieces(LimitEnd(), DangerousWords);
    WordInPieces(LimitEnd(), LimitKeyword);
    NoCharConcat(LimitEnd(), ';');
  }

  /** What `WithDefaultLimit` puts after the statement. */
  function WithDefaultLimitSuffix(): string {
    " LIMIT " + NatToString(DefaultLimit)
  }

  /** The statement `WithDefaultLimit` keeps: the trimmed SQL without its (single) trailing semicolon. */
  lemma DefaultLimitCore(sql: string)
    requires sql != []
    requires forall i :: 0 <= i < |sql| - 1 ==> sql[i] != ';'
    ensures var core := RStripChar(sql, ';');
      NoSemicolon(core)
      && (core == sql || sql == core + ";")
  {
    if sql[|sql| - 1] == ';' {
      var core := sql[..|sql| - 1];
      assert sql == core + ";";
      assert core == [] || core[|core| - 1] == sql[|sql| - 2];
      RStripCharNoop(core, ';');
      assert RStripChar(sql, ';') == RStripChar(core, ';');
      forall i | 0 <= i < |core|
        ensures core[i] != ';'
      {
        assert core[i] == sql[i];
      }
    } else {
      RStripCharNoop(sql, ';');
    }
  }

  /** A word occurs in the kept statement followed by the suffix exactly when it occurs in the SQL or the suffix. */
  lemma CoreWord(core: string, sql: string, suffix: string, w: string)
    requires IsWord(w) && (core == sql || sql == core + ";")
    requires suffix != [] && !IsWordChar(suffix[0])
    ensures ContainsWordCI(core + suffix, w) <==> ContainsWordCI(sql, w) || ContainsWordCI(suffix, w)
  {
    if sql != core {
      ContainsWordCIConcat(core, ";", w);
      NoWordInNonWordText(";", w);
    }
    ContainsWordCIConcat(core, suffix, w);
  }

  /** The select prefix survives replacing the trailing semicolon by the suffix. */
  lemma CoreSelect(core: string, sql: string, suffix: string)
    requires core == sql || sql == core + ";"
    requires sql != [] && !IsSpace(sql[0]) && StartsWithSelect(sql)
    requires suffix != [] && !IsWordChar(suffix[0])
    ensures core != [] && !IsSpace((core + suffix)[0]) && StartsWithSelect(core + suffix)
  {
    LStripNoSpace(sql);
    assert |core| >= |SelectKeyword|;
    LStripNoSpace(core + suffix);
    if sql == core {
      StartsWithWordCIReplaceTail(core, [], suffix, SelectKeyword);
      assert core + [] == core;
    } else {
      StartsWithWordCIReplaceTail(core, ";", suffix, SelectKeyword);
    }
  }

  /** No dangerous word appears when neither the SQL nor the suffix has one. */
  lemma CoreHarmless(core: string, sql: string, suffix: string)
    requires core == sql || sql == core + ";"
    requires suffix != [] && !IsWordChar(suffix[0])
    requires !HasDangerousWord(sql) && !HasDangerousWord(suffix)
    ensures !HasDangerousWord(core + suffix)
  {
    forall k | 0 <= k < |DangerousWords|
      ensures !ContainsWordCI(core + suffix, DangerousWords[k])
    {
      CoreWord(core, sql, suffix, DangerousWords[k]);
    }
  }

  /** Up to the end of the kept statement, `\b` sits at the same places in the SQL and in the output. */
  lemma CoreBoundary(core: string, sql: string, suffix: string, p: nat)
    requires core == sql || sql == core + ";"
    requires suffix != [] && !IsWordChar(suffix[0]) && p <= |core|
    ensures Boundary(core + suffix, p) == Boundary(sql, p)
  {
    var out := core + suffix;
    if p > 0 {
      assert out[p - 1] == core[p - 1] == sql[p - 1];
    }
    if p < |core| {
      assert out[p] == core[p] == sql[p];
    } else if sql != core {
      assert sql[p] == ';';
    }
  }

  /**
   * Any text, word characters or not, that occurs in the SQL between two `\b` still
   * occurs in the output: an occurrence cannot end on the dropped `;`, since no `\b`
   * follows a final `;`.
   */
  lemma CoreOccurrence(core: string, sql: string, suffix: string, t: string)
    requires core == sql || sql == core + ";"
    requires suffix != [] && !IsWordChar(suffix[0])
    requires ContainsWordCI(sql, t)
    ensures ContainsWordCI(core + suffix, t)
  {
    var out := core + suffix;
    ContainsWordCISpec(sql, t);
    var k :| 0 <= k <= |sql| && WordAt(sql, t, k);
    if sql != core {
      assert sql[|sql| - 1] == ';';
      assert !Boundary(sql, |sql|);
    }
    assert k + |t| <= |core|;
    if sql != core {
      MatchCIPrefix(core, ";", t, k);
    }
    MatchCIPrefix(core, suffix, t, k);
    CoreBoundary(core, sql, suffix, k);
    CoreBoundary(core, sql, suffix, k + |t|);
    ContainsWordCIWitness(out, t, k);
  }

  /** An allowed table the SQL references is still referenced, whatever characters its name holds. */
  lemma CoreTable(core: string, sql: string, suffix: string, tables: seq<string>)
    requires core == sql || sql == core + ";"
    requires suffix != [] && !IsWordChar(suffix[0])
    requires ReferencesTable(sql, tables)
    ensures ReferencesTable(core + suffix, tables)
  {
    var k :| 0 <= k < |tables| && ContainsWordCI(sql, tables[k]);
    CoreOccurrence(core, sql, suffix, tables[k]);
  }

  /** No issue is reported exactly when every hard check passes. */
  lemma NoIssuesIff(sql: string, tables: seq<string>)
    ensures Issues(sql, tables) == [] <==>
      StartsWithSelect(sql) && !HasDangerousWord(sql) && !MultiStatement(sql)
      && (tables != [] ==> ReferencesTable(sql, tables))
  {
  }

  /**
   * The statement `WithDefaultLimit` produces from clean trimmed SQL is itself clean,
   * trimmed and has a limit.
   */
  lemma DefaultLimitClean(sql: string, tables: seq<string>)
    requires sql != [] && !IsSpace(sql[0]) && !IsSpace(sql[|sql| - 1])
    requires Issues(sql, tables) == []
    ensures var out := WithDefaultLimit(sql);
      Strip(out) == out && Issues(out, tables) == [] && HasLimitWord(out)
  {
    var core := RStripChar(sql, ';');
    var suffix := Concat(LimitEnd());
    LimitSuffixFacts();
    NoIssuesIff(sql, tables);
    SingleStatementTrimmed(sql);
    DefaultLimitCore(sql);
    var out := core + suffix;
    assert WithDefaultLimit(sql) == out;
    CoreSelect(core, sql, suffix);
    CoreHarmless(core, sql, suffix);
    assert NoSemicolon(out);
    NoSemicolonSingle(out);
    if tables != [] {
      CoreTable(core, sql, suffix, tables);
    }
    NoIssuesIff(out, tables);
    CoreWord(core, sql, suffix, LimitKeyword);
    StripNoSpaceEnds(out);
  }

  /**
   * Validating the node's own output again agrees with it: the same `sql_ok`, the same
   * `sql`, and an accepted statement always has a limit, so a second one is never added.
   */
  lemma RevalidateStable(s: Snapshot)
    ensures Validate(Validate(s)).sqlOk == Validate(s).sqlOk
    ensures Validate(Validate(s)).sql == Validate(s).sql
    ensures Validate(s).sqlOk == Some(true) ==> HasLimitWord(Inspected(Validate(s)))
  {
    var sql := Inspected(s);
    var v := Validate(s);
    if sql != "" && Issues(sql, Tables(s)) == [] && !HasLimitWord(sql) {
      StripSpec(StrOr(s.sql, ""));
      DefaultLimitClean(sql, Tables(s));
      assert Inspected(v) == WithDefaultLimit(sql);
    }
  }

  /** `sql_ok` is always set and is true exactly when the SQL is present and clean. */
  lemma AcceptIff(s: Snapshot)
    ensures Validate(s).sqlOk.Some?
    ensures Validate(s).sqlOk == Some(true) <==> Inspected(s) != "" && Issues(Inspected(s), Tables(s)) == []
    ensures Validate(s).(sqlOk := s.sqlOk, sqlIssues := s.sqlIssues, sql := s.sql) == s
  {
  }
}

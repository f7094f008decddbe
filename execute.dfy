/**
 * The execute node: records a placeholder result for the current SQL
 * (src/text2sql/nodes/execute.py). No database is involved.
 */
module ExecuteNode {
  import opened State

  /** `execute_node` on the state as a value. */
  function Execute(s: Snapshot): Snapshot {
    s.(result := Some(ExecResult(true, GetOr(s.sql, ""), [])))
  }

  /** `execute_node`, updating the shared state in place. */
  method Update(st: OrchestratorState)
    modifies st
    ensures st.Snap() == Execute(old(st.Snap()))
  {
    var sql := GetOr(st.sql, "");
    st.result := Some(ExecResult(true, sql, []));
  }

  /**
   * The result is always present, flagged as a dummy, has no rows and echoes the
   * current SQL (or "" when there is none); nothing else changes.
   */
  lemma ExecuteResult(s: Snapshot)
    ensures Execute(s).result.Some?
    ensures Execute(s).result.value.dummy && Execute(s).result.value.rows == []
    ensures s.sql.Some? ==> Execute(s).result.value.sql == s.sql.value
    ensures s.sql.None? ==> Execute(s).result.value.sql == ""
    ensures Execute(s).(result := s.result) == s
  {
  }
}

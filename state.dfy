/**
 * The orchestrator's shared state record.
 *
 * Every key of the record is optional, so each field is an `Option`: `None` stands
 * both for a missing key and for a key holding `None`. Confidence is kept in
 * hundredths (0.75 is 75), which is exact for every constant the pipeline uses.
 *
 * `Snapshot` is the record as a value; `OrchestratorState` is the record the nodes
 * update in place, and `Snap()` reads it back as a `Snapshot`.
 */
module State {

  datatype Option<T> = None | Some(value: T)

  /** The five intents the router can pick. */
  datatype Intent = AskMetadata | GenerateSql | ExecuteSql | Clarify | Refuse

  /** The record the execute node stores: `{"dummy": True, "sql": ..., "rows": []}`. */
  datatype ExecResult = ExecResult(dummy: bool, sql: string, rows: seq<string>)

  datatype Snapshot = Snapshot(
    // input
    userMessage: Option<string>,
    userRole: Option<string>,
    providedSql: Option<string>,
    // routing
    intent: Option<Intent>,
    entities: Option<map<string, string>>,
    confidence: Option<int>,
    needsClarification: Option<bool>,
    clarifyQuestion: Option<string>,
    // guardrails
    allowed: Option<bool>,
    policyReason: Option<string>,
    // metadata
    tableCandidates: Option<seq<string>>,
    columnCandidates: Option<seq<string>>,
    // sql lifecycle
    sql: Option<string>,
    sqlOk: Option<bool>,
    sqlIssues: Option<seq<string>>,
    // execution
    result: Option<ExecResult>,
    // output
    finalAnswer: Option<string>,
    errors: Option<seq<string>>,
    // debug
    traceId: Option<string>)

  /** The record with no key set. */
  const Empty := Snapshot(None, None, None, None, None, None, None, None, None, None,
                          None, None, None, None, None, None, None, None, None)

  /** The record the application entry point hands to the graph. */
  function Initial(message: string, role: string, providedSql: Option<string>, traceId: string): (s: Snapshot)
    ensures s.userMessage == Some(message) && s.userRole == Some(role)
    ensures s.providedSql == providedSql && s.errors == Some([]) && s.traceId == Some(traceId)
    ensures s.intent.None? && s.sql.None? && s.sqlOk.None? && s.result.None? && s.finalAnswer.None?
  {
    Empty.(userMessage := Some(message), userRole := Some(role), providedSql := providedSql,
           errors := Some([]), traceId := Some(traceId))
  }

  /** `state.get(key, d)`. */
  function GetOr<T>(o: Option<T>, d: T): T {
    if o.Some? then o.value else d
  }

  /** `state.get(key) or d` for a string: an empty string counts as missing. */
  function StrOr(o: Option<string>, d: string): (r: string)
    ensures o.Some? && o.value != "" ==> r == o.value
    ensures (o.None? || o.value == "") ==> r == d
  {
    if o.Some? && o.value != "" then o.value else d
  }

  /** `state.get(key) or d` for a list: an empty list counts as missing. */
  function ListOr(o: Option<seq<string>>, d: seq<string>): (r: seq<string>)
    ensures o.Some? && o.value != [] ==> r == o.value
    ensures (o.None? || o.value == []) ==> r == d
  {
    if o.Some? && o.value != [] then o.value else d
  }

  /** The shared state dictionary the nodes mutate. */
  class OrchestratorState {
    var userMessage: Option<string>
    var userRole: Option<string>
    var providedSql: Option<string>
    var intent: Option<Intent>
    var entities: Option<map<string, string>>
    var confidence: Option<int>
    var needsClarification: Option<bool>
    var clarifyQuestion: Option<string>
    var allowed: Option<bool>
    var policyReason: Option<string>
    var tableCandidates: Option<seq<string>>
    var columnCandidates: Option<seq<string>>
    var sql: Option<string>
    var sqlOk: Option<bool>
    var sqlIssues: Option<seq<string>>
    var result: Option<ExecResult>
    var finalAnswer: Option<string>
    var errors: Option<seq<string>>
    var traceId: Option<string>

    /** The current contents of the dictionary as a value. */
    function Snap(): Snapshot
      reads this
    {
      Snapshot(userMessage, userRole, providedSql, intent, entities, confidence,
               needsClarification, clarifyQuestion, allowed, policyReason,
               tableCandidates, columnCandidates, sql, sqlOk, sqlIssues, result,
               finalAnswer, errors, traceId)
    }

    constructor (s: Snapshot)
      ensures Snap() == s
    {
      userMessage := s.userMessage;
      userRole := s.userRole;
      providedSql := s.providedSql;
      intent := s.intent;
      entities := s.entities;
      confidence := s.confidence;
      needsClarification := s.needsClarification;
      clarifyQuestion := s.clarifyQuestion;
      allowed := s.allowed;
      policyReason := s.policyReason;
      tableCandidates := s.tableCandidates;
      columnCandidates := s.columnCandidates;
      sql := s.sql;
      sqlOk := s.sqlOk;
      sqlIssues := s.sqlIssues;
      result := s.result;
      finalAnswer := s.finalAnswer;
      errors := s.errors;
      traceId := s.traceId;
    }
  }
}

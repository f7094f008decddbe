/**
 * The two-step agent pipeline (core/): `check_intent_permission` lets only the roles
 * `admin` and `analyst` through and otherwise records `sql_error = "Unauthorized"`;
 * `format_response` writes `final_response` into the state it is given and returns
 * the state with one more log entry. The graph always runs the two in that order.
 * Each node returns `{**state, **log(msg)}`: every key of the state, with `logs`
 * replaced by the one entry `log` makes, which the `operator.add` reducer appends.
 */
module CoreAgent {
  import opened State

  /** The record `core.logging.log(msg)` puts under `logs`; its contents beyond the message are not modelled. */
  datatype LogEntry = LogEntry(message: string)

  datatype FinalResponse = FinalResponse(status: string, answer: string, logs: seq<LogEntry>)

  /** The keys of `AgentState` the core reads or writes (`None`: key absent). */
  datatype AgentState = AgentState(userId: string, userRole: string, question: string,
                                   sqlQuery: Option<string>, sqlError: Option<string>,
                                   finalResponse: Option<FinalResponse>, logs: seq<LogEntry>)

  const AllowedRoles: seq<string> := ["admin", "analyst"]
  const UnauthorizedError := "Unauthorized"
  const DeniedEntry := LogEntry("Permission denied")
  const GrantedEntry := LogEntry("Permission granted")
  const FormattedEntry := LogEntry("Response formatted")

  /** Python truthiness of an optional string: present and not empty. */
  predicate Truthy(x: Option<string>) {
    x.Some? && x.value != ""
  }

  /** `check_intent_permission`: the dict it returns. */
  function CheckPermission(s: AgentState): (r: AgentState)
    ensures r.logs == (if s.userRole in AllowedRoles then [GrantedEntry] else [DeniedEntry])
    ensures s.userRole in AllowedRoles ==> r.sqlError == s.sqlError
    ensures s.userRole !in AllowedRoles ==> r.sqlError == Some(UnauthorizedError)
    ensures r.(sqlError := s.sqlError, logs := s.logs) == s
  {
    if s.userRole !in AllowedRoles then s.(sqlError := Some(UnauthorizedError), logs := [DeniedEntry])
    else s.(logs := [GrantedEntry])
  }

  /** The response `format_response` builds from the state it is given. */
  function Formatted(s: AgentState): (f: FinalResponse)
    ensures f.status == "error" <==> Truthy(s.sqlError)
    ensures f.status == "success" <==> !Truthy(s.sqlError)
    ensures Truthy(s.sqlError) ==> f.answer == s.sqlError.value
    ensures !Truthy(s.sqlError) ==> f.answer == "OK"
    ensures f.logs == s.logs
  {
    FinalResponse(if Truthy(s.sqlError) then "error" else "success",
                  if Truthy(s.sqlError) then s.sqlError.value else "OK",
                  s.logs)
  }

  /** `format_response`: the dict it returns, with the response written in. */
  function FormatUpdate(s: AgentState): AgentState {
    s.(finalResponse := Some(Formatted(s)), logs := [FormattedEntry])
  }

  /**
   * The state dict a node is handed, which `format_response` changes in place before
   * it builds its return value.
   */
  class StateDict {
    var userId: string
    var userRole: string
    var question: string
    var sqlQuery: Option<string>
    var sqlError: Option<string>
    var finalResponse: Option<FinalResponse>
    var logs: seq<LogEntry>

    constructor (s: AgentState)
      ensures Snap() == s
    {
      userId, userRole, question := s.userId, s.userRole, s.question;
      sqlQuery, sqlError, finalResponse, logs := s.sqlQuery, s.sqlError, s.finalResponse, s.logs;
    }

    function Snap(): AgentState
      reads this
    {
      AgentState(userId, userRole, question, sqlQuery, sqlError, finalResponse, logs)
    }

    /**
     * `format_response(state)`: sets `final_response` on this dict and returns it
     * with `logs` replaced by the one new entry.
     */
    method FormatResponse() returns (r: AgentState)
      modifies this
      ensures Snap() == old(Snap()).(finalResponse := Some(Formatted(old(Snap()))))
      ensures r == FormatUpdate(old(Snap()))
    {
      var status := if sqlError.Some? && sqlError.value != "" then "error" else "success";
      var answer := if sqlError.Some? && sqlError.value != "" then sqlError.value else "OK";
      finalResponse := Some(FinalResponse(status, answer, logs));
      r := Snap().(logs := [FormattedEntry]);
    }
  }

  // ---------------------------------------------------------------------------
  // The pipeline

  /** The reducer: the returned `logs` are appended, every other returned key overwrites. */
  function Merge(s: AgentState, r: AgentState): (t: AgentState)
    ensures t.logs == s.logs + r.logs
    ensures t.(logs := r.logs) == r
  {
    r.(logs := s.logs + r.logs)
  }

  datatype AgentNode = CheckPermissionNode | FormatNode

  datatype AgentRun = AgentRun(state: AgentState, path: seq<AgentNode>)

  /** `build_graph().invoke(s)`: check_permission, then format, then END. */
  function Invoke(s: AgentState): AgentRun {
    var a := Merge(s, CheckPermission(s));
    var b := Merge(a, FormatUpdate(a));
    AgentRun(b, [CheckPermissionNode, FormatNode])
  }

  /**
   * Every request is formatted, a denied one included: the status is "error" exactly
   * when the role is not allowed or an error was already recorded, the answer is that
   * error or "OK", the response's logs are those of the permission step, and the run
   * adds the two entries in order.
   */
  lemma PipelineOutcome(s: AgentState)
    ensures var r := Invoke(s);
      var allowed := s.userRole in AllowedRoles;
      var entry := if allowed then GrantedEntry else DeniedEntry;
      && r.path == [CheckPermissionNode, FormatNode]
      && r.state.finalResponse.Some?
      && (r.state.finalResponse.value.status == "error" <==> !allowed || Truthy(s.sqlError))
      && (!allowed ==> r.state.finalResponse.value.answer == UnauthorizedError)
      && (allowed ==> r.state.finalResponse.value.answer == (if Truthy(s.sqlError) then s.sqlError.value else "OK"))
      && r.state.finalResponse.value.logs == s.logs + [entry]
      && r.state.logs == s.logs + [entry, FormattedEntry]
      && r.state.userId == s.userId && r.state.userRole == s.userRole
      && r.state.question == s.question && r.state.sqlQuery == s.sqlQuery
  {
    var a := Merge(s, CheckPermission(s));
    assert a.logs == s.logs + CheckPermission(s).logs;
    assert s.logs + CheckPermission(s).logs + [FormattedEntry] == s.logs + (CheckPermission(s).logs + [FormattedEntry]);
  }

  /** Role membership is exact: any other spelling, `Admin` included, is refused. */
  lemma RoleMatchIsExact()
    ensures CheckPermission(AgentState("u", "admin", "q", None, None, None, [])).sqlError == None
    ensures CheckPermission(AgentState("u", "Admin", "q", None, None, None, [])).sqlError == Some(UnauthorizedError)
  {
    assert "Admin" != "admin" && "Admin" != "analyst";
  }
}

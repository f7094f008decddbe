/**
 * The bank's access-control gate (VerifyAccess.py): a fixed user table and an
 * authorisation matrix role → resource → actions, the node that decides
 * `auth_status` and writes one log line, the router on that status, and the
 * three-node graph around them. `logs` is merged by list concatenation (the
 * `operator.add` reducer), every other returned key overwrites the old value.
 */
module VerifyAccess {
  import opened State

  /** A log line: `[timestamp] TAG: text` with the timestamp left out, or a plain line. */
  datatype LogLine = Stamped(tag: string, text: string) | Plain(line: string)

  datatype UserInfo = UserInfo(name: string, role: string)

  const GeneralManager := "GENERAL_MANAGER"
  const DataAnalyst := "DATA_ANALYST"
  const BranchManager := "BRANCH_MANAGER"

  /** `BANK_AUTH_MATRIX`. */
  const Matrix: map<string, map<string, seq<string>>> := map[
    GeneralManager := map[
      "financial_reports" := ["view_all_branches", "export_summary"],
      "customer_data" := ["view_aggregate_stats"],
      "audit_logs" := ["view_system_logs"],
      "branch_performance" := ["compare_all_branches"]],
    DataAnalyst := map[
      "financial_reports" := ["view_raw_data", "run_analytics"],
      "customer_data" := ["view_anonymized"],
      "loan_performance" := ["view_risk_models", "read_trends"],
      "branch_performance" := ["view_all_branches"]],
    BranchManager := map[
      "financial_reports" := ["view_branch_only"],
      "customer_data" := ["view_customer_details", "export_branch_list"],
      "loan_performance" := ["view_branch_loans"],
      "staff_data" := ["view_branch_staff_performance"]]]

  /** `BANK_USERS`. */
  const Users: map<string, UserInfo> := map[
    "u_001" := UserInfo("Alice", GeneralManager),
    "u_002" := UserInfo("Bob", DataAnalyst),
    "u_003" := UserInfo("Charlie", BranchManager)]

  /** The matrix grants `action` on `resource` to `role`. */
  predicate Grants(role: string, resource: string, action: string) {
    role in Matrix && resource in Matrix[role] && action in Matrix[role][resource]
  }

  /** `BANK_AUTH_MATRIX.get(role, {}).get(resource, [])`: no entry gives the empty list. */
  function AllowedActions(role: string, resource: Option<string>): (actions: seq<string>)
    ensures forall a :: a in actions <==> resource.Some? && Grants(role, resource.value, a)
  {
    var byResource := if role in Matrix then Matrix[role] else map[];
    if resource.Some? && resource.value in byResource then byResource[resource.value] else []
  }

  /** `f"{x}"` for an optional string: the text, or `None`. */
  function Show(x: Option<string>): string {
    if x.Some? then x.value else "None"
  }

  const SuccessTag := "SUCCESS"
  const FailureTag := "FAILURE"
  const AlertTag := "SECURITY ALERT"

  function UnknownUserText(userId: string): string {
    "Access attempt by unknown User ID: " + userId + "."
  }

  function DecisionText(role: string, userId: string, verb: string, action: Option<string>,
                        resource: Option<string>): string {
    role + " (" + userId + ") " + verb + " " + Show(action) + " on " + Show(resource) + "."
  }

  const GrantedVerb := "authorized for"
  const DeniedVerb := "denied access for"

  /** What `access_control_node` returns: `auth_status` and its one log line. */
  datatype AccessUpdate = AccessUpdate(authStatus: bool, logs: seq<LogLine>)

  /** `access_control_node`, with the request's `user_id` and the `metadata` entries. */
  function AccessControl(userId: string, action: Option<string>, resource: Option<string>): (u: AccessUpdate)
    ensures |u.logs| == 1 && u.logs[0].Stamped?
    ensures userId !in Users ==> u == AccessUpdate(false, [Stamped(AlertTag, UnknownUserText(userId))])
    ensures u.authStatus <==>
      userId in Users && action.Some? && resource.Some? && Grants(Users[userId].role, resource.value, action.value)
    ensures u.logs[0].tag == SuccessTag <==> u.authStatus
    ensures u.logs[0].tag == FailureTag <==> userId in Users && !u.authStatus
    ensures userId in Users ==>
      var role := Users[userId].role;
      u.logs[0].text == DecisionText(role, userId, if u.authStatus then GrantedVerb else DeniedVerb, action, resource)
  {
    if userId !in Users then AccessUpdate(false, [Stamped(AlertTag, UnknownUserText(userId))])
    else
      var role := Users[userId].role;
      var authorized := action.Some? && action.value in AllowedActions(role, resource);
      if authorized then AccessUpdate(true, [Stamped(SuccessTag, DecisionText(role, userId, GrantedVerb, action, resource))])
      else AccessUpdate(false, [Stamped(FailureTag, DecisionText(role, userId, DeniedVerb, action, resource))])
  }

  /** `auth_router`: the label of the edge out of access control. */
  function AuthRouter(authStatus: bool): (next: string)
    ensures next == "process_start" <==> authStatus
    ensures next == "unauthorized_exit" <==> !authStatus
  {
    if authStatus then "process_start" else "unauthorized_exit"
  }

  // ---------------------------------------------------------------------------
  // Concrete requests

  /** Bob, a data analyst, may run analytics on the financial reports. */
  lemma AnalystRunsAnalytics()
    ensures var u := AccessControl("u_002", Some("run_analytics"), Some("financial_reports"));
      u.authStatus && u.logs[0].tag == SuccessTag
  {
    assert Users["u_002"].role == DataAnalyst;
    assert ("run_analytics") in Matrix[DataAnalyst]["financial_reports"];
  }

  /** Alice, the general manager, may not view customer details. */
  lemma ManagerDeniedCustomerDetails()
    ensures var u := AccessControl("u_001", Some("view_customer_details"), Some("customer_data"));
      !u.authStatus && u.logs[0].tag == FailureTag
  {
    assert Users["u_001"].role == GeneralManager;
    assert Matrix[GeneralManager]["customer_data"] == ["view_aggregate_stats"];
    assert ("view_customer_details") != ("view_aggregate_stats");
  }

  /** A request without an action is denied without raising, whoever sends it. */
  lemma MissingActionDenied(userId: string, resource: Option<string>)
    ensures !AccessControl(userId, None, resource).authStatus
  {
  }

  // ---------------------------------------------------------------------------
  // The graph

  /** The keys of `GraphState` the nodes read or write; `metadata` is split into its two entries. */
  datatype AccessState = AccessState(userId: string, action: Option<string>, resource: Option<string>,
                                     authStatus: Option<bool>, logs: seq<LogLine>, response: Option<string>)

  /** A node's returned dict: the keys it sets (`None`: not returned) and the lines it appends. */
  datatype Update = Update(authStatus: Option<bool>, logs: seq<LogLine>, response: Option<string>)

  /** Merging a node's update into the state: the reducer appends `logs`, other keys overwrite. */
  function Apply(s: AccessState, u: Update): (t: AccessState)
    ensures t.logs == s.logs + u.logs
    ensures t.userId == s.userId && t.action == s.action && t.resource == s.resource
  {
    s.(authStatus := if u.authStatus.Some? then u.authStatus else s.authStatus,
       logs := s.logs + u.logs,
       response := if u.response.Some? then u.response else s.response)
  }

  const DeniedResponse := "Access Denied: Unauthorized Action."

  function AccessControlUpdate(s: AccessState): Update {
    var u := AccessControl(s.userId, s.action, s.resource);
    Update(Some(u.authStatus), u.logs, None)
  }

  /** The `unauthorized_exit` node. */
  function UnauthorizedExitUpdate(s: AccessState): Update {
    Update(None, [], Some(DeniedResponse))
  }

  /** `lambda state: state` as written: the whole state comes back as the update, `logs` included. */
  function ProcessStartAsWritten(s: AccessState): Update {
    Update(s.authStatus, s.logs, s.response)
  }

  /** The pass-through `process_start` evidently means: it returns nothing to merge. */
  function ProcessStartUpdate(s: AccessState): Update {
    Update(None, [], None)
  }

  datatype AccessNode = AccessControlNode | UnauthorizedExitNode | ProcessStartNode

  datatype AccessRun = AccessRun(state: AccessState, path: seq<AccessNode>)

  /** The compiled graph's `invoke`: access control, then the node `auth_router` picks. */
  function Invoke(s: AccessState): AccessRun {
    var a := Apply(s, AccessControlUpdate(s));
    if AuthRouter(a.authStatus.value) == "process_start" then
      AccessRun(Apply(a, ProcessStartUpdate(a)), [AccessControlNode, ProcessStartNode])
    else
      AccessRun(Apply(a, UnauthorizedExitUpdate(a)), [AccessControlNode, UnauthorizedExitNode])
  }

  /** The same graph with `process_start` as written. */
  function InvokeAsWritten(s: AccessState): AccessRun {
    var a := Apply(s, AccessControlUpdate(s));
    if AuthRouter(a.authStatus.value) == "process_start" then
      AccessRun(Apply(a, ProcessStartAsWritten(a)), [AccessControlNode, ProcessStartNode])
    else
      AccessRun(Apply(a, UnauthorizedExitUpdate(a)), [AccessControlNode, UnauthorizedExitNode])
  }

  /**
   * Every run adds exactly the one line of access control to the logs it was given,
   * ends at `process_start` exactly when that line is a success, and otherwise ends at
   * `unauthorized_exit` with the denial response.
   */
  lemma InvokeOutcome(s: AccessState)
    ensures var u := AccessControl(s.userId, s.action, s.resource);
      var r := Invoke(s);
      && r.state.logs == s.logs + u.logs
      && r.state.authStatus == Some(u.authStatus)
      && (u.authStatus ==> r.path == [AccessControlNode, ProcessStartNode] && r.state.response == s.response)
      && (!u.authStatus ==> r.path == [AccessControlNode, UnauthorizedExitNode]
                            && r.state.response == Some(DeniedResponse))
  {
    var u := AccessControl(s.userId, s.action, s.resource);
    assert s.logs + u.logs + [] == s.logs + u.logs;
  }

  /** Logs only grow: the logs a run starts with are a prefix of the logs it ends with. */
  lemma LogsAppendOnly(s: AccessState)
    ensures |Invoke(s).state.logs| == |s.logs| + 1 && Invoke(s).state.logs[..|s.logs|] == s.logs
  {
    InvokeOutcome(s);
  }

  /**
   * As written, an authorised run ends with its logs twice over: the reducer appends the
   * list that `process_start` hands back, which is the whole list so far.
   */
  lemma ProcessStartDoublesLogs(s: AccessState)
    requires AccessControl(s.userId, s.action, s.resource).authStatus
    ensures var u := AccessControl(s.userId, s.action, s.resource);
      InvokeAsWritten(s).state.logs == (s.logs + u.logs) + (s.logs + u.logs)
      && |InvokeAsWritten(s).state.logs| == 2 * |Invoke(s).state.logs|
  {
    InvokeOutcome(s);
  }

  /** Bob's authorised request, on fresh logs: one line with the pass-through, two as written. */
  lemma AnalystRunLogs()
    ensures var s := AccessState("u_002", Some("run_analytics"), Some("financial_reports"), None, [], None);
      |Invoke(s).state.logs| == 1 && |InvokeAsWritten(s).state.logs| == 2
      && InvokeAsWritten(s).state.logs[0] == InvokeAsWritten(s).state.logs[1]
  {
    var s := AccessState("u_002", Some("run_analytics"), Some("financial_reports"), None, [], None);
    AnalystRunsAnalytics();
    ProcessStartDoublesLogs(s);
    InvokeOutcome(s);
  }
}

/**
 * The strict SQL gate behind access control (SQLValidation.py): the query is trimmed
 * and upper-cased, then must open with SELECT or WITH, hold none of eight write
 * keywords as a whole word, carry a `LIMIT <digits>` whose first value is at most
 * 500, and name after every `FROM` only tables of a fixed allow-set. The first failed
 * check names the one log line; the graph runs this gate only for authorised requests.
 */
module SqlValidation {
  import opened Text
  import opened State
  import VerifyAccess

  type LogLine = VerifyAccess.LogLine

  /** `ALLOWED_TABLES`. */
  const AllowedTables: set<string> := {"SAFE_ORDERS", "SAFE_CUSTOMERS", "SAFE_LOANS"}

  /** `MAX_LIMIT`. */
  const MaxLimit := 500

  /** The alternatives of the forbidden-keyword pattern. */
  const ForbiddenWords: seq<string> :=
    ["DELETE", "UPDATE", "INSERT", "DROP", "ALTER", "CREATE", "EXEC", "CALL"]

  /** `state.get("sql_query", "").strip().upper()`. */
  function Query(sqlQuery: Option<string>): string {
    Upper(Strip(GetOr(sqlQuery, "")))
  }

  /** `query.startswith(("SELECT", "WITH"))`: a plain prefix, not a word. */
  predicate ReadOnlyPrefix(q: string) {
    StartsWith(q, "SELECT") || StartsWith(q, "WITH")
  }

  /** `\bw\b` matches at `i`, case-sensitively. */
  predicate WordAtExact(q: string, w: string, i: nat) {
    i + |w| <= |q| && q[i..i + |w|] == w && Boundary(q, i) && Boundary(q, i + |w|)
  }

  /** `re.search(forbidden, query)` finds a match. */
  predicate HasForbidden(q: string) {
    exists k: nat, i: nat :: k < |ForbiddenWords| && i <= |q| && WordAtExact(q, ForbiddenWords[k], i)
  }

  // ---------------------------------------------------------------------------
  // LIMIT\s+(\d+)

  /**
   * The first code point of the run of ten decimal digits that holds `c`, or of the
   * closest such run below `c` (the ASCII run when there is none). The runs are those of
   * Unicode 15.0's category Nd: `\d` on a `str` matches these characters, and `int()`
   * reads each as its distance from the start of its run.
   */
  function DigitZero(c: char): int {
    var v := c as int;
    if v < 0x660 then 0x30
    else if v < 0x6F0 then 0x660
    else if v < 0x7C0 then 0x6F0
    else if v < 0x966 then 0x7C0
    else if v < 0x9E6 then 0x966
    else if v < 0xA66 then 0x9E6
    else if v < 0xAE6 then 0xA66
    else if v < 0xB66 then 0xAE6
    else if v < 0xBE6 then 0xB66
    else if v < 0xC66 then 0xBE6
    else if v < 0xCE6 then 0xC66
    else if v < 0xD66 then 0xCE6
    else if v < 0xDE6 then 0xD66
    else if v < 0xE50 then 0xDE6
    else if v < 0xED0 then 0xE50
    else if v < 0xF20 then 0xED0
    else if v < 0x1040 then 0xF20
    else if v < 0x1090 then 0x1040
    else if v < 0x17E0 then 0x1090
    else if v < 0x1810 then 0x17E0
    else if v < 0x1946 then 0x1810
    else if v < 0x19D0 then 0x1946
    else if v < 0x1A80 then 0x19D0
    else if v < 0x1A90 then 0x1A80
    else if v < 0x1B50 then 0x1A90
    else if v < 0x1BB0 then 0x1B50
    else if v < 0x1C40 then 0x1BB0
    else if v < 0x1C50 then 0x1C40
    else if v < 0xA620 then 0x1C50
    else if v < 0xA8D0 then 0xA620
    else if v < 0xA900 then 0xA8D0
    else if v < 0xA9D0 then 0xA900
    else if v < 0xA9F0 then 0xA9D0
    else if v < 0xAA50 then 0xA9F0
    else if v < 0xABF0 then 0xAA50
    else if v < 0xFF10 then 0xABF0
    else if v < 0x104A0 then 0xFF10
    else if v < 0x10D30 then 0x104A0
    else if v < 0x11066 then 0x10D30
    else if v < 0x110F0 then 0x11066
    else if v < 0x11136 then 0x110F0
    else if v < 0x111D0 then 0x11136
    else if v < 0x112F0 then 0x111D0
    else if v < 0x11450 then 0x112F0
    else if v < 0x114D0 then 0x11450
    else if v < 0x11650 then 0x114D0
    else if v < 0x116C0 then 0x11650
    else if v < 0x11730 then 0x116C0
    else if v < 0x118E0 then 0x11730
    else if v < 0x11950 then 0x118E0
    else if v < 0x11C50 then 0x11950
    else if v < 0x11D50 then 0x11C50
    else if v < 0x11DA0 then 0x11D50
    else if v < 0x11F50 then 0x11DA0
    else if v < 0x16A60 then 0x11F50
    else if v < 0x16AC0 then 0x16A60
    else if v < 0x16B50 then 0x16AC0
    else if v < 0x1D7CE then 0x16B50
    else if v < 0x1D7D8 then 0x1D7CE
    else if v < 0x1D7E2 then 0x1D7D8
    else if v < 0x1D7EC then 0x1D7E2
    else if v < 0x1D7F6 then 0x1D7EC
    else if v < 0x1E140 then 0x1D7F6
    else if v < 0x1E2F0 then 0x1E140
    else if v < 0x1E4F0 then 0x1E2F0
    else if v < 0x1E950 then 0x1E4F0
    else if v < 0x1FBF0 then 0x1E950
    else 0x1FBF0
  }

  /** `\d`: a Unicode decimal digit. */
  predicate IsDecimal(c: char) {
    DigitZero(c) <= c as int < DigitZero(c) + 10
  }

  /** What `int()` reads a decimal digit as. */
  function DecimalValue(c: char): (d: nat)
    requires IsDecimal(c)
    ensures d < 10
  {
    c as int - DigitZero(c)
  }

  /** The ASCII digits are decimal digits with their usual values. */
  lemma AsciiDecimal(c: char)
    requires IsDigit(c)
    ensures IsDecimal(c) && DecimalValue(c) == c as int - '0' as int
  {
  }

  /** What a greedy `\d*` takes from `j` on. */
  function DecimalRun(s: string, j: nat): (n: nat)
    requires j <= |s|
    ensures j + n <= |s| && (j + n == |s| || !IsDecimal(s[j + n]))
    ensures forall k :: j <= k < j + n ==> IsDecimal(s[k])
    decreases |s| - j
  {
    if j < |s| && IsDecimal(s[j]) then 1 + DecimalRun(s, j + 1) else 0
  }

  /** `int(ds)` for a run of decimal digits, which may mix scripts. */
  function DecimalsValue(ds: string): nat
    requires forall i :: 0 <= i < |ds| ==> IsDecimal(ds[i])
  {
    if |ds| == 0 then 0
    else
      var d := ds[|ds| - 1];
      assert IsDecimal(d);
      DecimalsValue(ds[..|ds| - 1]) * 10 + DecimalValue(d)
  }

  /** `int(str(n)) == n`: `str` writes ASCII digits, and `int` reads them back. */
  lemma {:induction false} DecimalsValueNatToString(n: nat)
    ensures forall i :: 0 <= i < |NatToString(n)| ==> IsDecimal(NatToString(n)[i])
    ensures DecimalsValue(NatToString(n)) == n
  {
    var r := NatToString(n);
    forall i | 0 <= i < |r|
      ensures IsDecimal(r[i])
    {
      AsciiDecimal(r[i]);
    }
    AsciiDecimal(r[|r| - 1]);
    if n >= 10 {
      DecimalsValueNatToString(n / 10);
      assert r[..|r| - 1] == NatToString(n / 10);
    }
  }

  /** `LIMIT\s+(\d+)` matches at `i`. */
  predicate LimitAt(q: string, i: nat) {
    i + 5 <= |q| && q[i..i + 5] == "LIMIT" && SpaceRun(q, i + 5) > 0
    && DecimalRun(q, i + 5 + SpaceRun(q, i + 5)) > 0
  }

  /** `i` is where `re.search` finds the limit: the leftmost match. */
  predicate FirstLimitAt(q: string, i: nat) {
    LimitAt(q, i) && forall k: nat :: k < i ==> !LimitAt(q, k)
  }

  /** `int(limit_match.group(1))`: the value of the digits the match at `i` captures. */
  function LimitValue(q: string, i: nat): nat
    requires LimitAt(q, i)
  {
    var d := i + 5 + SpaceRun(q, i + 5);
    DecimalsValue(q[d..d + DecimalRun(q, d)])
  }

  /** `\d` is not only ASCII: the Arabic-Indic digits of `LIMIT ١٠` are read as 10. */
  lemma ArabicIndicLimit()
    ensures LimitAt("LIMIT \U{0661}\U{0660}", 0) && LimitValue("LIMIT \U{0661}\U{0660}", 0) == 10
  {
    var q := "LIMIT \U{0661}\U{0660}";
    assert DecimalRun(q, 8) == 0;
    assert DecimalRun(q, 6) == 2;
    assert q[6..8][..1] == [q[6]];
    assert DecimalsValue([q[6]]) == 1;
  }

  /** The leftmost position from `i` on where the limit pattern matches. */
  function LimitFrom(q: string, i: nat): (m: Option<nat>)
    requires i <= |q|
    ensures m.Some? ==> i <= m.value && LimitAt(q, m.value) && forall k: nat :: i <= k < m.value ==> !LimitAt(q, k)
    ensures m.None? ==> forall k: nat :: i <= k ==> !LimitAt(q, k)
    decreases |q| - i
  {
    if LimitAt(q, i) then Some(i) else if i == |q| then None else LimitFrom(q, i + 1)
  }

  // ---------------------------------------------------------------------------
  // FROM\s+([A-Z_]+)

  predicate TableChar(c: char) {
    'A' <= c <= 'Z' || c == '_'
  }

  /** What a greedy `[A-Z_]*` takes from `j` on. */
  function TableRun(q: string, j: nat): (n: nat)
    requires j <= |q|
    ensures j + n <= |q| && (j + n == |q| || !TableChar(q[j + n]))
    ensures forall k :: j <= k < j + n ==> TableChar(q[k])
    decreases |q| - j
  {
    if j < |q| && TableChar(q[j]) then 1 + TableRun(q, j + 1) else 0
  }

  /** A name the table group can capture. */
  predicate TableName(t: string) {
    |t| > 0 && forall k :: 0 <= k < |t| ==> TableChar(t[k])
  }

  /** A match of `FROM\s+([A-Z_]+)` at `i`: the captured name and where the match ends. */
  datatype Capture = Capture(name: string, end: nat)

  function FromAt(q: string, i: nat): (c: Option<Capture>)
    requires i <= |q|
    ensures c.Some? ==> i < c.value.end <= |q| && TableName(c.value.name)
    ensures c.Some? ==> i + 4 < c.value.end - |c.value.name| && q[i..i + 4] == "FROM"
    ensures c.Some? ==> q[c.value.end - |c.value.name|..c.value.end] == c.value.name
  {
    if i + 4 <= |q| && q[i..i + 4] == "FROM" && SpaceRun(q, i + 4) > 0 then
      var j := i + 4 + SpaceRun(q, i + 4);
      var n := TableRun(q, j);
      if n > 0 then Some(Capture(q[j..j + n], j + n)) else None
    else None
  }

  /** `re.findall(r"FROM\s+([A-Z_]+)", q[p:])`: non-overlapping matches, left to right. */
  function TablesFrom(q: string, p: nat): (ts: seq<string>)
    requires p <= |q|
    ensures forall k :: 0 <= k < |ts| ==> TableName(ts[k])
    decreases |q| - p
  {
    if p == |q| then []
    else match FromAt(q, p)
      case Some(c) => [c.name] + TablesFrom(q, c.end)
      case None => TablesFrom(q, p + 1)
  }

  /** The first captured name outside the allow-set, if any. */
  function FirstDisallowed(ts: seq<string>): (t: Option<string>)
    ensures t.None? <==> forall k :: 0 <= k < |ts| ==> ts[k] in AllowedTables
    ensures t.Some? ==> t.value !in AllowedTables
    ensures t.Some? ==>
      exists k :: 0 <= k < |ts| && ts[k] == t.value && forall j :: 0 <= j < k ==> ts[j] in AllowedTables
  {
    if |ts| == 0 then None
    else if ts[0] !in AllowedTables then Some(ts[0])
    else
      var r := FirstDisallowed(ts[1..]);
      if r.Some? then
        ghost var k :| 0 <= k < |ts| - 1 && ts[1..][k] == r.value && forall j :: 0 <= j < k ==> ts[1..][j] in AllowedTables;
        assert ts[k + 1] == r.value;
        r
      else r
  }

  // ---------------------------------------------------------------------------
  // The node

  const DenyTag := "SQL_DENY"
  const OkTag := "SQL_OK"
  const NotReadOnlyText := "Not read-only"
  const ForbiddenText := "Forbidden keyword"
  const LimitRequiredText := "LIMIT required"
  const LimitTooLargeText := "LIMIT too large"
  const ValidatedText := "Query validated"

  function TableDeniedText(t: string): string {
    "Table " + t + " not allowed"
  }

  /** What `sql_validation_node` returns: `is_sql_safe` and its one log line. */
  datatype SqlUpdate = SqlUpdate(isSqlSafe: bool, logs: seq<LogLine>)

  function Deny(text: string): SqlUpdate {
    SqlUpdate(false, [VerifyAccess.Stamped(DenyTag, text)])
  }

  /** The limit check passes: the first limit's value is at most the ceiling. */
  predicate LimitWithin(q: string) {
    exists i: nat :: i <= |q| && FirstLimitAt(q, i) && LimitValue(q, i) <= MaxLimit
  }

  /** All five conditions of the gate. */
  predicate Safe(q: string) {
    && ReadOnlyPrefix(q)
    && !HasForbidden(q)
    && LimitWithin(q)
    && forall t :: t in TablesFrom(q, 0) ==> t in AllowedTables
  }

  /** `sql_validation_node`, on the state's `sql_query` (`None`: absent). */
  function ValidationNode(sqlQuery: Option<string>): (u: SqlUpdate)
    ensures |u.logs| == 1 && u.logs[0].Stamped?
    ensures u.isSqlSafe <==> u.logs[0] == VerifyAccess.Stamped(OkTag, ValidatedText)
    ensures !u.isSqlSafe <==> u.logs[0].tag == DenyTag
  {
    var q := Query(sqlQuery);
    var m := LimitFrom(q, 0);
    if !ReadOnlyPrefix(q) then Deny(NotReadOnlyText)
    else if HasForbidden(q) then Deny(ForbiddenText)
    else if m.None? then Deny(LimitRequiredText)
    else if LimitValue(q, m.value) > MaxLimit then Deny(LimitTooLargeText)
    else
      var bad := FirstDisallowed(TablesFrom(q, 0));
      if bad.Some? then Deny(TableDeniedText(bad.value))
      else SqlUpdate(true, [VerifyAccess.Stamped(OkTag, ValidatedText)])
  }

  /**
   * The node's outcomes: the query is safe exactly when all five conditions hold, and
   * each denial names the first check that fails, the table check naming the first
   * table outside the allow-set.
   */
  lemma ValidationOutcomes(sqlQuery: Option<string>)
    ensures var u := ValidationNode(sqlQuery); u.isSqlSafe <==> Safe(Query(sqlQuery))
    ensures var u := ValidationNode(sqlQuery); u == Deny(NotReadOnlyText) <==> !ReadOnlyPrefix(Query(sqlQuery))
    ensures var u := ValidationNode(sqlQuery);
      u == Deny(ForbiddenText) <==> ReadOnlyPrefix(Query(sqlQuery)) && HasForbidden(Query(sqlQuery))
    ensures var u := ValidationNode(sqlQuery); var q := Query(sqlQuery);
      u == Deny(LimitRequiredText) <==> ReadOnlyPrefix(q) && !HasForbidden(q) && forall i: nat :: !LimitAt(q, i)
    ensures var u := ValidationNode(sqlQuery); var q := Query(sqlQuery);
      u == Deny(LimitTooLargeText) <==>
        ReadOnlyPrefix(q) && !HasForbidden(q) && exists i: nat :: FirstLimitAt(q, i) && LimitValue(q, i) > MaxLimit
    ensures var u := ValidationNode(sqlQuery); var q := Query(sqlQuery);
      forall t :: u == Deny(TableDeniedText(t)) <==>
        ReadOnlyPrefix(q) && !HasForbidden(q) && LimitWithin(q) && FirstDisallowed(TablesFrom(q, 0)) == Some(t)
  {
    var q := Query(sqlQuery);
    var m := LimitFrom(q, 0);
    NodeFacts(q, m);
    var u := ValidationNode(sqlQuery);
    if !ReadOnlyPrefix(q) {
      assert u == Deny(NotReadOnlyText);
    } else if HasForbidden(q) {
      assert u == Deny(ForbiddenText);
    } else if m.None? {
      assert u == Deny(LimitRequiredText);
    } else if LimitValue(q, m.value) > MaxLimit {
      assert u == Deny(LimitTooLargeText);
    } else if FirstDisallowed(TablesFrom(q, 0)).Some? {
      assert u == Deny(TableDeniedText(FirstDisallowed(TablesFrom(q, 0)).value));
    } else {
      assert u.isSqlSafe;
    }
  }

  /** The facts about the node's five outcomes its contract needs, proved once. */
  lemma NodeFacts(q: string, m: Option<nat>)
    requires m == LimitFrom(q, 0)
    ensures m.None? <==> forall i: nat :: !LimitAt(q, i)
    ensures m.Some? ==> FirstLimitAt(q, m.value)
    ensures m.Some? ==> (LimitWithin(q) <==> LimitValue(q, m.value) <= MaxLimit)
    ensures m.Some? ==>
      ((exists i: nat :: FirstLimitAt(q, i) && LimitValue(q, i) > MaxLimit) <==> LimitValue(q, m.value) > MaxLimit)
    ensures m.None? ==> !LimitWithin(q)
    ensures forall t :: TableDeniedText(t) != NotReadOnlyText && TableDeniedText(t) != ForbiddenText
    ensures forall t :: TableDeniedText(t) != LimitRequiredText && TableDeniedText(t) != LimitTooLargeText
    ensures forall t, t' :: TableDeniedText(t) == TableDeniedText(t') ==> t == t'
  {
    if m.Some? {
      forall i: nat | FirstLimitAt(q, i)
        ensures i == m.value
      {
      }
    }
    forall t
      ensures TableDeniedText(t)[0] == 'T'
    {
    }
    forall t, t' | TableDeniedText(t) == TableDeniedText(t')
      ensures t == t'
    {
      TableTextInjective(t, t');
    }
  }

  lemma TableTextInjective(t: string, t': string)
    requires TableDeniedText(t) == TableDeniedText(t')
    ensures t == t'
  {
    var a := TableDeniedText(t);
    assert |t| == |t'|;
    assert a[6..6 + |t|] == t;
    assert TableDeniedText(t')[6..6 + |t'|] == t';
  }

  /** Only the first limit counts: a second, larger one after it is not looked at. */
  lemma OnlyFirstLimitCounts(q: string, i: nat, j: nat)
    requires i <= |q| && FirstLimitAt(q, i) && LimitValue(q, i) <= MaxLimit && i < j && LimitAt(q, j)
    ensures LimitWithin(q)
  {
  }

  // ---------------------------------------------------------------------------
  // The gate graph: access control, then validation, then one of three exits

  /**
   * The keys the gate's nodes read or write: `GraphState` of VerifyAccess.py extended with
   * `sql_query` and `is_sql_safe`, and with `metadata` split into its two entries.
   */
  datatype GateState = GateState(userId: string, action: Option<string>, resource: Option<string>,
                                 sqlQuery: Option<string>, authStatus: Option<bool>, isSqlSafe: Option<bool>,
                                 logs: seq<LogLine>, response: Option<string>)

  /** A node's returned dict: the keys it sets (`None`: not returned) and the lines it appends. */
  datatype GateUpdate = GateUpdate(authStatus: Option<bool>, isSqlSafe: Option<bool>, logs: seq<LogLine>,
                                   response: Option<string>)

  /** The reducer appends `logs`; every other returned key overwrites. */
  function Merge(s: GateState, u: GateUpdate): (t: GateState)
    ensures t.logs == s.logs + u.logs
    ensures t.userId == s.userId && t.action == s.action && t.resource == s.resource && t.sqlQuery == s.sqlQuery
  {
    s.(authStatus := if u.authStatus.Some? then u.authStatus else s.authStatus,
       isSqlSafe := if u.isSqlSafe.Some? then u.isSqlSafe else s.isSqlSafe,
       logs := s.logs + u.logs,
       response := if u.response.Some? then u.response else s.response)
  }

  datatype GateNode = AccessControlNode | SqlValidationNode | UnauthorizedExitNode | SqlRejectedNode | ProcessStartNode

  const ForbiddenResponse := "403 Forbidden"
  const InvalidResponse := "Invalid SQL"
  const SafeResponse := "Authorized & SQL Safe"
  const SecurityExit := VerifyAccess.Plain("SECURITY_EXIT")
  const SqlExit := VerifyAccess.Plain("SQL_EXIT")

  /** What each node returns. */
  function NodeUpdate(n: GateNode, s: GateState): GateUpdate {
    match n
    case AccessControlNode =>
      var u := VerifyAccess.AccessControl(s.userId, s.action, s.resource);
      GateUpdate(Some(u.authStatus), None, u.logs, None)
    case SqlValidationNode =>
      var v := ValidationNode(s.sqlQuery);
      GateUpdate(None, Some(v.isSqlSafe), v.logs, None)
    case UnauthorizedExitNode => GateUpdate(None, None, [SecurityExit], Some(ForbiddenResponse))
    case SqlRejectedNode => GateUpdate(None, None, [SqlExit], Some(InvalidResponse))
    case ProcessStartNode => GateUpdate(None, None, [], Some(SafeResponse))
  }

  /** How far a node is from the exits. */
  function Rank(n: GateNode): nat {
    match n
    case AccessControlNode => 2
    case SqlValidationNode => 1
    case _ => 0
  }

  /** The edges after a node has run (`None`: END); both branches read the flag just merged. */
  function Next(n: GateNode, s: GateState): (m: Option<GateNode>)
    ensures m.Some? ==> Rank(m.value) < Rank(n)
  {
    match n
    case AccessControlNode => if s.authStatus == Some(true) then Some(SqlValidationNode) else Some(UnauthorizedExitNode)
    case SqlValidationNode => if s.isSqlSafe == Some(true) then Some(ProcessStartNode) else Some(SqlRejectedNode)
    case _ => None
  }

  datatype GateRun = GateRun(state: GateState, path: seq<GateNode>)

  /** Run node `n` on `s`, merge its update, and follow the edges to END. */
  function RunFrom(n: GateNode, s: GateState): (r: GateRun)
    ensures |r.path| > 0 && r.path[0] == n
    decreases Rank(n)
  {
    var t := Merge(s, NodeUpdate(n, s));
    match Next(n, t)
    case None => GateRun(t, [n])
    case Some(m) =>
      var r := RunFrom(m, t);
      GateRun(r.state, [n] + r.path)
  }

  /** The compiled gate's `invoke`. */
  function Invoke(s: GateState): GateRun {
    RunFrom(AccessControlNode, s)
  }

  /**
   * The three ways through the gate: denied requests leave at `unauthorized_exit`;
   * authorised ones are validated and leave at `process_start` when safe and at
   * `sql_rejected` otherwise. Each node's lines are appended in the order the nodes run.
   */
  lemma GateOutcome(s: GateState)
    ensures var u := VerifyAccess.AccessControl(s.userId, s.action, s.resource);
      var v := ValidationNode(s.sqlQuery);
      var r := Invoke(s);
      && (!u.authStatus ==>
            && r.path == [AccessControlNode, UnauthorizedExitNode]
            && r.state.response == Some(ForbiddenResponse)
            && r.state.logs == s.logs + u.logs + [SecurityExit])
      && (u.authStatus && v.isSqlSafe ==>
            && r.path == [AccessControlNode, SqlValidationNode, ProcessStartNode]
            && r.state.response == Some(SafeResponse)
            && r.state.logs == s.logs + u.logs + v.logs)
      && (u.authStatus && !v.isSqlSafe ==>
            && r.path == [AccessControlNode, SqlValidationNode, SqlRejectedNode]
            && r.state.response == Some(InvalidResponse)
            && r.state.logs == s.logs + u.logs + v.logs + [SqlExit])
  {
    var u := VerifyAccess.AccessControl(s.userId, s.action, s.resource);
    var t := Merge(s, NodeUpdate(AccessControlNode, s));
    assert t.sqlQuery == s.sqlQuery;
    GateOutcomeOf(s, u, ValidationNode(s.sqlQuery));
  }

  /** The three ways through the gate, given what access control and validation return. */
  lemma GateOutcomeOf(s: GateState, u: VerifyAccess.AccessUpdate, v: SqlUpdate)
    requires NodeUpdate(AccessControlNode, s) == GateUpdate(Some(u.authStatus), None, u.logs, None)
    requires NodeUpdate(SqlValidationNode, Merge(s, NodeUpdate(AccessControlNode, s)))
             == GateUpdate(None, Some(v.isSqlSafe), v.logs, None)
    ensures var r := Invoke(s);
      && (!u.authStatus ==>
            && r.path == [AccessControlNode, UnauthorizedExitNode]
            && r.state.response == Some(ForbiddenResponse)
            && r.state.logs == s.logs + u.logs + [SecurityExit])
      && (u.authStatus && v.isSqlSafe ==>
            && r.path == [AccessControlNode, SqlValidationNode, ProcessStartNode]
            && r.state.response == Some(SafeResponse)
            && r.state.logs == s.logs + u.logs + v.logs)
      && (u.authStatus && !v.isSqlSafe ==>
            && r.path == [AccessControlNode, SqlValidationNode, SqlRejectedNode]
            && r.state.response == Some(InvalidResponse)
            && r.state.logs == s.logs + u.logs + v.logs + [SqlExit])
  {
    AccessStep(s, u);
    if u.authStatus {
      ValidatedMerge(Merge(s, NodeUpdate(AccessControlNode, s)), v);
    }
  }

  /** After access control: its flag picks the branch, and its line comes first. */
  lemma AccessStep(s: GateState, u: VerifyAccess.AccessUpdate)
    requires NodeUpdate(AccessControlNode, s) == GateUpdate(Some(u.authStatus), None, u.logs, None)
    ensures var t := Merge(s, NodeUpdate(AccessControlNode, s));
      var r := Invoke(s);
      && (!u.authStatus ==>
            && r.path == [AccessControlNode, UnauthorizedExitNode]
            && r.state.response == Some(ForbiddenResponse)
            && r.state.logs == s.logs + u.logs + [SecurityExit])
      && (u.authStatus ==> r == GateRun(RunFrom(SqlValidationNode, t).state, [AccessControlNode] + RunFrom(SqlValidationNode, t).path))
  {
  }

  /** From validation on: the flag it merges picks the exit, and its line precedes the exit's. */
  lemma ValidatedRun(t: GateState)
    ensures var v := ValidationNode(t.sqlQuery);
      var r := RunFrom(SqlValidationNode, t);
      && (v.isSqlSafe ==>
            && r.path == [SqlValidationNode, ProcessStartNode]
            && r.state.response == Some(SafeResponse)
            && r.state.logs == t.logs + v.logs)
      && (!v.isSqlSafe ==>
            && r.path == [SqlValidationNode, SqlRejectedNode]
            && r.state.response == Some(InvalidResponse)
            && r.state.logs == t.logs + v.logs + [SqlExit])
  {
    ValidatedMerge(t, ValidationNode(t.sqlQuery));
  }

  lemma ValidatedMerge(t: GateState, v: SqlUpdate)
    requires NodeUpdate(SqlValidationNode, t) == GateUpdate(None, Some(v.isSqlSafe), v.logs, None)
    ensures var r := RunFrom(SqlValidationNode, t);
      && (v.isSqlSafe ==>
            && r.path == [SqlValidationNode, ProcessStartNode]
            && r.state.response == Some(SafeResponse)
            && r.state.logs == t.logs + v.logs)
      && (!v.isSqlSafe ==>
            && r.path == [SqlValidationNode, SqlRejectedNode]
            && r.state.response == Some(InvalidResponse)
            && r.state.logs == t.logs + v.logs + [SqlExit])
  {
    if v.isSqlSafe {
      SafeExit(t, v);
    } else {
      RejectedExit(t, v);
    }
  }

  lemma SafeExit(t: GateState, v: SqlUpdate)
    requires NodeUpdate(SqlValidationNode, t) == GateUpdate(None, Some(v.isSqlSafe), v.logs, None) && v.isSqlSafe
    ensures var r := RunFrom(SqlValidationNode, t);
      r.path == [SqlValidationNode, ProcessStartNode] && r.state.response == Some(SafeResponse)
      && r.state.logs == t.logs + v.logs
  {
    assert t.logs + v.logs + [] == t.logs + v.logs;
  }

  lemma RejectedExit(t: GateState, v: SqlUpdate)
    requires NodeUpdate(SqlValidationNode, t) == GateUpdate(None, Some(v.isSqlSafe), v.logs, None) && !v.isSqlSafe
    ensures var r := RunFrom(SqlValidationNode, t);
      r.path == [SqlValidationNode, SqlRejectedNode] && r.state.response == Some(InvalidResponse)
      && r.state.logs == t.logs + v.logs + [SqlExit]
  {
  }

  /** Validation runs exactly when access control authorised the request. */
  lemma ValidationOnlyAfterAuth(s: GateState)
    ensures SqlValidationNode in Invoke(s).path <==> VerifyAccess.AccessControl(s.userId, s.action, s.resource).authStatus
  {
    GateOutcome(s);
  }

  /** A run reaches `process_start` exactly when the user is authorised and the query is safe. */
  lemma ProcessStartIffSafe(s: GateState)
    ensures ProcessStartNode in Invoke(s).path <==>
      VerifyAccess.AccessControl(s.userId, s.action, s.resource).authStatus && Safe(Query(s.sqlQuery))
  {
    GateOutcome(s);
    ValidationOutcomes(s.sqlQuery);
  }

  /** Every run ends at an exit node, which has only the edge to END, with a response set. */
  lemma GateEnds(s: GateState)
    ensures var r := Invoke(s);
      var last := r.path[|r.path| - 1];
      Next(last, r.state).None? && last in {UnauthorizedExitNode, SqlRejectedNode, ProcessStartNode}
      && r.state.response.Some?
  {
    GateOutcome(s);
  }
}

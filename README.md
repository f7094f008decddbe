# text2sql — a Dafny model of the request pipeline and its SQL gates

This project models the deterministic core of a Turkish-language Text-to-SQL assistant
for a bank, and proves properties of it.

**The orchestrator.** A request is a message, a role and, optionally, a piece of SQL. It
runs through a seven-node graph that shares one state record:

- router → policy → metadata → sql_gen → validate → execute → answer.
- The router classifies the message into one of five intents by a first-match-wins
  cascade of six rules.
- The policy node denies a teller's PII question and carries a router refusal over.
- The metadata node supplies default table and column candidates.
- sql_gen fills one of two SQL templates.
- The validator collects hard issues and appends a default `LIMIT 200`.
- execute records a placeholder result.
- The answer node composes the final message by priority.
- The routing functions and the edge table decide which node runs next.

**The stand-alone SQL gates.**

- the UI's `enforce_readonly`;
- the UI client's `_validate_sql`, with its `FROM`/`JOIN` table-reference pattern;
- the UI client's brace-depth JSON scanner, and the fallback logic of `text2sql`;
- the strict `sql_validation_node` behind the bank's access control.

**Access control and the agent pipeline.**

- The bank's access matrix and its three-node graph (`VerifyAccess.py`).
- The two-step permission/format pipeline of `core/`.
- The database build script's `normalize_sql` and `split_statements`.

**How the source maps into Dafny.**

- The state record is a `Snapshot` datatype (every key optional, so every field is an
  `Option`).
- `OrchestratorState` is the dictionary class the nodes mutate in place.
- Each node is a function on `Snapshot`, plus a method that updates the class and is
  proved to equal that function.
- The graph is a `Next` function over the edge table and a `Run` driver. The driver is
  proved to terminate, and it is proved that each run visits answer exactly once.
- Confidences are integer hundredths; 0.75 is `75`.
- Regular expressions are hand-written matchers for the few patterns the code uses.

The five routing scenarios of `tests/test_routing_paths.py` are proved end to end in
`Scenarios`.

**Where the code and its tests disagree.** `tests/test_routing_paths.py:24-27` expects
`run("rapor", "manager", sql="SELECT * FROM satislar")` to end with `sql_ok` true. This
project follows the code instead:

- the router leaves caller SQL in `provided_sql` (`src/text2sql/nodes/router.py:32`);
- the EXECUTE_SQL path skips metadata and sql_gen;
- the validator reads only `sql` (`src/text2sql/nodes/sql_validate.py:14`).

So that request ends with `sql_ok` false and the single issue `SQL missing`.
`Scenarios.ExecuteScenario` proves this, including `sql_ok != Some(true)`.

## Model

| member | source | states |
|---|---|---|
| State.Initial | src/text2sql/app.py:11-17 | the record `run` builds holds the message, the role, the provided SQL, no errors and the trace id, and no routing, SQL or answer key |
| State.StrOr | src/text2sql/nodes/router.py:17-18 | `state.get(k) or d` gives the stored string when it is non-empty and the default when it is absent or empty |
| State.ListOr | src/text2sql/nodes/sql_validate.py:31-32 | `state.get(k) or []` gives a non-empty stored list as it is and the default otherwise |
| State.OrchestratorState.constructor | src/text2sql/orchestrator/state.py:6-40 | the mutable state dictionary starts out holding exactly the given record |
| SqlPatterns.MultiStatementTrimmed | src/text2sql/nodes/sql_validate.py:7 | on trimmed text, `;\s*\S+` matches exactly when a `;` stands before the last character |
| SqlPatterns.TrailingSemicolonSingle | src/text2sql/nodes/sql_validate.py:7 | one trailing `;` after semicolon-free text is not a multiple statement |
| SqlPatterns.SingleStatementTrimmed | src/text2sql/nodes/sql_validate.py:7 | trimmed text that is a single statement has a `;`, if at all, only as its last character |
| SqlPatterns.NoSemicolonSingle | src/text2sql/nodes/sql_validate.py:7 | text without `;` is never a multiple statement |
| RouterNode.Route | src/text2sql/nodes/router.py:26-69 | the rule-by-rule cascade with early returns computes exactly the decision `Decide` specifies |
| RouterNode.Update | src/text2sql/nodes/router.py:16-69 | `router_node` updating the dictionary in place leaves exactly the classified state |
| RouterNode.Write | src/text2sql/nodes/router.py:21-24 | the default routing fields, then the matching rule's overrides, give exactly the adopted decision |
| RouterNode.ClassifyFrame | src/text2sql/nodes/router.py:20-43 | only the routing fields change; `provided_sql` changes only when a pasted SELECT is adopted; `entities` keeps its value or becomes `{}` |
| RouterNode.ProvidedSqlDecides | src/text2sql/nodes/router.py:26-33 | non-empty provided SQL alone decides: REFUSE 0.99 if dangerous, else EXECUTE_SQL, whatever the message says |
| RouterNode.PastedSelect | src/text2sql/nodes/router.py:35-43 | a message starting with the word `select` is refused at 0.99 if dangerous, else adopted as `provided_sql` with EXECUTE_SQL |
| RouterNode.RefuseIff | src/text2sql/nodes/router.py:26-49 | REFUSE exactly when the deciding text (the provided SQL, else the message) has a dangerous word; the confidence is then 0.95 or 0.99 |
| RouterNode.ExecuteIff | src/text2sql/nodes/router.py:26-43 | EXECUTE_SQL exactly when safe SQL was provided or pasted, always at the default 0.75 |
| RouterNode.MetadataIff | src/text2sql/nodes/router.py:51-56 | ASK_METADATA at 0.8 exactly when there is no SQL and no dangerous word, and a metadata keyword occurs in the lower-cased message |
| RouterNode.ClarifyIff | src/text2sql/nodes/router.py:58-64 | CLARIFY exactly for a short or ambiguous message that no earlier rule took, with confidence 0.4, the flag set and the fixed question |
| RouterNode.GenerateIff | src/text2sql/nodes/router.py:66-69 | GENERATE_SQL at 0.7 exactly when no other rule fires |
| RouterNode.ClassifyTotal | src/text2sql/nodes/router.py:20-69 | an intent and a confidence are always set; confidence is below 0.6 only for CLARIFY; every other intent keeps the clarification defaults |
| PolicyNode.Update | src/text2sql/nodes/policy.py:8-28 | `policy_node` updating the dictionary in place leaves exactly the evaluated state |
| PolicyNode.EvaluateFrame | src/text2sql/nodes/policy.py:12-28 | only `allowed` and `policy_reason` change, and both are always set |
| PolicyNode.RoleCaseInsensitive | src/text2sql/nodes/policy.py:9 | roles that agree after lower-casing are evaluated alike |
| PolicyNode.TellerSpellings | src/text2sql/nodes/policy.py:9-17 | "Teller" and "TELLER" both count as the teller role |
| PolicyNode.TellerPiiDenied | src/text2sql/nodes/policy.py:16-20 | a teller whose message holds a PII word is denied with the teller reason, whatever the intent |
| PolicyNode.RefuseCarriedOver | src/text2sql/nodes/policy.py:22-26 | a router refusal becomes `allowed=false`, always with the default reason, because the reason was reset first |
| PolicyNode.AllowedIff | src/text2sql/nodes/policy.py:12-28 | allowed exactly when neither rule fires, then with an empty reason; a denial always has a non-empty reason |
| MetadataNode.Update | src/text2sql/nodes/metadata.py:5-9 | `metadata_node` updating the dictionary in place leaves exactly the resolved state |
| MetadataNode.ResolveCandidates | src/text2sql/nodes/metadata.py:7-8 | a missing or empty candidate list becomes the defaults; a non-empty one is kept as it was |
| MetadataNode.ResolveNonEmpty | src/text2sql/nodes/metadata.py:7-8 | afterwards both candidate lists are present and non-empty |
| MetadataNode.ResolveIdempotent | src/text2sql/nodes/metadata.py:7-8 | resolving twice equals resolving once |
| MetadataNode.ResolveFrame | src/text2sql/nodes/metadata.py:5-9 | no field other than the two candidate lists changes |
| SqlGenNode.FirstTwo | src/text2sql/nodes/sql_gen.py:15 | `cols[:2]` is the prefix of at most two items, and the whole list when it has fewer |
| SqlGenNode.Update | src/text2sql/nodes/sql_gen.py:5-16 | `sql_gen_node` updating the dictionary in place leaves exactly the generated state |
| SqlGenNode.GenerateFrame | src/text2sql/nodes/sql_gen.py:5-16 | only `sql` changes, and it is always set |
| SqlGenNode.TemplateChoice | src/text2sql/nodes/sql_gen.py:12-15 | the seven-day template is used exactly when the lower-cased message contains "son 7", otherwise the basic one; both use `tables[0]` |
| SqlGenNode.RecentSqlText | src/text2sql/nodes/sql_gen.py:13 | the seven-day template spells the source's query with the table in its place |
| SqlGenNode.BasicSqlText | src/text2sql/nodes/sql_gen.py:15 | the basic template is `SELECT ` + the first two columns joined by `, ` + ` FROM ` + table + ` LIMIT 200` |
| SqlGenNode.JoinPiecesConcat | src/text2sql/nodes/sql_gen.py:15 | the column list is Python's `', '.join` of the columns |
| SqlGenNode.TemplateAccepted | src/text2sql/nodes/sql_validate.py:25-48 | template-shaped SQL opening with SELECT, holding LIMIT and the first table passes every hard check and needs no limit |
| SqlGenNode.GeneratedSqlAccepted | src/text2sql/nodes/sql_gen.py:12-15 | with an identifier-like, non-dangerous first table and, on the basic template, such first two columns (the only ones it uses), the generated SQL passes the validator unchanged with no issues |
| SqlValidateNode.Checks | src/text2sql/nodes/sql_validate.py:25-38 | the four hard checks' outcomes, one flag per check in check order |
| SqlValidateNode.CollectIssues | src/text2sql/nodes/sql_validate.py:25-38 | the successive appends build exactly the specified issue list |
| SqlValidateNode.Update | src/text2sql/nodes/sql_validate.py:13-50 | `sql_validate_node` updating the dictionary in place leaves exactly the validated state |
| SqlValidateNode.IssuesInCheckOrder | src/text2sql/nodes/sql_validate.py:25-38 | every check runs without short-circuit; the issues are the failing checks' messages in check order |
| SqlValidateNode.IssueIff | src/text2sql/nodes/sql_validate.py:25-38 | each issue is reported exactly when its check fails |
| SqlValidateNode.MissingSql | src/text2sql/nodes/sql_validate.py:14-23 | absent, empty or all-whitespace SQL gives `sql_ok=false` and exactly `["SQL missing"]`, with `sql` unchanged |
| SqlValidateNode.HardIssuesReject | src/text2sql/nodes/sql_validate.py:40-43 | any hard issue gives `sql_ok=false`, exactly that issue list, and `sql` unchanged |
| SqlValidateNode.AllowListCheck | src/text2sql/nodes/sql_validate.py:33-38 | without candidates the allow-list check never fires; with them it fires exactly when no candidate occurs as a whole word |
| SqlValidateNode.LimitAppended | src/text2sql/nodes/sql_validate.py:45-48 | clean SQL without `limit` becomes the trimmed SQL, minus trailing `;`, plus ` LIMIT 200`, still accepted, with the note |
| SqlValidateNode.LimitPresent | src/text2sql/nodes/sql_validate.py:45-50 | clean SQL with `limit` is accepted as it is, with no issues |
| SqlValidateNode.NoIssuesIff | src/text2sql/nodes/sql_validate.py:25-40 | no issue is reported exactly when all four hard checks pass |
| SqlValidateNode.CoreOccurrence | src/text2sql/nodes/sql_validate.py:34-36 | any table text, word characters or not, that occurs between two `\b` in the SQL still occurs so in the SQL with its trailing `;` replaced by ` LIMIT 200` |
| SqlValidateNode.DefaultLimitClean | src/text2sql/nodes/sql_validate.py:45-48 | for any candidate table names, the statement with the default limit appended is still trimmed, passes every hard check and has a limit |
| SqlValidateNode.RevalidateStable | src/text2sql/nodes/sql_validate.py:13-50 | for any state, re-validating the node's output gives the same `sql_ok` and `sql`; accepted SQL has a limit, so no second one is added |
| SqlValidateNode.AcceptIff | src/text2sql/nodes/sql_validate.py:16-50 | `sql_ok` is always set and is true exactly when the SQL is present and has no issue; only `sql`, `sql_ok` and `sql_issues` change |
| ExecuteNode.Update | src/text2sql/nodes/execute.py:5-9 | `execute_node` updating the dictionary in place leaves exactly the executed state |
| ExecuteNode.ExecuteResult | src/text2sql/nodes/execute.py:6-8 | the result is present, a dummy with no rows, echoes `sql` (or "" when it is absent), and nothing else changes |
| AnswerNode.Update | src/text2sql/nodes/answer.py:5-44 | `answer_node` updating the dictionary in place leaves exactly the answered state |
| AnswerNode.AnswerFrame | src/text2sql/nodes/answer.py:10-44 | only `final_answer` is written, and it is always a non-empty string |
| AnswerNode.DenialWins | src/text2sql/nodes/answer.py:7-13 | an explicit denial wins over every intent with the denial prefix and reason; an absent `allowed` counts as allowed |
| AnswerNode.ClarifyAnswer | src/text2sql/nodes/answer.py:15-18 | a clarification shows the router's question, or the fallback question when that is empty |
| AnswerNode.MetadataMessageMentionsTables | src/text2sql/nodes/answer.py:24 | the candidate listing, lower-cased, contains "tablolar" |
| AnswerNode.MetadataAnswer | src/text2sql/nodes/answer.py:20-25 | a metadata question gets the listing of both candidate lists, which mentions "tablolar" |
| AnswerNode.SqlAnswer | src/text2sql/nodes/answer.py:27-35 | a SQL intent reports the issues exactly when `sql_ok` is false, else the result summary; an absent `sql_ok` counts as true |
| AnswerNode.RefuseAnswer | src/text2sql/nodes/answer.py:37-40 | a refusal gets the fixed message, which mentions "güvenlik" |
| AnswerNode.FallbackAnswer | src/text2sql/nodes/answer.py:42-44 | a request with no intent gets the fallback question |
| PyRepr.ReprStrRoundTrip | src/text2sql/nodes/answer.py:31 | `repr` of a string opens and closes with its quote, and its body unescapes back to the string |
| PyRepr.UnescapeEscape | src/text2sql/nodes/answer.py:31 | unescaping inverts `repr`'s character escaping for either quote |
| PyRepr.EscapeQuoted | src/text2sql/nodes/answer.py:31 | every quote inside an escaped body follows a backslash |
| PyRepr.ReprPlain | src/text2sql/nodes/answer.py:31 | printable text (`str.isprintable`) without quotes or backslashes is written as `'text'` |
| PyRepr.EscapePrintable | src/text2sql/nodes/answer.py:24 | whatever the string holds, every character `repr` writes for it is printable |
| PyRepr.NonPrintableEscapes | src/text2sql/nodes/answer.py:24 | a no-break space is written `\xa0` and a line separator `\u2028` |
| PyRepr.ReprListEmpty | src/text2sql/nodes/answer.py:30-31 | an empty issue list is written `[]` |
| Routes.RouteFromRouter | src/text2sql/orchestrator/routes.py:6-15 | the label after the router is one of refuse, clarify and policy |
| Routes.RouteAfterPolicy | src/text2sql/orchestrator/routes.py:18-29 | the label after policy is one of refuse, metadata, validate and answer |
| Routes.RouteAfterMetadata | src/text2sql/orchestrator/routes.py:32-36 | the label after metadata is answer or sql_gen |
| Routes.RouteAfterValidate | src/text2sql/orchestrator/routes.py:39-40 | the label after validate is execute or answer |
| Routes.RouterRouteIff | src/text2sql/orchestrator/routes.py:6-15 | refuse exactly for REFUSE, whatever the confidence; clarify exactly for the flag, a confidence below 0.6 (absent is 0.0) or CLARIFY; else policy |
| Routes.PolicyRouteIff | src/text2sql/orchestrator/routes.py:18-29 | refuse exactly on an explicit denial; otherwise metadata for ASK_METADATA/GENERATE_SQL, validate for EXECUTE_SQL, answer for anything else |
| Routes.MetadataRouteIff | src/text2sql/orchestrator/routes.py:32-36 | answer exactly for ASK_METADATA, sql_gen for every other intent |
| Routes.ValidateRouteIff | src/text2sql/orchestrator/routes.py:39-40 | execute exactly when `sql_ok` is true; an absent one routes to answer |
| Graph.NextDecreases | src/text2sql/orchestrator/graph.py:30-57 | every edge leads to a node of lower rank, so the graph is acyclic; only answer leads to END |
| Graph.RunShape | src/text2sql/orchestrator/graph.py:17-59 | whatever the nodes do, a run starts at its first node, never revisits a node and visits at most rank + 1 nodes |
| Graph.RunEndsAtAnswer | src/text2sql/orchestrator/graph.py:56-57 | whatever the nodes do, a run that finishes ends at answer |
| Graph.RunNeverCrashes | src/text2sql/orchestrator/graph.py:42-48 | sql_gen can only raise without a candidate table, and metadata, its only predecessor, always supplies one |
| Graph.InvokeShape | src/text2sql/orchestrator/graph.py:17-59 | every invocation ends at END, starts at router, visits answer exactly once and last, at most seven nodes and none twice |
| Graph.RouterEdge | src/text2sql/orchestrator/graph.py:30-34 | from router, refuse and clarify lead straight to answer, skipping policy; policy leads to policy |
| Graph.PolicyEdge | src/text2sql/orchestrator/graph.py:36-40 | from policy, metadata and validate lead to those nodes; refuse and answer lead to answer |
| Graph.MetadataEdge | src/text2sql/orchestrator/graph.py:42-46 | from metadata, answer leads to answer and sql_gen to sql_gen |
| Graph.ValidateEdge | src/text2sql/orchestrator/graph.py:50-54 | from validate, execute leads to execute and answer to answer |
| Graph.FixedEdges | src/text2sql/orchestrator/graph.py:48-57 | sql_gen always goes to validate, execute to answer, and answer to END |
| Graph.ExecuteEntry | src/text2sql/orchestrator/graph.py:50-54 | execute is entered exactly from validate with `sql_ok` true |
| Graph.SqlGenEntry | src/text2sql/orchestrator/graph.py:42-46 | sql_gen is entered exactly from metadata for an intent other than ASK_METADATA |
| Graph.PathThrough | src/text2sql/orchestrator/graph.py:30-57 | a run along a sequence of node steps and edges ends with the last state, having visited exactly those nodes |
| Graph.ShortPath | src/text2sql/orchestrator/graph.py:30-34 | a refusal or clarification from the router is answered at once, on the path router, answer |
| Graph.RunNode | src/text2sql/orchestrator/graph.py:20-26 | running one registered node in place gives that node's result, or reports that it raised |
| Graph.InvokeInPlace | src/text2sql/orchestrator/graph.py:17-59 | the compiled graph invoked on the shared dictionary ends in the state and path the `Invoke` driver specifies |
| Scenarios.MetaDecision | src/text2sql/nodes/router.py:51-56 | "Hangi tablolar var?" is ASK_METADATA at 0.8 |
| Scenarios.SalesDecision | src/text2sql/nodes/router.py:66-69 | "Son 7 günde satışları getir" matches no earlier rule and is GENERATE_SQL at 0.7 |
| Scenarios.DropDecision | src/text2sql/nodes/router.py:45-49 | "DROP TABLE satislar" is REFUSE at 0.95, though it contains "table" |
| Scenarios.QuestionDecision | src/text2sql/nodes/router.py:58-64 | "?" is CLARIFY at 0.4 with the fixed question |
| Scenarios.ReportDecision | src/text2sql/nodes/router.py:26-33 | "rapor" with provided `SELECT * FROM satislar` is EXECUTE_SQL at 0.75 |
| Scenarios.MetadataScenario | tests/test_routing_paths.py:3-6 | a manager's metadata question runs router, policy, metadata, answer, and its answer mentions "tablolar" |
| Scenarios.GenerateScenario | tests/test_routing_paths.py:8-12 | a manager's sales request runs all seven nodes, ending with the seven-day SQL over `satislar`, `sql_ok` true and a result |
| Scenarios.RefuseScenario | tests/test_routing_paths.py:14-17 | an admin's DROP TABLE is refused on router, answer, with an answer that mentions "güvenlik" |
| Scenarios.ClarifyScenario | tests/test_routing_paths.py:19-22 | a manager's "?" gets a non-empty clarification on router, answer |
| Scenarios.ExecuteScenario | tests/test_routing_paths.py:24-27 | the provided-SQL request runs router, policy, validate, answer and ends with `sql_ok` false and `["SQL missing"]`, not true |
| Scenarios.ThroughPolicy | src/text2sql/orchestrator/graph.py:30-40 | an allowed, confident request that the router does not refuse passes router and policy with its message, SQL and candidates kept |
| Scenarios.ExecutePath | src/text2sql/orchestrator/graph.py:36-54 | on the EXECUTE_SQL path with no `sql`, validation fails with "SQL missing" and the answer reports that issue |
| Scenarios.GeneratePath | src/text2sql/orchestrator/graph.py:36-57 | a GENERATE_SQL request with the default candidates visits all seven nodes and is executed with the generated SQL |
| UiValidators.EnforceReadonly | ui/validators.py:3-14 | empty input raises "boş sql"; input not starting with the word SELECT/WITH raises; everything else is accepted, and these are the only cases |
| UiValidators.WithLimitFacts | ui/validators.py:11-12 | appending the limit keeps the opening word and makes the word `limit` present |
| UiValidators.AcceptedShape | ui/validators.py:4-14 | accepted output opens with SELECT/WITH, contains the word `limit` and ends with exactly one `;` |
| UiValidators.LimitKept | ui/validators.py:11-14 | a body that has the word `limit` is returned as it is, with one `;` |
| UiValidators.LimitAppended | ui/validators.py:11-14 | a body without `limit` gets ` LIMIT ` + the default limit + `;` |
| UiValidators.EnforceIdempotent | ui/validators.py:3-14 | for a fixed default limit, enforcing twice equals enforcing once |
| JsonLoose.CloseFrom | ui/graph_client.py:37-58 | the first index at or after a position where a `}` outside strings brings the depth back to zero, or none if there is no such index |
| JsonLoose.FindObjectEnd | ui/graph_client.py:37-58 | the scanning loop finds the first closing `}`, exactly as `CloseFrom` specifies, or reports there is none |
| JsonLoose.EscOnlyInString | ui/graph_client.py:42-48 | the after-backslash state only ever holds inside a string |
| JsonLoose.StringsHideBraces | ui/graph_client.py:42-48 | inside a string no character changes the depth, braces included |
| JsonLoose.EscapedQuoteStaysInString | ui/graph_client.py:43-46 | a backslash keeps the next character, a `"` included, inside the string |
| JsonLoose.DepthPositiveInside | ui/graph_client.py:49-56 | before the first close, every position after the opening `{` is at depth at least one |
| JsonLoose.BlobBalanced | ui/graph_client.py:56-58 | the extracted slice opens with `{`, closes with `}`, stays at positive depth inside, and leaves the scanner in its initial state |
| JsonLoose.Raw | ui/graph_client.py:35 | `text[:500]` is a prefix of at most 500 characters |
| JsonLoose.FromLoaded | ui/graph_client.py:58 | a `json.loads` result is returned and its error propagates |
| JsonLoose.ParseJsonLoose | ui/graph_client.py:13-60 | `_parse_json_loose` with its scanning loop returns or raises exactly what `LooseParse` specifies |
| JsonLoose.LooseParseText | ui/graph_client.py:24-60 | on text, the direct parse wins if it succeeds; otherwise the result is the parse of the first balanced object or one of the two errors |
| JsonLoose.LooseParseDict | ui/graph_client.py:21-22 | a dict is returned unchanged |
| JsonLoose.LooseParseAnswers | ui/graph_client.py:24-60 | whatever `json.loads` does, a text outcome comes from the trimmed text, from the balanced object in it, or is a scanner error |
| GraphClient.RefsFrom | ui/graph_client.py:80 | every reference `finditer` collects is a name `[a-zA-Z_][\w.]*` |
| GraphClient.MatchRefAt | ui/graph_client.py:80 | a match starts with a whole-word `from`/`join`, ends past it, and captures a reference name |
| GraphClient.NoKeywordNoRefs | ui/graph_client.py:80 | a text without any `f` or `j` holds no table reference |
| GraphClient.RefsOfShape | ui/graph_client.py:80 | a query shaped `… FROM v` + line break + `ORDER …`, with no other `f` or `j`, has exactly the one reference `v` |
| GraphClient.Disallowed | ui/graph_client.py:100 | the bad references are exactly those not equal to the allowed view case-insensitively; none exactly when all are allowed |
| GraphClient.ValidateSql | ui/graph_client.py:83-104 | first failure wins: empty, not SELECT/WITH, banned substring, disallowed table; `(True, "OK")` exactly when every check passes |
| GraphClient.CleanHasNoBanned | ui/graph_client.py:93-96 | text without the letter patterns of the banned entries contains none of them, lower-cased |
| GraphClient.SafeSqlRefs | ui/graph_client.py:217-222 | the fallback query's only table reference is the allowed view |
| GraphClient.SafeSqlPasses | ui/graph_client.py:216-227 | the fixed fallback query passes `_validate_sql` |
| GraphClient.OpenRouterChat | ui/graph_client.py:142-191 | a blank API key raises; a failed exchange raises its error; otherwise the result is an object exactly when the loose parse of the content succeeds |
| GraphClient.Text2Sql | ui/graph_client.py:195-247 | the returned SQL always passes `_validate_sql`. When the chat raises, the reply is not a dict, or an entry is a truthy non-string, the result is the fallback query with the caught error in the trace. A falsy entry reads as `""`. On success the result is the model's trimmed SQL with its answer or "Sorgu üretildi."; on a rejected SQL, the fallback query with the reason |
| GraphClient.NonStringEntries | ui/graph_client.py:204-205 | a truthy non-string `sql` raises `'<type>' object has no attribute 'strip'`; a falsy one reads as `""`, which `_validate_sql` rejects as "Empty SQL" |
| SqlValidation.DecimalRun | SQLValidation.py:24 | greedy `\d*` over Unicode decimal digits (category Nd): all of the run is digits and the next character is not |
| SqlValidation.AsciiDecimal | SQLValidation.py:24-28 | the ASCII digits are decimal digits, and `int()` reads each as its usual value |
| SqlValidation.DecimalsValueNatToString | SQLValidation.py:28 | `int(str(n)) == n` for every natural number |
| SqlValidation.ArabicIndicLimit | SQLValidation.py:24-28 | `LIMIT ١٠` matches the limit pattern and its value reads as 10 |
| SqlValidation.LimitFrom | SQLValidation.py:24 | the leftmost position from a given index where `LIMIT\s+(\d+)` matches, or none |
| SqlValidation.TableRun | SQLValidation.py:32 | greedy `[A-Z_]*`: all of the run is in the class and the next character is not |
| SqlValidation.FromAt | SQLValidation.py:32 | a `FROM\s+([A-Z_]+)` match starts with `FROM`, captures a name that stands just before the match end |
| SqlValidation.TablesFrom | SQLValidation.py:32 | every name `findall` captures is a non-empty run of `[A-Z_]` |
| SqlValidation.FirstDisallowed | SQLValidation.py:33-35 | none exactly when every captured name is allowed; otherwise the first name outside the allow-set |
| SqlValidation.ValidationNode | SQLValidation.py:12-40 | one log line always; safe exactly when the line is the OK line; denied exactly when it is a deny line |
| SqlValidation.ValidationOutcomes | SQLValidation.py:16-40 | the query is safe exactly when all five conditions hold; each denial names the first failing check, a table denial the first table outside the allow-set |
| SqlValidation.OnlyFirstLimitCounts | SQLValidation.py:24-29 | only the first LIMIT value is compared with 500; a larger later one is not looked at |
| SqlValidation.Merge | VerifyAccess.py:5-10 | the reducer appends `logs`, and the request keys keep their values |
| SqlValidation.Next | SQLValidation.py:65-87 | every edge leads closer to the exits, so the gate has no cycle |
| SqlValidation.RunFrom | SQLValidation.py:65-87 | a run starts at the node it is started from |
| SqlValidation.GateOutcome | SQLValidation.py:65-87 | denied requests leave at unauthorized_exit; authorised ones are validated and leave at process_start if safe, at sql_rejected otherwise; logs are appended in node order |
| SqlValidation.ValidationOnlyAfterAuth | SQLValidation.py:67-74 | validation runs exactly when access control authorised the request |
| SqlValidation.ProcessStartIffSafe | SQLValidation.py:65-87 | process_start is reached exactly when the user is authorised and the query is safe |
| SqlValidation.GateEnds | SQLValidation.py:50-63 | every run ends at an exit node with a response |
| VerifyAccess.AllowedActions | VerifyAccess.py:58 | the actions the matrix lists for the role and resource; an unknown role or resource gives none |
| VerifyAccess.AccessControl | VerifyAccess.py:42-74 | one log line always; an unknown user gets a SECURITY ALERT; a known user is authorised exactly when the action is in the matrix entry, with SUCCESS or FAILURE |
| VerifyAccess.AuthRouter | VerifyAccess.py:83-91 | process_start exactly when `auth_status` is true, else unauthorized_exit |
| VerifyAccess.AnalystRunsAnalytics | VerifyAccess.py:13-39 | u_002 may run analytics on financial reports |
| VerifyAccess.ManagerDeniedCustomerDetails | VerifyAccess.py:13-39 | u_001 may not view customer details |
| VerifyAccess.MissingActionDenied | VerifyAccess.py:44-60 | a request without an action is denied without raising, whoever sends it |
| VerifyAccess.Apply | VerifyAccess.py:5-10 | merging a node's update appends its log lines and keeps the request keys |
| VerifyAccess.InvokeOutcome | VerifyAccess.py:97-118 | a run adds access control's one line, ends at process_start exactly when it is a success, and otherwise at unauthorized_exit with the denial |
| VerifyAccess.LogsAppendOnly | VerifyAccess.py:9 | the logs a run starts with are a prefix of those it ends with, one line longer |
| VerifyAccess.ProcessStartDoublesLogs | VerifyAccess.py:101 | as written, an authorised run ends with its whole log list twice over |
| VerifyAccess.AnalystRunLogs | VerifyAccess.py:101 | u_002's authorised request on fresh logs ends with one line with the pass-through and two lines as written |
| CoreAgent.CheckPermission | core/nodes/permission.py:3-6 | only "admin" and "analyst" keep `sql_error`; any other role sets "Unauthorized"; one log entry; nothing else changes |
| CoreAgent.RoleMatchIsExact | core/nodes/permission.py:4 | role membership is exact: "Admin" is refused |
| CoreAgent.Formatted | core/nodes/format_response.py:4-8 | status "error" exactly when `sql_error` is truthy; the answer is that error or "OK"; logs are the state's logs |
| CoreAgent.StateDict.constructor | core/nodes/format_response.py:3 | the dictionary handed to the node starts out holding the given state |
| CoreAgent.StateDict.FormatResponse | core/nodes/format_response.py:3-9 | the node writes `final_response` into the dictionary in place and returns it with one log entry |
| CoreAgent.Merge | core/state.py:21 | the reducer appends `logs`, and every other returned key overwrites |
| CoreAgent.PipelineOutcome | core/graph.py:6-13 | every request is formatted, a denied one included, with status "error" exactly when the role is refused or an error was already recorded, and two log entries in order |
| BuildDuckdb.ForeignKeyCollapses | scripts/build_duckdb_from_sql.py:21-26 | the rule matches `INT FOREIGN KEY REFERENCES T(c)` in any case, after a word boundary, at its first letter, with the replacement `INT` and the match ending after `)` |
| BuildDuckdb.ForeignKeyReplaced | scripts/build_duckdb_from_sql.py:21-26 | in a text where that clause is the only match, `re.sub` replaces it by `INT` and keeps the text before and after it |
| BuildDuckdb.SubOneMatch | scripts/build_duckdb_from_sql.py:21-32 | when a rule matches at one position and nowhere before it or after the match, `re.sub` gives the text before, the replacement, and the text after |
| BuildDuckdb.CreateQualifies | scripts/build_duckdb_from_sql.py:29-30 | the rule matches a line-initial `CREATE TABLE name (` at the line start, indentation included, with the replacement `CREATE TABLE bank.name (` |
| BuildDuckdb.CreateReplaced | scripts/build_duckdb_from_sql.py:29-30 | in a text where that header is the only match, `re.sub` rewrites it to `CREATE TABLE bank.name (` and keeps the rest |
| BuildDuckdb.CreateSkipsDotted | scripts/build_duckdb_from_sql.py:29-30 | an already dotted `CREATE TABLE a.b (` is left alone |
| BuildDuckdb.InsertQualifies | scripts/build_duckdb_from_sql.py:31-32 | the rule matches a line-initial `INSERT INTO name` at the line start, indentation included, with the replacement `INSERT INTO bank.name` |
| BuildDuckdb.InsertReplaced | scripts/build_duckdb_from_sql.py:31-32 | in a text where that target is the only match, `re.sub` rewrites it to `INSERT INTO bank.name` and keeps the rest |
| BuildDuckdb.InsertRequalifies | scripts/build_duckdb_from_sql.py:31-32 | the rewrite is not idempotent: `INSERT INTO bank.x` becomes `INSERT INTO bank.bank.x` |
| BuildDuckdb.SubIdentity | scripts/build_duckdb_from_sql.py:21-32 | a rule that matches nowhere leaves the text as it is |
| BuildDuckdb.Hits | scripts/build_duckdb_from_sql.py:21-32 | the rule's match at each position of the original text; every match ends after it starts |
| BuildDuckdb.SplitStatementsShape | scripts/build_duckdb_from_sql.py:36-39 | the statements are non-empty, trimmed and free of `;`, and there are at most as many as `;` plus one |
| BuildDuckdb.SplitStatementsConcat | scripts/build_duckdb_from_sql.py:36-39 | statements keep script order: those before a `;` come first |
| BuildDuckdb.SplitJoinStatements | scripts/build_duckdb_from_sql.py:36-39 | joining trimmed, non-empty, semicolon-free statements with `;` and splitting gives them back |
| BuildDuckdb.KeptShape | scripts/build_duckdb_from_sql.py:38-39 | each kept piece is non-empty, has no surrounding whitespace and no `;` |
| Text.SplitJoin | scripts/build_duckdb_from_sql.py:38 | joining the pieces of `str.split(c)` with `c` gives the text back |
| Text.SplitPiecesFree | scripts/build_duckdb_from_sql.py:38 | no piece of `str.split(c)` contains `c` |
| Text.StripIdempotent | src/text2sql/nodes/router.py:17-18 | `str.strip()` applied twice equals once |

## Left out

- The langgraph runtime (`StateGraph`, `compile`, `invoke`, schema filtering of returned keys) is replaced by explicit drivers over each edge table. The `operator.add` reducers become sequence append.
- The trace id of `run` (a random UUID) is a parameter of `Graph.App`. The timestamps of `VerifyAccess.py:46` and `SQLValidation.py:14` are left out: a log line is its tag and text.
- `core.logging.log` is not part of this model. Its record is `CoreAgent.LogEntry`, holding only the message.
- A missing key and a key explicitly set to `None` are the same `None` in `State.Snapshot`. Python tells them apart. For example, `state.get("entities", {})` (src/text2sql/nodes/router.py:21) returns an explicit `None` rather than the default, and `state.get(k, "")` at src/text2sql/nodes/sql_gen.py:6 and SQLValidation.py:13 returns it too, so those nodes raise when they call `lower()` or `strip()` on it. The orchestrator's `run` (src/text2sql/app.py:11-17) sets only `provided_sql` to an explicit `None`, and the one node that reads that key (src/text2sql/nodes/router.py:18) treats `None` and a missing key alike.
- Floating-point confidences become integer hundredths, which is exact for every constant used.
- PyRepr.ReprPlain: requires every character to be printable by the model's `IsPrintable`. That predicate follows `str.isprintable` over the categories Cc, Cf, Co, Zl, Zp and Zs of Unicode 15.0. Unassigned code points (category Cn, including the noncharacters U+FFFE and U+FFFF) count as printable here. Python escapes them, so for them the model's `repr` writes the character raw.
- PyRepr.EscapeChar: the same gap. An unassigned code point is copied raw where Python writes `\x`, `\u` or `\U` with its hex digits. Every other character is escaped as Python escapes it.
- Python's `\w`, `\b`, `lower()`, `upper()` and `re.IGNORECASE` are approximated on ASCII letters, digits and `_`. Turkish letters such as "ş" and "ı" are not word characters here, and they are not case-mapped. Whitespace (`\s`, `str.strip`) follows Python's `isspace` set. `\d` and `int()` at SQLValidation.py:24-28 are not approximated: the model reads every decimal digit of Unicode 15.0 (category Nd), in any script.
- SqlValidation.LimitValue: reads a digit run of any length. Since Python 3.11, `int()` raises `ValueError` on more than 4300 digits, and `sql_validation_node` would then raise instead of returning a log line.
- `ui/graph_client.py` calls the network and reads the environment and files. `_build_messages`, `_load_allowlist` and `_allowed_columns` (prompt text, file reads) are not modelled. In `_openrouter_chat`, the HTTP exchange is a parameter (a reply's message content, or the error it raised). `text2sql` calls `_build_messages` first, inside the same `try` (ui/graph_client.py:199-200). If reading the allowlist file fails there, the source catches that error like a chat error and reports it, before `_openrouter_chat` checks the API key (ui/graph_client.py:143). GraphClient.Text2Sql has no such step: with an empty key it always reports the missing-key message.
- Environment variables are parameters of `GraphClient.Text2Sql`.
- `json.loads` is an arbitrary function parameter: any text to a value or an error. A value is reduced to what the client reads from it. An object keeps its `sql` and `answer` entries as a string, a falsy value of any kind, or a truthy non-string with its type name. Any other value keeps only its type name. Only the scanner's slice and the order of attempts are proved about the parse itself.
- GraphClient.Text2Sql: the debug-only trace keys `openrouter_id` and `usage` are not modelled.
- The text of exception messages in `str(e)` is only as precise as the parameters that carry it.
- `main()` of `scripts/build_duckdb_from_sql.py`, DuckDB connections and file reads are I/O and are not modelled.
- BuildDuckdb.ForeignKeyCollapses: stated for keywords spelled with single spaces. The matcher itself accepts any `\s+` run, but this lemma does not cover wider runs. The same holds for BuildDuckdb.ForeignKeyReplaced.
- BuildDuckdb.ForeignKeyReplaced, BuildDuckdb.CreateReplaced and BuildDuckdb.InsertReplaced: stated for a text with a single match. A text with several matches is covered only by the general `Sub` definition.
- BuildDuckdb.CreateQualifies: stated for keywords spelled with single spaces after any indentation. The matcher accepts any `\s+` run. The same holds for BuildDuckdb.CreateReplaced.
- BuildDuckdb.InsertQualifies: stated for keywords spelled with single spaces after any indentation. The matcher accepts any `\s+` run. The same holds for BuildDuckdb.InsertReplaced.
- SqlGenNode.Update: requires a first candidate table. The source raises `IndexError` otherwise, and the graph models that as a crashed run (`Graph.SqlGenStep`). `Graph.RunNeverCrashes` proves metadata always prevents it.
- `VerifyAccess.py` registers no edge out of `process_start`. The model's run ends there, as if the edge to END existed.
- `SQLValidation.py` references `GraphState` and `access_control_node` without importing them. The model takes `access_control_node` from `VerifyAccess.py`. It extends that file's `GraphState` (VerifyAccess.py:5-10) with the two keys the gate reads and writes, `sql_query` and `is_sql_safe`. `SqlValidation.GateState` holds them. Under `VerifyAccess.py`'s schema alone, langgraph would drop `is_sql_safe` from `sql_validation_node`'s update, and the router at SQLValidation.py:78 would fail on `s["is_sql_safe"]`. The extended schema is the one reading under which the gate can run.
- `ui/app.py`, `ui/db.py`, `scripts/smoke_db.py`, `scripts/validate_db.py` and `scripts/export_metadata.py` (UI and database I/O) are not part of this model.
- Concurrency and the aliasing of one dictionary by several callers are not modelled. Each node gets the dictionary alone.

## Findings

| source | as written | input that shows it | evidently intended | confidence | as-written member | corrected member |
|---|---|---|---|---|---|---|
| VerifyAccess.py:101 | `process_start` is `lambda state: state`. Its returned dict holds `logs`, and the `operator.add` reducer (line 9) appends that whole list to itself. | u_002, `run_analytics` on `financial_reports`, with empty logs: the run ends with the SUCCESS line twice | a pass-through node that adds nothing, so the run ends with one line | not executed | VerifyAccess.InvokeAsWritten (VerifyAccess.ProcessStartDoublesLogs, VerifyAccess.AnalystRunLogs) | VerifyAccess.Invoke (VerifyAccess.InvokeOutcome, VerifyAccess.LogsAppendOnly) |

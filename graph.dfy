/**
 * The orchestrator graph (src/text2sql/orchestrator/graph.py) and the application
 * entry point (src/text2sql/app.py): the seven nodes, the edge table with its
 * conditional edges, and a driver that follows it from the entry node to END.
 */
module Graph {
  import opened State
  import opened Routes
  import RouterNode
  import PolicyNode
  import MetadataNode
  import SqlGenNode
  import SqlValidateNode
  import ExecuteNode
  import AnswerNode

  datatype Node = Router | Policy | Metadata | SqlGen | Validate | Execute | Answer

  /** Where an edge leads: a node, or the end of the run. */
  datatype Target = At(node: Node) | End

  /** How a run ends: with the final state, or with the node that raised. */
  datatype Outcome = Done(state: Snapshot, path: seq<Node>) | Crashed(path: seq<Node>)

  const Entry := Router

  /** The path maps of the conditional edges, label to node. */
  const RouterEdges: map<string, Node> := map["refuse" := Answer, "clarify" := Answer, "policy" := Policy]
  const PolicyEdges: map<string, Node> :=
    map["refuse" := Answer, "metadata" := Metadata, "validate" := Validate, "answer" := Answer]
  const MetadataEdges: map<string, Node> := map["answer" := Answer, "sql_gen" := SqlGen]
  const ValidateEdges: map<string, Node> := map["execute" := Execute, "answer" := Answer]

  /** The edge taken out of `n` once it has run and left the state `s`. */
  function Next(n: Node, s: Snapshot): Target {
    match n
    case Router => At(RouterEdges[RouteFromRouter(s)])
    case Policy => At(PolicyEdges[RouteAfterPolicy(s)])
    case Metadata => At(MetadataEdges[RouteAfterMetadata(s)])
    case SqlGen => At(Validate)
    case Validate => At(ValidateEdges[RouteAfterValidate(s)])
    case Execute => At(Answer)
    case Answer => End
  }

  function RouterStep(s: Snapshot): Option<Snapshot> { Some(RouterNode.Classify(s)) }
  function PolicyStep(s: Snapshot): Option<Snapshot> { Some(PolicyNode.Evaluate(s)) }
  function MetadataStep(s: Snapshot): Option<Snapshot> { Some(MetadataNode.Resolve(s)) }
  /** sql_gen raises (it indexes an empty list) when there is no candidate table. */
  function SqlGenStep(s: Snapshot): Option<Snapshot> {
    if SqlGenNode.HasTable(s) then Some(SqlGenNode.Generate(s)) else None
  }
  function ValidateStep(s: Snapshot): Option<Snapshot> { Some(SqlValidateNode.Validate(s)) }
  function ExecuteStep(s: Snapshot): Option<Snapshot> { Some(ExecuteNode.Execute(s)) }
  function AnswerStep(s: Snapshot): Option<Snapshot> { Some(AnswerNode.Answer(s)) }

  /** The function registered under each node name. */
  function NodeFunction(n: Node): Snapshot -> Option<Snapshot> {
    match n
    case Router => RouterStep
    case Policy => PolicyStep
    case Metadata => MetadataStep
    case SqlGen => SqlGenStep
    case Validate => ValidateStep
    case Execute => ExecuteStep
    case Answer => AnswerStep
  }

  /** Running one node: `None` when it raises. */
  function Step(n: Node, s: Snapshot): Option<Snapshot> {
    NodeFunction(n)(s)
  }

  /** The number of nodes any run from `n` can still visit after `n`. */
  function Rank(n: Node): nat {
    match n
    case Router => 6
    case Policy => 5
    case Metadata => 4
    case SqlGen => 3
    case Validate => 2
    case Execute => 1
    case Answer => 0
  }

  /** Every edge leads to a node of lower rank, so the graph has no cycle. */
  lemma NextDecreases(n: Node, s: Snapshot)
    ensures Next(n, s).At? ==> Rank(Next(n, s).node) < Rank(n)
    ensures Next(n, s).End? <==> n == Answer
  {
  }

  /** How a node runs on a state: `None` when it raises. */
  type Stepper = (Node, Snapshot) -> Option<Snapshot>

  /** The run from `n` on `s`, running each node with `step` and following the edge table until END. */
  function RunWith(step: Stepper, n: Node, s: Snapshot): Outcome
    decreases Rank(n), 1
  {
    var r := step(n, s);
    if r.None? then Crashed([n]) else ContinueWith(step, n, r.value)
  }

  /** The rest of the run once `n` has run and left the state `s`. */
  function ContinueWith(step: Stepper, n: Node, s: Snapshot): Outcome
    decreases Rank(n), 0
  {
    var t := Next(n, s);
    NextDecreases(n, s);
    if t.End? then Done(s, [n]) else Prepend(n, RunWith(step, t.node, s))
  }

  /** The run of the orchestrator's own nodes from `n`. */
  function Run(n: Node, s: Snapshot): Outcome {
    RunWith(Step, n, s)
  }

  function Prepend(n: Node, o: Outcome): Outcome {
    match o
    case Done(s, p) => Done(s, [n] + p)
    case Crashed(p) => Crashed([n] + p)
  }

  function PathOf(o: Outcome): seq<Node> {
    match o
    case Done(_, p) => p
    case Crashed(p) => p
  }

  /** `app.invoke(state)`. */
  function Invoke(s: Snapshot): Outcome {
    Run(Entry, s)
  }

  /** `run(user_message, user_role, sql)`; the trace id (a random UUID in the source) is a parameter. */
  function App(message: string, role: string, sql: Option<string>, traceId: string): Outcome {
    Invoke(Initial(message, role, sql, traceId))
  }

  // ---------------------------------------------------------------------------
  // The shape of every run

  /** Nodes along the path strictly fall in rank: no node is visited twice. */
  predicate Descending(p: seq<Node>) {
    forall i, j :: 0 <= i < j < |p| ==> Rank(p[i]) > Rank(p[j])
  }

  lemma DescendingCons(n: Node, q: seq<Node>)
    requires Descending(q) && |q| > 0 && Rank(n) > Rank(q[0])
    ensures Descending([n] + q)
  {
    forall i, j | 0 <= i < j < |[n] + q|
      ensures Rank(([n] + q)[i]) > Rank(([n] + q)[j])
    {
      if i == 0 && j > 1 {
        assert Rank(q[0]) > Rank(q[j - 1]);
      }
    }
  }

  /**
   * Whatever the nodes do, a run from `n` starts at `n`, never revisits a node and
   * visits at most `Rank(n) + 1` nodes.
   */
  lemma {:induction false} RunShape(step: Stepper, n: Node, s: Snapshot)
    ensures var p := PathOf(RunWith(step, n, s));
      |p| > 0 && p[0] == n && Descending(p) && |p| <= Rank(n) + 1
    decreases Rank(n)
  {
    var r := step(n, s);
    if r.Some? {
      var t := Next(n, r.value);
      NextDecreases(n, r.value);
      if t.At? {
        var o := RunWith(step, t.node, r.value);
        RunShape(step, t.node, r.value);
        assert PathOf(RunWith(step, n, s)) == [n] + PathOf(o);
        DescendingCons(n, PathOf(o));
      }
    }
  }

  /** Whatever the nodes do, a run that finishes does so at answer, the only node whose edge is END. */
  lemma {:induction false} RunEndsAtAnswer(step: Stepper, n: Node, s: Snapshot)
    ensures RunWith(step, n, s).Done? ==> Last(RunWith(step, n, s).path) == Answer
    decreases Rank(n)
  {
    var r := step(n, s);
    if r.Some? {
      var t := Next(n, r.value);
      NextDecreases(n, r.value);
      if t.At? {
        var o := RunWith(step, t.node, r.value);
        RunEndsAtAnswer(step, t.node, r.value);
        assert RunWith(step, n, s) == Prepend(n, o);
        if o.Done? {
          assert Last([n] + o.path) == Last(o.path);
        }
      } else {
        assert RunWith(step, n, s) == Done(r.value, [n]);
      }
    }
  }

  /** The last node of a path; `Answer` for an empty one. */
  function Last(p: seq<Node>): Node {
    if |p| == 0 then Answer else p[|p| - 1]
  }

  /** sql_gen can only raise on an empty candidate list, and metadata, its only predecessor, fills it. */
  lemma {:induction false} RunNeverCrashes(n: Node, s: Snapshot)
    requires n == SqlGen ==> SqlGenNode.HasTable(s)
    ensures Run(n, s).Done?
    decreases Rank(n)
  {
    StepDefined(n, s);
    var r := Step(n, s).value;
    RunSteps([], n, s, r);
    var t := Next(n, r);
    NextDecreases(n, r);
    if t.At? {
      if t.node == SqlGen {
        SqlGenEntry(n, r);
        MetadataNode.ResolveNonEmpty(s);
      }
      RunNeverCrashes(t.node, r);
      assert [] + [n] == [n];
    }
  }

  /** Only sql_gen can raise, and only without a candidate table. */
  lemma StepDefined(n: Node, s: Snapshot)
    requires n == SqlGen ==> SqlGenNode.HasTable(s)
    ensures Step(n, s).Some?
    ensures n == Metadata ==> Step(n, s) == Some(MetadataNode.Resolve(s))
  {
  }

  /**
   * Every run of the application terminates at END after visiting the router first
   * and answer exactly once, last, with at most seven nodes and none twice.
   */
  lemma InvokeShape(s: Snapshot)
    ensures Invoke(s).Done?
    ensures var p := Invoke(s).path;
      0 < |p| <= 7 && p[0] == Router && p[|p| - 1] == Answer && Descending(p)
      && forall i :: 0 <= i < |p| - 1 ==> p[i] != Answer
  {
    RunShape(Step, Entry, s);
    RunEndsAtAnswer(Step, Entry, s);
    RunNeverCrashes(Entry, s);
    var p := Invoke(s).path;
    forall i | 0 <= i < |p| - 1
      ensures p[i] != Answer
    {
      assert Rank(p[i]) > Rank(p[|p| - 1]);
    }
  }

  // ---------------------------------------------------------------------------
  // The edges

  /** From the router, "refuse" and "clarify" go straight to answer, skipping policy. */
  lemma RouterEdge(s: Snapshot)
    ensures Next(Router, s) == At(Answer) <==> RouteFromRouter(s) == "refuse" || RouteFromRouter(s) == "clarify"
    ensures Next(Router, s) == At(Policy) <==> RouteFromRouter(s) == "policy"
  {
  }

  /** Out of policy, "metadata" and "validate" lead to those nodes, "refuse" and "answer" to answer. */
  lemma PolicyEdge(s: Snapshot)
    ensures Next(Policy, s) == At(Metadata) <==> RouteAfterPolicy(s) == "metadata"
    ensures Next(Policy, s) == At(Validate) <==> RouteAfterPolicy(s) == "validate"
    ensures Next(Policy, s) == At(Answer) <==> RouteAfterPolicy(s) == "refuse" || RouteAfterPolicy(s) == "answer"
  {
  }

  /** Out of metadata, "answer" leads to answer and "sql_gen" to sql_gen. */
  lemma MetadataEdge(s: Snapshot)
    ensures Next(Metadata, s) == At(Answer) <==> RouteAfterMetadata(s) == "answer"
    ensures Next(Metadata, s) == At(SqlGen) <==> RouteAfterMetadata(s) == "sql_gen"
  {
  }

  /** Out of validate, "execute" leads to execute and "answer" to answer. */
  lemma ValidateEdge(s: Snapshot)
    ensures Next(Validate, s) == At(Execute) <==> RouteAfterValidate(s) == "execute"
    ensures Next(Validate, s) == At(Answer) <==> RouteAfterValidate(s) == "answer"
  {
  }

  /** sql_gen always goes on to validate, execute to answer, and answer ends the run. */
  lemma FixedEdges(s: Snapshot)
    ensures Next(SqlGen, s) == At(Validate) && Next(Execute, s) == At(Answer) && Next(Answer, s) == End
  {
  }

  /** execute is entered only from validate, and only when `sql_ok` is true. */
  lemma ExecuteEntry(n: Node, s: Snapshot)
    ensures Next(n, s) == At(Execute) <==> n == Validate && s.sqlOk == Some(true)
  {
    ValidateRouteIff(s);
  }

  /** sql_gen is entered only from metadata, and never for a metadata question. */
  lemma SqlGenEntry(n: Node, s: Snapshot)
    ensures Next(n, s) == At(SqlGen) <==> n == Metadata && s.intent != Some(AskMetadata)
  {
    MetadataRouteIff(s);
  }

  // ---------------------------------------------------------------------------
  // The paths through the graph

  /** A path through the graph: each node runs to the next state and its edge leads to the next node. */
  predicate Visits(step: Stepper, nodes: seq<Node>, states: seq<Snapshot>) {
    |nodes| > 0 && |states| == |nodes| + 1
    && (forall i :: 0 <= i < |nodes| ==> step(nodes[i], states[i]) == Some(states[i + 1]))
    && (forall i :: 0 <= i < |nodes| - 1 ==> Next(nodes[i], states[i + 1]) == At(nodes[i + 1]))
    && Next(nodes[|nodes| - 1], states[|nodes|]) == End
  }

  /** A run that follows such a path ends with its last state, having visited exactly its nodes. */
  lemma {:induction false} PathThrough(step: Stepper, nodes: seq<Node>, states: seq<Snapshot>)
    requires Visits(step, nodes, states)
    ensures RunWith(step, nodes[0], states[0]) == Done(states[|nodes|], nodes)
    decreases |nodes|
  {
    if |nodes| > 1 {
      var rest := nodes[1..];
      var later := states[1..];
      assert Visits(step, rest, later) by {
        forall i | 0 <= i < |rest|
          ensures step(rest[i], later[i]) == Some(later[i + 1])
        {
          assert step(nodes[i + 1], states[i + 1]) == Some(states[i + 2]);
        }
        forall i | 0 <= i < |rest| - 1
          ensures Next(rest[i], later[i + 1]) == At(rest[i + 1])
        {
          assert Next(nodes[i + 1], states[i + 2]) == At(nodes[i + 2]);
        }
      }
      PathThrough(step, rest, later);
      assert step(nodes[0], states[0]) == Some(states[1]);
      assert Next(nodes[0], states[1]) == At(nodes[1]);
      assert [nodes[0]] + rest == nodes;
    }
  }

  lemma StepRouter(s: Snapshot)
    ensures Step(Router, s) == Some(RouterNode.Classify(s))
  {
  }

  lemma StepPolicy(s: Snapshot)
    ensures Step(Policy, s) == Some(PolicyNode.Evaluate(s))
  {
  }

  lemma StepMetadata(s: Snapshot)
    ensures Step(Metadata, s) == Some(MetadataNode.Resolve(s))
  {
  }

  lemma StepSqlGen(s: Snapshot)
    ensures SqlGenNode.HasTable(s) ==> Step(SqlGen, s) == Some(SqlGenNode.Generate(s))
    ensures !SqlGenNode.HasTable(s) ==> Step(SqlGen, s) == None
  {
  }

  lemma StepValidate(s: Snapshot)
    ensures Step(Validate, s) == Some(SqlValidateNode.Validate(s))
  {
  }

  lemma StepExecute(s: Snapshot)
    ensures Step(Execute, s) == Some(ExecuteNode.Execute(s))
  {
  }

  lemma StepAnswer(s: Snapshot)
    ensures Step(Answer, s) == Some(AnswerNode.Answer(s))
  {
  }

  /** A node that runs and leaves by an edge to `m`: the run goes on from `m`. */
  lemma RunThen(n: Node, s: Snapshot, r: Snapshot, m: Node)
    requires Step(n, s) == Some(r) && Next(n, r) == At(m)
    ensures Run(n, s) == Prepend(n, Run(m, r))
  {
    assert Run(n, s) == ContinueWith(Step, n, r);
  }

  /** answer is the last node: it runs and the run ends with its state. */
  lemma RunAnswer(s: Snapshot)
    ensures Run(Answer, s) == Done(AnswerNode.Answer(s), [Answer])
  {
    StepAnswer(s);
    assert Run(Answer, s) == ContinueWith(Step, Answer, AnswerNode.Answer(s));
  }

  /** A run through two nodes, the second of which ends it. */
  lemma TwoSteps(step: Stepper, a: Node, b: Node, s: Snapshot, r: Snapshot, t: Snapshot)
    requires step(a, s) == Some(r) && Next(a, r) == At(b)
    requires step(b, r) == Some(t) && Next(b, t) == End
    ensures RunWith(step, a, s) == Done(t, [a, b])
  {
    assert RunWith(step, b, r) == Done(t, [b]);
  }

  /** A refusal or a clarification from the router is answered at once. */
  lemma ShortPath(s: Snapshot)
    requires RouteFromRouter(RouterNode.Classify(s)) != "policy"
    ensures Invoke(s) == Done(AnswerNode.Answer(RouterNode.Classify(s)), [Router, Answer])
  {
    var r := RouterNode.Classify(s);
    StepRouter(s);
    StepAnswer(r);
    RouterEdge(r);
    TwoSteps(Step, Router, Answer, s, r, AnswerNode.Answer(r));
  }

  // ---------------------------------------------------------------------------
  // The driver over the shared state

  /** Runs node `n` in place on the shared state; `ok` is false when the node raised. */
  method RunNode(n: Node, st: OrchestratorState) returns (ok: bool)
    modifies st
    ensures ok == Step(n, old(st.Snap())).Some?
    ensures ok ==> st.Snap() == Step(n, old(st.Snap())).value
  {
    ok := true;
    match n {
      case Router => RouterNode.Update(st);
      case Policy => PolicyNode.Update(st);
      case Metadata => MetadataNode.Update(st);
      case SqlGen =>
        if SqlGenNode.HasTable(st.Snap()) {
          SqlGenNode.Update(st);
        } else {
          ok := false;
        }
      case Validate => SqlValidateNode.Update(st);
      case Execute => ExecuteNode.Update(st);
      case Answer => AnswerNode.Update(st);
    }
  }

  /** The compiled graph's `invoke`: runs the nodes in place, following the edge table. */
  method InvokeInPlace(st: OrchestratorState) returns (path: seq<Node>, ok: bool)
    modifies st
    ensures ok ==> Invoke(old(st.Snap())) == Done(st.Snap(), path)
    ensures !ok ==> Invoke(old(st.Snap())) == Crashed(path)
  {
    ghost var start := st.Snap();
    var cur: Target := At(Entry);
    path := [];
    ok := true;
    while cur.At?
      invariant ok
      invariant cur.At? ==> Invoke(start) == PrependAll(path, Run(cur.node, st.Snap()))
      invariant cur.End? ==> Invoke(start) == Done(st.Snap(), path)
      decreases if cur.At? then Rank(cur.node) + 1 else 0
    {
      var n := cur.node;
      ghost var before := st.Snap();
      var stepped := RunNode(n, st);
      if !stepped {
        ok := false;
        RunCrashes(path, n, before);
        path := path + [n];
        return;
      }
      RunSteps(path, n, before, st.Snap());
      path := path + [n];
      cur := Next(n, st.Snap());
      NextDecreases(n, st.Snap());
    }
  }

  /** A node that raises ends the run there. */
  lemma RunCrashes(path: seq<Node>, n: Node, s: Snapshot)
    requires Step(n, s).None?
    ensures PrependAll(path, Run(n, s)) == Crashed(path + [n])
  {
  }

  /** A node that runs moves onto the path, and the run goes on along its edge. */
  lemma RunSteps(path: seq<Node>, n: Node, s: Snapshot, r: Snapshot)
    requires Step(n, s) == Some(r)
    ensures Next(n, r).At? ==> PrependAll(path, Run(n, s)) == PrependAll(path + [n], Run(Next(n, r).node, r))
    ensures Next(n, r).End? ==> PrependAll(path, Run(n, s)) == Done(r, path + [n])
  {
    assert Run(n, s) == ContinueWith(Step, n, r);
    if Next(n, r).At? {
      PrependAllPrepend(path, n, Run(Next(n, r).node, r));
    }
  }

  /** `path` followed by the nodes of `o`. */
  function PrependAll(path: seq<Node>, o: Outcome): Outcome {
    match o
    case Done(s, p) => Done(s, path + p)
    case Crashed(p) => Crashed(path + p)
  }

  /** Moving a node from the front of a run onto the path. */
  lemma PrependAllPrepend(path: seq<Node>, n: Node, o: Outcome)
    ensures PrependAll(path, Prepend(n, o)) == PrependAll(path + [n], o)
  {
    match o
    case Done(f, p) =>
      assert path + ([n] + p) == path + [n] + p;
    case Crashed(p) =>
      assert path + ([n] + p) == path + [n] + p;
  }
}

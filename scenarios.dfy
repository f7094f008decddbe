/**
 * The five routing scenarios of tests/test_routing_paths.py, followed end to end
 * through the orchestrator graph.
 *
 * Each message is written as the words and separators it is made of, so that what
 * the router's patterns find in it follows from facts about one piece at a time.
 * Each path through the graph is proved once for any state that the router and the
 * policy treat the same way; a scenario then only has to show that its request is one
 * of those states.
 *
 * The fifth scenario does not come out as the test expects: SQL handed in by the
 * caller is only kept in `provided_sql`, the validator reads only `sql`, and the
 * EXECUTE_SQL path never passes through the node that would set it.
 */
module Scenarios {
  import opened Text
  import opened State
  import opened SqlPatterns
  import opened PieceText
  import opened Routes
  import RouterNode
  import PolicyNode
  import MetadataNode
  import SqlGenNode
  import SqlValidateNode
  import ExecuteNode
  import AnswerNode
  import PyRepr
  import G = Graph

  const Manager := "manager"
  const Admin := "admin"

  // ---------------------------------------------------------------------------
  // Messages as the router sees them

  /** A piece that is none of the dangerous words, in any case. */
  predicate NotDangerous(p: string) {
    forall k :: 0 <= k < |DangerousWords| ==> !SameWordCI(p, DangerousWords[k])
  }

  predicate AllNotDangerous(ps: Pieces) {
    ps.Nil? || (NotDangerous(ps.head) && AllNotDangerous(ps.tail))
  }

  lemma {:induction false} AllNotDangerousApp(a: Pieces, b: Pieces)
    requires AllNotDangerous(a) && AllNotDangerous(b)
    ensures AllNotDangerous(App(a, b))
  {
    if a.Cons? {
      AllNotDangerousApp(a.tail, b);
    }
  }

  lemma {:induction false} NoDangerousPiece(ps: Pieces)
    requires AllNotDangerous(ps)
    ensures !HasAnyPiece(ps, DangerousWords)
  {
    if ps.Cons? {
      NoDangerousPiece(ps.tail);
    }
  }

  /** A text of pieces whose first and last characters are not spaces is its own strip. */
  lemma PlainStrip(ps: Pieces)
    requires ps.Cons? && ps.head != [] && !IsSpace(ps.head[0])
    requires Last(ps) != [] && !IsSpace(Last(ps)[|Last(ps)| - 1])
    ensures Strip(Concat(ps)) == Concat(ps) && LStrip(Concat(ps)) == Concat(ps)
  {
    ConcatEnds(ps);
    StripNoSpaceEnds(Concat(ps));
    LStripNoSpace(Concat(ps));
  }

  /** Well-split pieces none of which is a dangerous word spell no dangerous word. */
  lemma PlainNotDangerous(ps: Pieces)
    requires WellSplit(ps) && AllNotDangerous(ps)
    ensures !HasDangerousWord(Concat(ps))
  {
    assert forall k :: 0 <= k < |DangerousWords| ==> IsWord(DangerousWords[k]);
    NoDangerousPiece(ps);
    AnyWordInPieces(ps, DangerousWords);
  }

  /**
   * A message of well-split pieces that opens with a word other than `select`, ends
   * with a non-space and has no dangerous word is its own strip, is not pasted SQL
   * and is not dangerous.
   */
  lemma PlainMessage(ps: Pieces)
    requires WellSplit(ps) && ps.Cons? && IsWord(ps.head)
    requires Last(ps) != [] && !IsSpace(Last(ps)[|Last(ps)| - 1])
    requires !SameWordCI(ps.head, SelectKeyword) && AllNotDangerous(ps)
    ensures Strip(Concat(ps)) == Concat(ps)
    ensures !RouterNode.HasSql(Concat(ps)) && !RouterNode.IsDangerous(Concat(ps))
  {
    assert !IsSpace(ps.head[0]);
    PlainStrip(ps);
    StartsWithWordInPieces(ps, SelectKeyword);
    PlainNotDangerous(ps);
  }

  /** A lower-cased text cannot contain a keyword one of whose letters it lacks in either case. */
  lemma NoKeywordLetter(ps: Pieces, w: string, k: nat)
    requires k < |w| && 'a' <= w[k] <= 'z'
    requires NoChar(ps, w[k]) && NoChar(ps, UpperChar(w[k]))
    ensures !ContainsSubstr(Lower(Concat(ps)), w)
  {
    var m := Concat(ps);
    NoCharConcat(ps, w[k]);
    NoCharConcat(ps, UpperChar(w[k]));
    forall i | 0 <= i < |Lower(m)|
      ensures Lower(m)[i] != w[k]
    {
      assert Lower(m)[i] == LowerChar(m[i]);
    }
    NoSubstrWithoutChar(Lower(m), w, k);
  }

  /**
   * The cascade on a message that is neither pasted SQL nor dangerous, with no SQL
   * provided: a metadata keyword, then shortness, decide the intent.
   */
  lemma PlainDecide(m: string)
    requires !RouterNode.HasSql(m) && !RouterNode.IsDangerous(m)
    ensures RouterNode.HasMetaKeyword(m) ==>
      RouterNode.Decide(m, "") == RouterNode.Decision(AskMetadata, 80, false, "", false)
    ensures !RouterNode.HasMetaKeyword(m) && RouterNode.IsTooShort(m) ==>
      RouterNode.Decide(m, "") == RouterNode.Decision(Clarify, 40, true, RouterNode.ClarifyQuestion, false)
    ensures !RouterNode.HasMetaKeyword(m) && !RouterNode.IsTooShort(m) ==>
      RouterNode.Decide(m, "") == RouterNode.Decision(GenerateSql, 70, false, "", false)
  {
  }

  /** Provided SQL without a dangerous word decides EXECUTE_SQL, whatever the message. */
  lemma ProvidedDecide(m: string, p: string)
    requires p != "" && !RouterNode.IsDangerous(p)
    ensures RouterNode.Decide(m, p) == RouterNode.Decision(ExecuteSql, 75, false, "", false)
  {
  }

  /** "Hangi tablolar var?" */
  const MetaMessage := "Hangi tablolar var?"

  function MetaPieces(): Pieces {
    Cons("Hangi", Cons(" ", Cons("tablolar", Cons(" ", Cons("var", Cons("?", Nil))))))
  }

  lemma MetaPiecesText()
    ensures Concat(MetaPieces()) == MetaMessage && Last(MetaPieces()) == "?"
  {
  }

  lemma MetaPiecesSplit()
    ensures WellSplit(MetaPieces())
  {
  }

  lemma MetaPiecesPlain()
    ensures AllNotDangerous(MetaPieces()) && !SameWordCI("Hangi", SelectKeyword)
  {
  }

  /** The lower-cased schema question holds the keyword "tablolar". */
  lemma MetaKeyword()
    ensures RouterNode.HasMetaKeyword(MetaMessage)
  {
    AnswerNode.LowerWordIn("Hangi ", "tablolar", " var?");
    assert "Hangi " + "tablolar" + " var?" == MetaMessage;
    assert RouterNode.MetaKeywords[1] == "tablolar";
  }

  /** The schema question is a metadata request. */
  lemma MetaDecision()
    ensures Strip(MetaMessage) == MetaMessage
    ensures RouterNode.Decide(MetaMessage, "") == RouterNode.Decision(AskMetadata, 80, false, "", false)
  {
    MetaPiecesText();
    MetaPiecesSplit();
    MetaPiecesPlain();
    PlainMessage(MetaPieces());
    MetaKeyword();
    PlainDecide(MetaMessage);
  }

  /** "Son 7 günde satışları getir"; `ş`, `ı` and `ü` are not ASCII word characters. */
  const SalesHeadText := "Son 7 günde "
  const SalesTailText := "satışları getir"
  const SalesMessage := SalesHeadText + SalesTailText

  function SalesHead(): Pieces {
    Cons("Son", Cons(" ", Cons("7", Cons(" ", Cons("g", Cons("ü", Cons("nde", Cons(" ", Nil))))))))
  }

  function SalesTail(): Pieces {
    Cons("sat", Cons("ış", Cons("lar", Cons("ı", Cons(" ", Cons("getir", Nil))))))
  }

  /** Both halves in one list. */
  function SalesPieces(): Pieces {
    Cons("Son", Cons(" ", Cons("7", Cons(" ", Cons("g", Cons("ü", Cons("nde", Cons(" ",
      Cons("sat", Cons("ış", Cons("lar", Cons("ı", Cons(" ", Cons("getir", Nil))))))))))))))
  }

  lemma SalesHalves()
    ensures Concat(SalesHead()) == SalesHeadText && Concat(SalesTail()) == SalesTailText
  {
  }

  lemma SalesPiecesText()
    ensures Concat(SalesPieces()) == SalesMessage
  {
    SalesHalves();
    assert SalesPieces() == App(SalesHead(), SalesTail());
    ConcatApp(SalesHead(), SalesTail());
  }

  /** Letters the sales request lacks in both cases. */
  lemma SalesLacksH()
    ensures NoChar(SalesPieces(), 'h') && NoChar(SalesPieces(), 'H')
  {
  }

  lemma SalesLacksB()
    ensures NoChar(SalesPieces(), 'b') && NoChar(SalesPieces(), 'B')
  {
  }

  lemma SalesLacksK()
    ensures NoChar(SalesPieces(), 'k') && NoChar(SalesPieces(), 'K')
  {
  }

  lemma SalesLacksC()
    ensures NoChar(SalesPieces(), 'c') && NoChar(SalesPieces(), 'C')
  {
  }

  lemma SalesLacksM()
    ensures NoChar(SalesPieces(), 'm') && NoChar(SalesPieces(), 'M')
  {
  }

  lemma SalesHalvesLack()
    ensures NoChar(SalesHead(), 'l') && NoChar(SalesHead(), 'L')
    ensures NoChar(SalesTail(), 'n') && NoChar(SalesTail(), 'N')
  {
  }

  lemma SalesPiecesSplit()
    ensures WellSplit(SalesPieces()) && Last(SalesPieces()) == "getir"
  {
  }

  lemma SalesHeadPlain()
    ensures AllNotDangerous(SalesHead())
  {
  }

  lemma SalesTailPlain()
    ensures AllNotDangerous(SalesTail())
  {
  }

  lemma SalesPiecesPlain()
    ensures AllNotDangerous(SalesPieces()) && !SameWordCI("Son", SelectKeyword)
  {
    SalesHeadPlain();
    SalesTailPlain();
    AllNotDangerousApp(SalesHead(), SalesTail());
    assert SalesPieces() == App(SalesHead(), SalesTail());
  }

  /** "alan" is in neither half, and no occurrence can straddle the space between them. */
  lemma SalesNoAlan()
    ensures !ContainsSubstr(Lower(SalesMessage), "alan")
  {
    SalesHalves();
    SalesHalvesLack();
    LowerConcat(SalesHeadText, SalesTailText);
    NoKeywordLetter(SalesHead(), "alan", 1);
    NoKeywordLetter(SalesTail(), "alan", 3);
    assert Lower(SalesHeadText)[|SalesHeadText| - 1] == ' ';
    ContainsSubstrConcat(Lower(SalesHeadText), Lower(SalesTailText), "alan");
  }

  /** The lower-cased sales request holds no metadata keyword. */
  lemma SalesNoKeyword()
    ensures !RouterNode.HasMetaKeyword(SalesMessage)
  {
    var ps := SalesPieces();
    SalesPiecesText();
    SalesLacksH();
    SalesLacksB();
    SalesLacksK();
    SalesLacksC();
    SalesLacksM();
    var kws := RouterNode.MetaKeywords;
    forall k | 0 <= k < |kws|
      ensures !ContainsSubstr(Lower(SalesMessage), kws[k])
    {
      if k == 0 || k == 2 || k == 6 {
        NoKeywordLetter(ps, kws[k], 0);
      } else if k == 1 || k == 4 || k == 7 {
        NoKeywordLetter(ps, kws[k], 2);
      } else if k == 3 {
        NoKeywordLetter(ps, kws[k], 1);
      } else {
        SalesNoAlan();
      }
    }
  }

  /** The lower-cased sales request mentions "son 7", which picks the seven-day template. */
  lemma SalesRecent()
    ensures ContainsSubstr(Lower(SalesMessage), SqlGenNode.RecentMarker)
  {
    var rest := " günde " + SalesTailText;
    assert Lower("Son 7") == "son 7";
    assert SalesMessage == "Son 7" + rest;
    LowerConcat("Son 7", rest);
    ContainsSubstrMiddle("", "son 7", Lower(rest));
    assert "" + "son 7" + Lower(rest) == Lower(SalesMessage);
  }

  /** The sales request is a request to generate SQL. */
  lemma SalesDecision()
    ensures Strip(SalesMessage) == SalesMessage
    ensures RouterNode.Decide(SalesMessage, "") == RouterNode.Decision(GenerateSql, 70, false, "", false)
  {
    SalesPiecesText();
    SalesPiecesSplit();
    SalesPiecesPlain();
    PlainMessage(SalesPieces());
    SalesNoKeyword();
    assert |SalesMessage| >= 3 && SalesMessage !in RouterNode.AmbiguousMessages;
    PlainDecide(SalesMessage);
  }

  /** "DROP TABLE satislar" */
  const DropMessage := "DROP TABLE satislar"

  function DropPieces(): Pieces {
    Cons("DROP", Cons(" ", Cons("TABLE", Cons(" ", Cons("satislar", Nil)))))
  }

  lemma DropPiecesFacts()
    ensures Concat(DropPieces()) == DropMessage && WellSplit(DropPieces())
    ensures Last(DropPieces()) == "satislar" && !SameWordCI("DROP", SelectKeyword)
    ensures HasPiece(DropPieces(), DangerousWords[0])
  {
  }

  /** The drop request opens with a dangerous word, which outranks the word "table". */
  lemma DropDecision()
    ensures Strip(DropMessage) == DropMessage
    ensures RouterNode.Decide(DropMessage, "") == RouterNode.Decision(Refuse, 95, false, "", false)
  {
    var ps := DropPieces();
    DropPiecesFacts();
    ConcatEnds(ps);
    StripNoSpaceEnds(DropMessage);
    LStripNoSpace(DropMessage);
    StartsWithWordInPieces(ps, SelectKeyword);
    WordInPieces(ps, DangerousWords[0]);
  }

  /** "?" */
  const QuestionMark := "?"

  /** A lone question mark matches no earlier rule and is too short. */
  lemma QuestionDecision()
    ensures Strip(QuestionMark) == QuestionMark
    ensures RouterNode.Decide(QuestionMark, "")
         == RouterNode.Decision(Clarify, 40, true, RouterNode.ClarifyQuestion, false)
  {
    forall k | 0 <= k < |DangerousWords|
      ensures !ContainsWordCI(QuestionMark, DangerousWords[k])
    {
      NoWordInNonWordText(QuestionMark, DangerousWords[k]);
    }
    forall k | 0 <= k < |RouterNode.MetaKeywords|
      ensures !ContainsSubstr(Lower(QuestionMark), RouterNode.MetaKeywords[k])
    {
      ContainsSubstrSpec(Lower(QuestionMark), RouterNode.MetaKeywords[k]);
    }
    PlainDecide(QuestionMark);
  }

  /** "rapor", sent with the SQL "SELECT * FROM satislar". */
  const ReportMessage := "rapor"
  const PastedSql := "SELECT * FROM satislar"

  function PastedPieces(): Pieces {
    Cons("SELECT", Cons(" * ", Cons("FROM", Cons(" ", Cons("satislar", Nil)))))
  }

  lemma PastedPiecesText()
    ensures Concat(PastedPieces()) == PastedSql && Last(PastedPieces()) == "satislar"
  {
  }

  lemma PastedPiecesFacts()
    ensures WellSplit(PastedPieces())
  {
  }

  lemma PastedPiecesPlain()
    ensures AllNotDangerous(PastedPieces())
  {
  }

  /** The report request: the pasted SQL has no dangerous word, so it is to be executed. */
  lemma ReportDecision()
    ensures Strip(ReportMessage) == ReportMessage && Strip(PastedSql) == PastedSql
    ensures RouterNode.Decide(ReportMessage, PastedSql) == RouterNode.Decision(ExecuteSql, 75, false, "", false)
  {
    var ps := PastedPieces();
    PastedPiecesText();
    PastedPiecesFacts();
    PastedPiecesPlain();
    PlainStrip(ps);
    StripNoSpaceEnds(ReportMessage);
    PlainNotDangerous(ps);
    ProvidedDecide(ReportMessage, PastedSql);
  }

  // ---------------------------------------------------------------------------
  // Paths through the graph

  /** A node in front of a finished run joins its path. */
  lemma PrependDone(n: G.Node, o: G.Outcome, t: Snapshot, p: seq<G.Node>)
    requires o == G.Done(t, p)
    ensures G.Prepend(n, o) == G.Done(t, [n] + p)
  {
  }

  lemma Joined4(a: G.Node, b: G.Node, c: G.Node, d: G.Node)
    ensures [c] + [d] == [c, d] && [b] + [c, d] == [b, c, d] && [a] + [b, c, d] == [a, b, c, d]
  {
  }

  lemma Joined2(a: G.Node, b: G.Node, p: seq<G.Node>)
    requires |p| == 2
    ensures [a] + ([b] + p) == [a, b, p[0], p[1]]
  {
  }

  lemma Joined1(a: G.Node, p: seq<G.Node>)
    requires |p| == 4
    ensures [a] + p == [a, p[0], p[1], p[2], p[3]]
  {
  }

  lemma Joined5(a: G.Node, b: G.Node, p: seq<G.Node>)
    requires |p| == 5
    ensures [a] + ([b] + p) == [a, b, p[0], p[1], p[2], p[3], p[4]]
  {
  }

  /** The state handed on by policy. */
  function Routed(s: Snapshot): Snapshot {
    PolicyNode.Evaluate(RouterNode.Classify(s))
  }

  /** Where an allowed request goes after policy. */
  function AfterPolicy(i: Intent): G.Node {
    if i == ExecuteSql then G.Validate else G.Metadata
  }

  /**
   * A confident metadata, generation or execution decision by anyone but a teller
   * passes the router and the policy, and goes on to metadata or, for execution,
   * straight to validate.
   */
  lemma ThroughPolicy(s: Snapshot, d: RouterNode.Decision)
    requires RouterNode.Decide(RouterNode.Message(s), RouterNode.Provided(s)) == d
    requires d.intent == AskMetadata || d.intent == GenerateSql || d.intent == ExecuteSql
    requires !d.needsClarification && d.confidence >= ClarifyThreshold
    requires PolicyNode.Role(s) != PolicyNode.TellerRole
    ensures G.Invoke(s) == G.Prepend(G.Router, G.Prepend(G.Policy, G.Run(AfterPolicy(d.intent), Routed(s))))
    ensures Routed(s).intent == Some(d.intent) && Routed(s).allowed == Some(true)
    ensures Routed(s).userMessage == s.userMessage && Routed(s).sql == s.sql
    ensures Routed(s).tableCandidates == s.tableCandidates && Routed(s).columnCandidates == s.columnCandidates
  {
    var r1 := RouterNode.Classify(s);
    var r2 := PolicyNode.Evaluate(r1);
    RouterNode.ClassifyFrame(s);
    assert r1.intent == Some(d.intent) && r1.userRole == s.userRole;
    G.StepRouter(s);
    G.RouterEdge(r1);
    G.RunThen(G.Router, s, r1, G.Policy);
    PolicyNode.AllowedIff(r1);
    PolicyNode.EvaluateFrame(r1);
    G.StepPolicy(r1);
    G.PolicyEdge(r2);
    G.RunThen(G.Policy, r1, r2, AfterPolicy(d.intent));
  }

  /** A metadata question ends at answer with the candidates listed. */
  lemma MetadataPath(s: Snapshot)
    requires RouterNode.Decide(RouterNode.Message(s), RouterNode.Provided(s))
          == RouterNode.Decision(AskMetadata, 80, false, "", false)
    requires PolicyNode.Role(s) != PolicyNode.TellerRole
    ensures var o := G.Invoke(s);
      && o.Done? && o.path == [G.Router, G.Policy, G.Metadata, G.Answer]
      && o.state.intent == Some(AskMetadata) && o.state.finalAnswer.Some?
      && ContainsSubstr(Lower(o.state.finalAnswer.value), AnswerNode.TablesWord)
  {
    ThroughPolicy(s, RouterNode.Decision(AskMetadata, 80, false, "", false));
    var r2 := Routed(s);
    var r3 := MetadataNode.Resolve(r2);
    MetadataNode.ResolveFrame(r2);
    G.StepMetadata(r2);
    G.MetadataEdge(r3);
    G.RunThen(G.Metadata, r2, r3, G.Answer);
    G.RunAnswer(r3);
    var a := AnswerNode.Answer(r3);
    Joined4(G.Router, G.Policy, G.Metadata, G.Answer);
    PrependDone(G.Metadata, G.Run(G.Answer, r3), a, [G.Answer]);
    PrependDone(G.Policy, G.Run(G.Metadata, r2), a, [G.Metadata, G.Answer]);
    PrependDone(G.Router, G.Prepend(G.Policy, G.Run(G.Metadata, r2)), a, [G.Policy, G.Metadata, G.Answer]);
    AnswerNode.MetadataAnswer(r3);
    AnswerNode.AnswerFrame(r3);
  }

  /**
   * From sql_gen on: with harmless candidates the generated SQL is accepted as it is,
   * executed, and answered.
   */
  lemma GeneratedPath(r: Snapshot)
    requires SqlGenNode.HasTable(r) && SqlGenNode.Harmless(SqlValidateNode.Tables(r)[0])
    requires !ContainsSubstr(Lower(GetOr(r.userMessage, "")), SqlGenNode.RecentMarker) ==>
      var cols := SqlGenNode.FirstTwo(ListOr(r.columnCandidates, [])); forall k :: 0 <= k < |cols| ==> SqlGenNode.Harmless(cols[k])
    ensures var o := G.Run(G.SqlGen, r);
      && o.Done? && o.path == [G.SqlGen, G.Validate, G.Execute, G.Answer]
      && o.state.intent == r.intent && o.state.sqlOk == Some(true) && o.state.sqlIssues == Some([])
      && o.state.sql == SqlGenNode.Generate(r).sql && o.state.result.Some?
  {
    var r4 := SqlGenNode.Generate(r);
    var r5 := SqlValidateNode.Validate(r4);
    var r6 := ExecuteNode.Execute(r5);
    SqlGenNode.GenerateFrame(r);
    SqlGenNode.GeneratedSqlAccepted(r);
    G.StepSqlGen(r);
    G.FixedEdges(r4);
    G.RunThen(G.SqlGen, r, r4, G.Validate);
    G.StepValidate(r4);
    G.ValidateEdge(r5);
    G.RunThen(G.Validate, r4, r5, G.Execute);
    ExecuteNode.ExecuteResult(r5);
    G.StepExecute(r5);
    G.FixedEdges(r6);
    G.RunThen(G.Execute, r5, r6, G.Answer);
    G.RunAnswer(r6);
    var a := AnswerNode.Answer(r6);
    Joined4(G.SqlGen, G.Validate, G.Execute, G.Answer);
    PrependDone(G.Execute, G.Run(G.Answer, r6), a, [G.Answer]);
    PrependDone(G.Validate, G.Run(G.Execute, r5), a, [G.Execute, G.Answer]);
    PrependDone(G.SqlGen, G.Run(G.Validate, r4), a, [G.Validate, G.Execute, G.Answer]);
    AnswerNode.AnswerFrame(r6);
  }

  /** With no candidates of its own, metadata fills in the defaults, which are harmless. */
  lemma DefaultsResolved(r: Snapshot)
    requires r.tableCandidates.None? && r.columnCandidates.None?
    ensures var r3 := MetadataNode.Resolve(r);
      && r3.intent == r.intent && SqlGenNode.HasTable(r3)
      && SqlGenNode.Harmless(SqlValidateNode.Tables(r3)[0])
      && var cols := ListOr(r3.columnCandidates, []); forall k :: 0 <= k < |cols| ==> SqlGenNode.Harmless(cols[k])
  {
    MetadataNode.ResolveFrame(r);
    MetadataNode.ResolveCandidates(r);
    DefaultsHarmless();
  }

  /** From metadata on, with no candidates of its own: the defaults are filled in and the generated SQL runs. */
  lemma DefaultsPath(r: Snapshot)
    requires r.intent == Some(GenerateSql) && r.tableCandidates.None? && r.columnCandidates.None?
    ensures var o := G.Run(G.Metadata, r);
      && o.Done? && o.path == [G.Metadata, G.SqlGen, G.Validate, G.Execute, G.Answer]
      && o.state.intent == Some(GenerateSql) && o.state.sqlOk == Some(true) && o.state.result.Some?
      && o.state.sql == SqlGenNode.Generate(MetadataNode.Resolve(r)).sql
  {
    var r3 := MetadataNode.Resolve(r);
    DefaultsResolved(r);
    G.StepMetadata(r);
    G.MetadataEdge(r3);
    G.RunThen(G.Metadata, r, r3, G.SqlGen);
    GeneratedPath(r3);
    var o := G.Run(G.SqlGen, r3);
    PrependDone(G.Metadata, o, o.state, o.path);
    Joined1(G.Metadata, o.path);
  }

  /**
   * A generation request with no candidates of its own gets the default ones, which
   * are harmless, so its SQL is accepted and run.
   */
  lemma GeneratePath(s: Snapshot)
    requires RouterNode.Decide(RouterNode.Message(s), RouterNode.Provided(s))
          == RouterNode.Decision(GenerateSql, 70, false, "", false)
    requires PolicyNode.Role(s) != PolicyNode.TellerRole
    requires s.tableCandidates.None? && s.columnCandidates.None?
    ensures var o := G.Invoke(s);
      && o.Done? && o.path == [G.Router, G.Policy, G.Metadata, G.SqlGen, G.Validate, G.Execute, G.Answer]
      && o.state.intent == Some(GenerateSql) && o.state.sqlOk == Some(true) && o.state.result.Some?
      && o.state.sql == SqlGenNode.Generate(MetadataNode.Resolve(Routed(s))).sql
  {
    ThroughPolicy(s, RouterNode.Decision(GenerateSql, 70, false, "", false));
    var r2 := Routed(s);
    DefaultsPath(r2);
    var o := G.Run(G.Metadata, r2);
    PrependDone(G.Policy, o, o.state, o.path);
    PrependDone(G.Router, G.Prepend(G.Policy, o), o.state, [G.Policy] + o.path);
    Joined5(G.Router, G.Policy, o.path);
  }

  /** From validate on, with no SQL in `sql`: the run fails validation and is answered with "SQL missing". */
  lemma MissingSqlPath(r: Snapshot)
    requires r.sql.None? && r.allowed == Some(true) && r.intent == Some(ExecuteSql)
    ensures var o := G.Run(G.Validate, r);
      && o.Done? && o.path == [G.Validate, G.Answer]
      && o.state.intent == Some(ExecuteSql) && o.state.result == r.result
      && o.state.sqlOk == Some(false) && o.state.sqlIssues == Some([SqlValidateNode.MissingIssue])
      && o.state.finalAnswer == Some(AnswerNode.SqlFailedPrefix + PyRepr.ReprList([SqlValidateNode.MissingIssue]))
  {
    var r3 := SqlValidateNode.Validate(r);
    SqlValidateNode.MissingSql(r);
    assert r3 == r.(sqlOk := Some(false), sqlIssues := Some([SqlValidateNode.MissingIssue]));
    G.StepValidate(r);
    G.ValidateEdge(r3);
    G.RunThen(G.Validate, r, r3, G.Answer);
    G.RunAnswer(r3);
    var a := AnswerNode.Answer(r3);
    PrependDone(G.Validate, G.Run(G.Answer, r3), a, [G.Answer]);
    assert [G.Validate] + [G.Answer] == [G.Validate, G.Answer];
    AnswerNode.SqlAnswer(r3);
  }

  /**
   * An execution request whose SQL is not in `sql` goes from policy to validate, fails
   * there with "SQL missing" and is answered with that issue: it never reaches execute.
   */
  lemma ExecutePath(s: Snapshot)
    requires RouterNode.Decide(RouterNode.Message(s), RouterNode.Provided(s))
          == RouterNode.Decision(ExecuteSql, 75, false, "", false)
    requires PolicyNode.Role(s) != PolicyNode.TellerRole
    requires s.sql.None?
    ensures var o := G.Invoke(s);
      && o.Done? && o.path == [G.Router, G.Policy, G.Validate, G.Answer]
      && o.state.intent == Some(ExecuteSql)
      && o.state.sqlOk == Some(false) && o.state.sqlIssues == Some([SqlValidateNode.MissingIssue])
      && o.state.finalAnswer == Some(AnswerNode.SqlFailedPrefix + PyRepr.ReprList([SqlValidateNode.MissingIssue]))
  {
    ThroughPolicy(s, RouterNode.Decision(ExecuteSql, 75, false, "", false));
    var r2 := Routed(s);
    MissingSqlPath(r2);
    var o := G.Run(G.Validate, r2);
    PrependDone(G.Policy, o, o.state, o.path);
    PrependDone(G.Router, G.Prepend(G.Policy, o), o.state, [G.Policy] + o.path);
    Joined2(G.Router, G.Policy, o.path);
  }

  /** A refusal by the router skips policy, and the lower-cased answer mentions "güvenlik". */
  lemma RefusePath(s: Snapshot)
    requires RouterNode.Decide(RouterNode.Message(s), RouterNode.Provided(s)).intent == Refuse
    requires s.allowed != Some(false)
    ensures var o := G.Invoke(s);
      && o.Done? && o.path == [G.Router, G.Answer]
      && o.state.intent == Some(Refuse) && o.state.finalAnswer == Some(AnswerNode.RefuseMessage)
      && ContainsSubstr(Lower(o.state.finalAnswer.value), AnswerNode.SecurityWord)
  {
    var r1 := RouterNode.Classify(s);
    RouterNode.ClassifyFrame(s);
    assert r1.intent == Some(Refuse) && r1.allowed == s.allowed;
    G.ShortPath(s);
    AnswerNode.RefuseAnswer(r1);
    AnswerNode.AnswerFrame(r1);
  }

  /** A request the router finds too short is answered with its clarifying question. */
  lemma ClarifyPath(s: Snapshot)
    requires RouterNode.Decide(RouterNode.Message(s), RouterNode.Provided(s))
          == RouterNode.Decision(Clarify, 40, true, RouterNode.ClarifyQuestion, false)
    requires s.allowed != Some(false)
    ensures var o := G.Invoke(s);
      && o.Done? && o.path == [G.Router, G.Answer]
      && o.state.intent == Some(Clarify) && o.state.finalAnswer == Some(RouterNode.ClarifyQuestion)
      && |o.state.finalAnswer.value| > 0
  {
    var r1 := RouterNode.Classify(s);
    RouterNode.ClassifyFrame(s);
    assert r1.intent == Some(Clarify) && r1.allowed == s.allowed;
    assert r1.clarifyQuestion == Some(RouterNode.ClarifyQuestion);
    G.ShortPath(s);
    AnswerNode.ClarifyAnswer(r1);
    AnswerNode.AnswerFrame(r1);
  }

  // ---------------------------------------------------------------------------
  // The scenarios

  /** `run(..., role)` with no SQL, as the scenarios call it, reads the message and role back unchanged. */
  lemma InitialReads(message: string, role: string, sql: Option<string>, traceId: string)
    requires Strip(message) == message
    requires sql.None? || Strip(sql.value) == sql.value
    ensures var s := Initial(message, role, sql, traceId);
      && RouterNode.Message(s) == message
      && RouterNode.Provided(s) == (if sql.Some? then sql.value else "")
      && PolicyNode.Role(s) == Lower(role)
      && s.allowed.None? && s.tableCandidates.None? && s.columnCandidates.None?
  {
    StripNoSpaceEnds("");
  }

  lemma NotTellers()
    ensures Lower(Manager) != PolicyNode.TellerRole && Lower(Admin) != PolicyNode.TellerRole
  {
  }

  /** "Hangi tablolar var?" from a manager: a metadata question whose answer mentions "tablolar". */
  lemma MetadataScenario(traceId: string)
    ensures var o := G.App(MetaMessage, Manager, None, traceId);
      && o.Done? && o.path == [G.Router, G.Policy, G.Metadata, G.Answer]
      && o.state.intent == Some(AskMetadata) && o.state.finalAnswer.Some?
      && ContainsSubstr(Lower(o.state.finalAnswer.value), AnswerNode.TablesWord)
  {
    MetaDecision();
    InitialReads(MetaMessage, Manager, None, traceId);
    NotTellers();
    MetadataPath(Initial(MetaMessage, Manager, None, traceId));
  }

  /**
   * "Son 7 günde satışları getir" from a manager: SQL is generated from the seven-day
   * template over the default table, accepted as it is, and run.
   */
  lemma GenerateScenario(traceId: string)
    ensures var o := G.App(SalesMessage, Manager, None, traceId);
      && o.Done? && o.path == [G.Router, G.Policy, G.Metadata, G.SqlGen, G.Validate, G.Execute, G.Answer]
      && o.state.intent == Some(GenerateSql) && o.state.sqlOk == Some(true) && o.state.result.Some?
      && o.state.sql == Some(SqlGenNode.RecentSql(MetadataNode.DefaultTables[0]))
  {
    var s := Initial(SalesMessage, Manager, None, traceId);
    SalesDecision();
    InitialReads(SalesMessage, Manager, None, traceId);
    NotTellers();
    GeneratePath(s);
    SalesTemplate(s);
  }

  /** The state sql_gen sees in the sales scenario holds the message and the default table. */
  lemma SalesTemplate(s: Snapshot)
    requires s.userMessage == Some(SalesMessage) && s.tableCandidates.None?
    ensures var r := MetadataNode.Resolve(Routed(s));
      SqlGenNode.HasTable(r) && SqlGenNode.Generate(r).sql == Some(SqlGenNode.RecentSql(MetadataNode.DefaultTables[0]))
  {
    var r1 := RouterNode.Classify(s);
    var r2 := Routed(s);
    var r := MetadataNode.Resolve(r2);
    RouterNode.ClassifyFrame(s);
    PolicyNode.EvaluateFrame(r1);
    MetadataNode.ResolveFrame(r2);
    MetadataNode.ResolveCandidates(r2);
    assert r.userMessage == Some(SalesMessage);
    SalesRecent();
    SqlGenNode.TemplateChoice(r);
  }

  /** "DROP TABLE satislar" from an admin: refused by the router, whatever the role. */
  lemma RefuseScenario(traceId: string)
    ensures var o := G.App(DropMessage, Admin, None, traceId);
      && o.Done? && o.path == [G.Router, G.Answer]
      && o.state.intent == Some(Refuse) && o.state.finalAnswer.Some?
      && ContainsSubstr(Lower(o.state.finalAnswer.value), AnswerNode.SecurityWord)
  {
    DropDecision();
    InitialReads(DropMessage, Admin, None, traceId);
    RefusePath(Initial(DropMessage, Admin, None, traceId));
  }

  /** "?" from a manager: the router asks for clarification, and the answer is not empty. */
  lemma ClarifyScenario(traceId: string)
    ensures var o := G.App(QuestionMark, Manager, None, traceId);
      && o.Done? && o.path == [G.Router, G.Answer]
      && o.state.intent == Some(Clarify) && o.state.finalAnswer.Some? && |o.state.finalAnswer.value| > 0
  {
    QuestionDecision();
    InitialReads(QuestionMark, Manager, None, traceId);
    ClarifyPath(Initial(QuestionMark, Manager, None, traceId));
  }

  /**
   * "rapor" with the SQL "SELECT * FROM satislar" from a manager: the intent is
   * EXECUTE_SQL, but the SQL is never moved into `sql`, so validation reports it
   * missing and `sql_ok` ends false, not true.
   */
  lemma ExecuteScenario(traceId: string)
    ensures var o := G.App(ReportMessage, Manager, Some(PastedSql), traceId);
      && o.Done? && o.path == [G.Router, G.Policy, G.Validate, G.Answer]
      && o.state.intent == Some(ExecuteSql)
      && o.state.sqlOk == Some(false) && o.state.sqlIssues == Some([SqlValidateNode.MissingIssue])
      && o.state.sqlOk != Some(true)
  {
    ReportDecision();
    InitialReads(ReportMessage, Manager, Some(PastedSql), traceId);
    NotTellers();
    ExecutePath(Initial(ReportMessage, Manager, Some(PastedSql), traceId));
  }

  // ---------------------------------------------------------------------------
  // The default candidates are harmless names

  lemma HarmlessWord(w: string)
    requires IsWord(w) && NotDangerous(w)
    ensures SqlGenNode.Harmless(w)
  {
    forall k | 0 <= k < |DangerousWords|
      ensures !ContainsWordCI(w, DangerousWords[k])
    {
      WordInToken(w, DangerousWords[k]);
    }
  }

  lemma DefaultWordsPlain()
    ensures IsWord("satislar") && NotDangerous("satislar")
    ensures IsWord("tarih") && NotDangerous("tarih")
    ensures IsWord("tutar") && NotDangerous("tutar")
    ensures IsWord("musteri_id") && NotDangerous("musteri_id")
  {
  }

  /** The default table and columns are plain identifiers and no dangerous word. */
  lemma DefaultsHarmless()
    ensures SqlGenNode.Harmless(MetadataNode.DefaultTables[0])
    ensures forall k :: 0 <= k < |MetadataNode.DefaultColumns| ==> SqlGenNode.Harmless(MetadataNode.DefaultColumns[k])
  {
    DefaultWordsPlain();
    HarmlessWord("satislar");
    HarmlessWord("tarih");
    HarmlessWord("tutar");
    HarmlessWord("musteri_id");
  }
}

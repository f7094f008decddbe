/**
 * The SQL generator node: fills one of two fixed templates with the first candidate
 * table (src/text2sql/nodes/sql_gen.py).
 */
module SqlGenNode {
  import opened Text
  import opened State
  import opened SqlPatterns
  import opened SqlValidateNode
  import opened PieceText

  const RecentMarker := "son 7"

  /** `SELECT tarih, tutar FROM ` */
  function RecentHead(): Pieces {
    Cons("SELECT", Cons(" ", Cons("tarih", Cons(", ", Cons("tutar", Cons(" ", Cons("FROM", Cons(" ", Nil))))))))
  }

  /** ` WHERE tarih >= ` */
  function RecentWhere(): Pieces {
    Cons(" ", Cons("WHERE", Cons(" ", Cons("tarih", Cons(" >= ", Nil)))))
  }

  /** `CURRENT_DATE - INTERVAL` */
  function RecentSince(): Pieces {
    Cons("CURRENT_DATE", Cons(" - ", Cons("INTERVAL", Nil)))
  }

  /** ` '7 days'` */
  function RecentDays(): Pieces {
    Cons(" '", Cons("7", Cons(" ", Cons("days", Cons("'", Nil)))))
  }

  /** Everything after the table name in the seven-day template. */
  function RecentTail(): Pieces {
    App(RecentWhere(), App(RecentSince(), App(RecentDays(), LimitEnd())))
  }

  /**
   * `SELECT tarih, tutar FROM {t} WHERE tarih >= CURRENT_DATE - INTERVAL '7 days' LIMIT 200`,
   * held as the words and separators it is made of.
   */
  function RecentPieces(t: string): Pieces {
    App(RecentHead(), Cons(t, RecentTail()))
  }

  /** The seven-day template over table `t`. */
  function RecentSql(t: string): string {
    Concat(RecentPieces(t))
  }

  /** `cols[:2]`. */
  function FirstTwo(cols: seq<string>): (r: seq<string>)
    ensures |r| <= 2 && |r| <= |cols| && r == cols[..|r|] && (|r| < 2 ==> r == cols)
  {
    if |cols| <= 2 then cols else cols[..2]
  }

  /** `sep.join(xs)` cut into its items and separators. */
  function JoinPieces(sep: string, xs: seq<string>): Pieces {
    if |xs| == 0 then Nil else if |xs| == 1 then Cons(xs[0], Nil) else Cons(xs[0], Cons(sep, JoinPieces(sep, xs[1..])))
  }

  /** ` FROM {t} LIMIT 200` */
  function BasicFrom(t: string): Pieces {
    App(Cons(" ", Cons("FROM", Cons(" ", Nil))), Cons(t, LimitEnd()))
  }

  /** `SELECT {', '.join(cols[:2])} FROM {t} LIMIT 200`, held as the words and separators it is made of. */
  function BasicPieces(cols: seq<string>, t: string): Pieces {
    App(Cons("SELECT", Cons(" ", Nil)), App(JoinPieces(", ", FirstTwo(cols)), BasicFrom(t)))
  }

  /** The basic template over columns `cols` and table `t`. */
  function BasicSql(cols: seq<string>, t: string): string {
    Concat(BasicPieces(cols, t))
  }

  /** The node needs a first candidate table (it indexes `tables[0]`). */
  predicate HasTable(s: Snapshot) {
    ListOr(s.tableCandidates, []) != []
  }

  /** `sql_gen_node` on the state as a value. */
  function Generate(s: Snapshot): Snapshot
    requires HasTable(s)
  {
    var msg := GetOr(s.userMessage, "");
    var tables := ListOr(s.tableCandidates, []);
    var cols := ListOr(s.columnCandidates, []);
    if ContainsSubstr(Lower(msg), RecentMarker) then s.(sql := Some(RecentSql(tables[0])))
    else s.(sql := Some(BasicSql(cols, tables[0])))
  }

  /** `sql_gen_node`, updating the shared state in place. */
  method Update(st: OrchestratorState)
    requires HasTable(st.Snap())
    modifies st
    ensures st.Snap() == Generate(old(st.Snap()))
  {
    var msg := GetOr(st.userMessage, "");
    var tables := ListOr(st.tableCandidates, []);
    var cols := ListOr(st.columnCandidates, []);
    if ContainsSubstr(Lower(msg), RecentMarker) {
      st.sql := Some(RecentSql(tables[0]));
    } else {
      st.sql := Some(BasicSql(cols, tables[0]));
    }
  }

  // ---------------------------------------------------------------------------
  // Properties of the generator

  /** The column list of the basic template is Python's `', '.join(...)`. */
  lemma {:induction false} JoinPiecesConcat(sep: string, xs: seq<string>)
    ensures Concat(JoinPieces(sep, xs)) == Join(sep, xs)
  {
    if |xs| == 1 {
      assert Concat(Cons(xs[0], Nil)) == xs[0] + "";
    } else if |xs| > 1 {
      JoinPiecesConcat(sep, xs[1..]);
      assert Concat(JoinPieces(sep, xs)) == xs[0] + (sep + Concat(JoinPieces(sep, xs[1..])));
    }
  }

  /** Only `sql` changes, and it is always set. */
  lemma GenerateFrame(s: Snapshot)
    requires HasTable(s)
    ensures Generate(s).(sql := s.sql) == s && Generate(s).sql.Some?
  {
  }

  /** Which template is used: the seven-day one exactly when the lower-cased message contains "son 7". */
  lemma TemplateChoice(s: Snapshot)
    requires HasTable(s)
    ensures var t := ListOr(s.tableCandidates, [])[0];
      ContainsSubstr(Lower(GetOr(s.userMessage, "")), RecentMarker) ==> Generate(s).sql == Some(RecentSql(t))
    ensures var t := ListOr(s.tableCandidates, [])[0];
      !ContainsSubstr(Lower(GetOr(s.userMessage, "")), RecentMarker) ==>
        Generate(s).sql == Some(BasicSql(ListOr(s.columnCandidates, []), t))
  {
  }

  lemma RecentHeadText()
    ensures Concat(RecentHead()) == "SELECT tarih, tutar FROM "
  {
  }

  lemma RecentWhereText()
    ensures Concat(RecentWhere()) == " WHERE tarih >= "
  {
  }

  lemma RecentSinceText()
    ensures Concat(RecentSince()) == "CURRENT_DATE - INTERVAL"
  {
  }

  lemma RecentDaysText()
    ensures Concat(RecentDays()) == " '7 days'"
  {
  }

  /** The seven-day template spells the query of the source, with the table name in its place. */
  lemma RecentSqlText(t: string)
    ensures RecentSql(t)
         == "SELECT tarih, tutar FROM " + t + " WHERE tarih >= " + "CURRENT_DATE - INTERVAL" + " '7 days'" + " LIMIT 200"
  {
    RecentHeadText();
    RecentWhereText();
    RecentSinceText();
    RecentDaysText();
    LimitEndText();
    ConcatApp(RecentDays(), LimitEnd());
    ConcatApp(RecentSince(), App(RecentDays(), LimitEnd()));
    ConcatApp(RecentWhere(), App(RecentSince(), App(RecentDays(), LimitEnd())));
    ConcatApp(RecentHead(), Cons(t, RecentTail()));
  }

  /** The basic template spells the query of the source: the first two columns joined by commas, then the table. */
  lemma BasicSqlText(cols: seq<string>, t: string)
    ensures BasicSql(cols, t) == "SELECT " + Join(", ", FirstTwo(cols)) + " FROM " + t + " LIMIT 200"
  {
    var from := Cons(" ", Cons("FROM", Cons(" ", Nil)));
    LimitEndText();
    JoinPiecesConcat(", ", FirstTwo(cols));
    ConcatApp(from, Cons(t, LimitEnd()));
    ConcatApp(JoinPieces(", ", FirstTwo(cols)), BasicFrom(t));
    ConcatApp(Cons("SELECT", Cons(" ", Nil)), App(JoinPieces(", ", FirstTwo(cols)), BasicFrom(t)));
    assert Concat(from) == " FROM ";
    assert Concat(Cons("SELECT", Cons(" ", Nil))) == "SELECT ";
  }

  /** A name the templates may be filled with: a plain identifier that is not a dangerous word. */
  predicate Harmless(w: string) {
    IsWord(w) && !HasDangerousWord(w)
  }

  lemma HarmlessPiece(w: string)
    requires Harmless(w)
    ensures Clean(Cons(w, Nil)) && WordPiece(w)
  {
    forall k | 0 <= k < |DangerousWords|
      ensures !HasPiece(Cons(w, Nil), DangerousWords[k])
    {
      assert HasDangerousWord(w) <==> ContainsAnyWordCI(w, DangerousWords);
      assert !ContainsWordCI(w, DangerousWords[k]);
      WordInToken(w, DangerousWords[k]);
    }
    assert forall i :: 0 <= i < |w| ==> w[i] != ';';
  }

  lemma RecentHeadClean()
    ensures Clean(RecentHead())
  {
  }

  lemma RecentWhereClean()
    ensures Clean(RecentWhere())
  {
  }

  lemma RecentSinceClean()
    ensures Clean(RecentSince())
  {
  }

  lemma RecentDaysClean()
    ensures Clean(RecentDays())
  {
  }

  /** The part after the table name is clean, opens with a separator and has the limit. */
  lemma RecentTailClean()
    ensures var ps := RecentTail();
      Clean(ps) && ps.Cons? && !WordPiece(ps.head) && Last(ps) == "200" && HasPiece(ps, LimitKeyword)
  {
    RecentWhereClean();
    RecentSinceClean();
    RecentDaysClean();
    LimitEndClean();
    CleanApp(RecentDays(), LimitEnd());
    CleanApp(RecentSince(), App(RecentDays(), LimitEnd()));
    CleanApp(RecentWhere(), App(RecentSince(), App(RecentDays(), LimitEnd())));
    LastApp(RecentDays(), LimitEnd());
    LastApp(RecentSince(), App(RecentDays(), LimitEnd()));
    LastApp(RecentWhere(), App(RecentSince(), App(RecentDays(), LimitEnd())));
    HasPieceApp(RecentDays(), LimitEnd(), LimitKeyword);
    HasPieceApp(RecentSince(), App(RecentDays(), LimitEnd()), LimitKeyword);
    HasPieceApp(RecentWhere(), App(RecentSince(), App(RecentDays(), LimitEnd())), LimitKeyword);
  }

  /** The seven-day template over a harmless table is clean, mentions the table and has a limit. */
  lemma RecentClean(t: string)
    requires Harmless(t)
    ensures var ps := RecentPieces(t);
      Clean(ps) && ps.Cons? && ps.head == "SELECT" && Last(ps) == "200"
      && HasPiece(ps, LimitKeyword) && HasPiece(ps, t)
  {
    var tail := RecentTail();
    RecentHeadClean();
    RecentTailClean();
    HarmlessPiece(t);
    assert App(Cons(t, Nil), tail) == Cons(t, tail);
    CleanApp(Cons(t, Nil), tail);
    CleanApp(RecentHead(), Cons(t, tail));
    LastApp(RecentHead(), Cons(t, tail));
    HasPieceApp(RecentHead(), Cons(t, tail), LimitKeyword);
    SameWordCIRefl(t);
    HasPieceApp(RecentHead(), Cons(t, tail), t);
  }

  /** The column list of the basic template over harmless names is clean and opens and closes with a name. */
  lemma {:induction false} JoinClean(xs: seq<string>)
    requires forall k :: 0 <= k < |xs| ==> Harmless(xs[k])
    ensures Clean(JoinPieces(", ", xs))
    ensures xs != [] ==>
      (JoinPieces(", ", xs).Cons? && WordPiece(JoinPieces(", ", xs).head) && WordPiece(Last(JoinPieces(", ", xs))))
  {
    if |xs| == 1 {
      HarmlessPiece(xs[0]);
    } else if |xs| > 1 {
      JoinClean(xs[1..]);
      HarmlessPiece(xs[0]);
      var sep := Cons(", ", Nil);
      assert Clean(sep);
      CleanApp(sep, JoinPieces(", ", xs[1..]));
      assert App(sep, JoinPieces(", ", xs[1..])) == Cons(", ", JoinPieces(", ", xs[1..]));
      CleanApp(Cons(xs[0], Nil), Cons(", ", JoinPieces(", ", xs[1..])));
      assert App(Cons(xs[0], Nil), Cons(", ", JoinPieces(", ", xs[1..]))) == JoinPieces(", ", xs);
    }
  }

  lemma BasicFromClean(t: string)
    requires Harmless(t)
    ensures var ps := BasicFrom(t);
      Clean(ps) && ps.Cons? && ps.head == " " && Last(ps) == "200"
      && HasPiece(ps, LimitKeyword) && HasPiece(ps, t)
  {
    var from := Cons(" ", Cons("FROM", Cons(" ", Nil)));
    var rest := Cons(t, LimitEnd());
    HarmlessPiece(t);
    LimitEndClean();
    assert Clean(from);
    assert App(Cons(t, Nil), LimitEnd()) == rest;
    CleanApp(Cons(t, Nil), LimitEnd());
    CleanApp(from, rest);
    LastApp(from, rest);
    HasPieceApp(from, rest, LimitKeyword);
    SameWordCIRefl(t);
    HasPieceApp(from, rest, t);
  }

  /** The basic template over harmless names is clean, mentions the table and has a limit. */
  lemma BasicClean(cols: seq<string>, t: string)
    requires Harmless(t) && forall k :: 0 <= k < |FirstTwo(cols)| ==> Harmless(FirstTwo(cols)[k])
    ensures var ps := BasicPieces(cols, t);
      Clean(ps) && ps.Cons? && ps.head == "SELECT" && Last(ps) == "200"
      && HasPiece(ps, LimitKeyword) && HasPiece(ps, t)
  {
    var top := Cons("SELECT", Cons(" ", Nil));
    var join := JoinPieces(", ", FirstTwo(cols));
    var mid := BasicFrom(t);
    JoinClean(FirstTwo(cols));
    BasicFromClean(t);
    assert Clean(top);
    CleanApp(join, mid);
    var body := App(join, mid);
    assert join.Nil? ==> body == mid;
    assert body.Cons? && !WordPiece(Last(top));
    CleanApp(top, body);
    LastApp(join, mid);
    LastApp(top, body);
    HasPieceApp(join, mid, LimitKeyword);
    HasPieceApp(top, body, LimitKeyword);
    HasPieceApp(join, mid, t);
    HasPieceApp(top, body, t);
  }

  /**
   * Clean pieces opening with SELECT, closing with 200 and holding a LIMIT word and the
   * first allowed table spell SQL that is trimmed, passes every hard check and has a limit.
   */
  lemma TemplateAccepted(ps: Pieces, tables: seq<string>)
    requires Clean(ps) && ps.Cons? && ps.head == "SELECT" && Last(ps) == "200"
    requires HasPiece(ps, LimitKeyword)
    requires tables != [] ==> IsWord(tables[0]) && HasPiece(ps, tables[0])
    ensures var sql := Concat(ps);
      Strip(sql) == sql && Issues(sql, tables) == [] && HasLimitWord(sql)
  {
    var sql := Concat(ps);
    ConcatEnds(ps);
    StripNoSpaceEnds(sql);
    LStripNoSpace(sql);
    assert IsWord(ps.head) && SameWordCI(ps.head, SelectKeyword);
    StartsWithWordInPieces(ps, SelectKeyword);
    assert forall k :: 0 <= k < |DangerousWords| ==> IsWord(DangerousWords[k]);
    AnyWordInPieces(ps, DangerousWords);
    NoCharConcat(ps, ';');
    NoSemicolonSingle(sql);
    WordInPieces(ps, LimitKeyword);
    if tables != [] {
      WordInPieces(ps, tables[0]);
    }
  }

  /**
   * With a harmless first table and, on the basic template, harmless first two columns,
   * the generated SQL passes the validator as it is: accepted, no issues, and `sql` left
   * unchanged.
   */
  lemma GeneratedSqlAccepted(s: Snapshot)
    requires HasTable(s) && Harmless(Tables(s)[0])
    requires !ContainsSubstr(Lower(GetOr(s.userMessage, "")), RecentMarker) ==>
      var cols := FirstTwo(ListOr(s.columnCandidates, [])); forall k :: 0 <= k < |cols| ==> Harmless(cols[k])
    ensures Validate(Generate(s)) == Generate(s).(sqlOk := Some(true), sqlIssues := Some([]))
  {
    var g := Generate(s);
    var t := Tables(s)[0];
    var cols := ListOr(s.columnCandidates, []);
    var ps := if ContainsSubstr(Lower(GetOr(s.userMessage, "")), RecentMarker) then RecentPieces(t) else BasicPieces(cols, t);
    if ContainsSubstr(Lower(GetOr(s.userMessage, "")), RecentMarker) {
      RecentClean(t);
    } else {
      BasicClean(cols, t);
    }
    assert g.sql == Some(Concat(ps));
    assert Tables(g) == Tables(s);
    TemplateAccepted(ps, Tables(s));
    assert Inspected(g) == Concat(ps);
  }
}

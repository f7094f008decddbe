/**
 * The SQL gate of the UI's model client (ui/graph_client.py): `_validate_sql`, with
 * the table-reference pattern it scans for, `_openrouter_chat` with the network
 * exchange as a parameter, and `text2sql` with its fallback to a fixed query.
 *
 * `_TABLE_REF_RE` is `\b(from|join)\s+([a-zA-Z_][\w.]*)(?:\s+[a-zA-Z_]\w*)?\b`,
 * case-insensitive, and `finditer` collects its second group at every match, each
 * search resuming where the previous match ended. The greedy runs of the pattern
 * backtrack only in one place: when the dotted name is not followed by an alias and
 * its maximal run does not end at a word boundary (it ends with `.`), the name is cut
 * back to the longest prefix that does.
 */
module GraphClient {
  import opened Text
  import opened PyRepr
  import opened State
  import UiValidators
  import JsonLoose

  // ---------------------------------------------------------------------------
  // Runs of one character class

  /** `[a-zA-Z_]`. */
  predicate IdentStart(c: char) {
    ('a' <= c <= 'z') || ('A' <= c <= 'Z') || c == '_'
  }

  /** `[\w.]`. */
  predicate DottedChar(c: char) {
    IsWordChar(c) || c == '.'
  }

  /** What a greedy `[\w.]*` takes from `j` on. */
  function DottedRun(s: string, j: nat): (n: nat)
    requires j <= |s|
    ensures j + n <= |s|
    decreases |s| - j
  {
    if j < |s| && DottedChar(s[j]) then 1 + DottedRun(s, j + 1) else 0
  }

  /** The run stops at the end or at a character outside `[\w.]`, and all of it is inside. */
  lemma {:induction false} DottedRunSpec(s: string, j: nat)
    requires j <= |s|
    ensures var n := DottedRun(s, j);
      && (j + n == |s| || !DottedChar(s[j + n]))
      && forall k :: j <= k < j + n ==> DottedChar(s[k])
    decreases |s| - j
  {
    if j < |s| && DottedChar(s[j]) {
      DottedRunSpec(s, j + 1);
    }
  }


  // ---------------------------------------------------------------------------
  // `_TABLE_REF_RE.finditer`

  /** A name group 2 can capture: `[a-zA-Z_][\w.]*`. */
  predicate RefName(t: string) {
    |t| > 0 && IdentStart(t[0]) && forall k :: 0 <= k < |t| ==> DottedChar(t[k])
  }

  /** Where the optional alias `\s+[a-zA-Z_]\w*` that starts at `p` ends, if one does. */
  function AliasEnd(s: string, p: nat): (e: Option<nat>)
    requires p <= |s|
    ensures e.Some? ==> p < e.value <= |s|
  {
    var ws := SpaceRun(s, p);
    var k := p + ws;
    if ws > 0 && k < |s| && IdentStart(s[k]) then Some(k + 1 + WordRun(s, k + 1)) else None
  }

  /** The longest length `1..len` of the name at `j` that ends at a word boundary, or 0. */
  function BoundaryPrefix(s: string, j: nat, len: nat): (n: nat)
    requires j + len <= |s|
    ensures n <= len
  {
    if len == 0 then 0 else if Boundary(s, j + len) then len else BoundaryPrefix(s, j, len - 1)
  }

  /** The prefix found ends at a boundary, and no longer one up to `len` does. */
  lemma {:induction false} BoundaryPrefixSpec(s: string, j: nat, len: nat)
    requires j + len <= |s|
    ensures var n := BoundaryPrefix(s, j, len);
      && (n > 0 ==> Boundary(s, j + n))
      && forall q :: j + n < q <= j + len ==> !Boundary(s, q)
  {
    if len > 0 && !Boundary(s, j + len) {
      BoundaryPrefixSpec(s, j, len - 1);
    }
  }

  datatype RefMatch = RefMatch(name: string, end: nat)

  /** `(from|join)` at `i`, as a whole word start, in any case. */
  predicate KeywordAt(s: string, i: nat)
    requires i <= |s|
  {
    Boundary(s, i) && i + 4 <= |s| && (MatchCI(s, i, "from", 0) || MatchCI(s, i, "join", 0))
  }

  /** The match of `_TABLE_REF_RE` that starts at `i`, if there is one: group 2 and the match end. */
  function MatchRefAt(s: string, i: nat): (m: Option<RefMatch>)
    requires i <= |s|
    ensures m.Some? ==> KeywordAt(s, i) && i + 5 < m.value.end <= |s| && RefName(m.value.name)
  {
    if !KeywordAt(s, i) then None
    else
      var ws := SpaceRun(s, i + 4);
      var j := i + 4 + ws;
      if ws == 0 || j == |s| || !IdentStart(s[j]) then None
      else
        var run := 1 + DottedRun(s, j + 1);
        DottedRunSpec(s, j + 1);
        var alias := AliasEnd(s, j + run);
        if alias.Some? then Some(RefMatch(s[j..j + run], alias.value))
        else
          var len := BoundaryPrefix(s, j, run);
          if len == 0 then None else Some(RefMatch(s[j..j + len], j + len))
  }

  /** Group 2 of every match `finditer` finds from position `p` on, in order. */
  function RefsFrom(s: string, p: nat): (refs: seq<string>)
    requires p <= |s|
    ensures forall k :: 0 <= k < |refs| ==> RefName(refs[k])
    decreases |s| - p
  {
    var m := MatchRefAt(s, p);
    if m.Some? then [m.value.name] + RefsFrom(s, m.value.end)
    else if p < |s| then RefsFrom(s, p + 1)
    else []
  }

  /** `[m.group(2) for m in _TABLE_REF_RE.finditer(s)]`. */
  function TableRefs(s: string): seq<string> {
    RefsFrom(s, 0)
  }

  /** No `f` or `j`, in either case: no `from` or `join` can start anywhere in `t`. */
  predicate NoKeywordLetter(t: string) {
    forall k :: 0 <= k < |t| ==> t[k] != 'f' && t[k] != 'F' && t[k] != 'j' && t[k] != 'J'
  }

  lemma NoKeywordLetterConcat(a: string, b: string)
    requires NoKeywordLetter(a) && NoKeywordLetter(b)
    ensures NoKeywordLetter(a + b)
  {
  }

  /** A text in which no `f` or `j` occurs from `p` on has no reference there. */
  lemma {:induction false} NoKeywordNoRefs(s: string, p: nat)
    requires p <= |s| && NoKeywordLetter(s[p..])
    ensures RefsFrom(s, p) == []
    decreases |s| - p
  {
    if p < |s| {
      assert !KeywordAt(s, p) by {
        if p + 4 <= |s| {
          if MatchCI(s, p, "from", 0) {
            MatchCIIndex(s, p, "from", 0);
          }
          if MatchCI(s, p, "join", 0) {
            MatchCIIndex(s, p, "join", 0);
          }
        }
      }
      assert s[p + 1..] == s[p..][1..];
      NoKeywordNoRefs(s, p + 1);
    }
  }

  /** Skipping a stretch without `f` or `j` does not change what is found after it. */
  lemma {:induction false} SkipNoKeyword(s: string, p: nat, q: nat)
    requires p <= q <= |s| && NoKeywordLetter(s[p..q])
    ensures RefsFrom(s, p) == RefsFrom(s, q)
    decreases q - p
  {
    if p < q {
      assert s[p] == s[p..q][0];
      assert !KeywordAt(s, p) by {
        if p + 4 <= |s| {
          if MatchCI(s, p, "from", 0) {
            MatchCIIndex(s, p, "from", 0);
          }
          if MatchCI(s, p, "join", 0) {
            MatchCIIndex(s, p, "join", 0);
          }
        }
      }
      assert s[p + 1..q] == s[p..q][1..];
      SkipNoKeyword(s, p + 1, q);
    }
  }

  lemma {:induction false} DottedRunExact(s: string, j: nat, n: nat)
    requires j + n <= |s| && (j + n == |s| || !DottedChar(s[j + n]))
    requires forall k :: j <= k < j + n ==> DottedChar(s[k])
    ensures DottedRun(s, j) == n
    decreases n
  {
    if n > 0 {
      DottedRunExact(s, j + 1, n - 1);
    }
  }

  /** `from` after a line break, then one space and a name: the keyword part of a match. */
  lemma FromThenName(s: string, i: nat)
    requires 0 < i && i + 6 <= |s| && s[i - 1] == '\n' && s[i..i + 4] == "FROM" && s[i + 4] == ' '
    requires IdentStart(s[i + 5])
    ensures KeywordAt(s, i) && SpaceRun(s, i + 4) == 1
  {
    MatchCISpec(s, i, "from", 0);
    assert s[i] == 'F';
  }

  /** A line break and then `ORDER` before a non-word character: an alias ending after `ORDER`. */
  lemma AliasOrder(s: string, e: nat)
    requires e + 6 <= |s| && s[e] == '\n' && s[e + 1..e + 6] == "ORDER"
    requires e + 6 == |s| || !IsWordChar(s[e + 6])
    ensures AliasEnd(s, e) == Some(e + 6)
  {
    assert s[e + 1] == 'O';
    assert forall k :: e + 2 <= k < e + 6 ==> s[k] == "ORDER"[k - e - 1];
    SpaceRunIs(s, e, 1);
    WordRunIs(s, e + 2, 4);
  }

  /** A name `v` at `j` that a line break ends: its dotted run is exactly `v`. */
  lemma NameRun(s: string, j: nat, v: string)
    requires RefName(v) && j + |v| < |s| && s[j..j + |v|] == v && s[j + |v|] == '\n'
    ensures IdentStart(s[j]) && 1 + DottedRun(s, j + 1) == |v|
  {
    assert s[j] == v[0];
    forall k | j + 1 <= k < j + |v|
      ensures DottedChar(s[k])
    {
      assert s[k] == v[k - j];
    }
    DottedRunExact(s, j + 1, |v| - 1);
  }

  /** The pieces of a match at `i` with one space before the name `v` and an alias ending at `e`. */
  lemma MatchHit(s: string, i: nat, v: string, e: nat)
    requires i + 6 <= |s| && KeywordAt(s, i) && SpaceRun(s, i + 4) == 1 && IdentStart(s[i + 5])
    requires i + 5 + |v| <= |s| && 1 + DottedRun(s, i + 6) == |v| && s[i + 5..i + 5 + |v|] == v
    requires AliasEnd(s, i + 5 + |v|) == Some(e)
    ensures MatchRefAt(s, i) == Some(RefMatch(v, e))
  {
  }

  /** Nothing before `i`, one match at `i`, nothing after it: one reference. */
  lemma OneRef(s: string, i: nat, v: string, e: nat)
    requires i <= e <= |s| && RefsFrom(s, 0) == RefsFrom(s, i) && RefsFrom(s, e) == []
    requires MatchRefAt(s, i) == Some(RefMatch(v, e))
    ensures TableRefs(s) == [v]
  {
    assert [v] + [] == [v];
  }

  lemma SliceOfFront(x: string, y: string, lo: nat, hi: nat)
    requires lo <= hi <= |x|
    ensures (x + y)[lo..hi] == x[lo..hi]
  {
  }

  lemma SplitAtJoin(x: string, y: string)
    ensures (x + y)[..|x|] == x && (x + y)[|x|..] == y
  {
  }

  /** `a + "FROM " + v + "\n" + "ORDER" + b`: a query with one table, aliased `ORDER`. */
  function Shape(a: string, v: string, b: string): (s: string)
    ensures |s| == |a| + 11 + |v| + |b|
  {
    a + "FROM" + " " + v + "\n" + "ORDER" + b
  }

  /** `a` is what comes before `FROM`. */
  lemma ShapeBefore(a: string, v: string, b: string)
    ensures Shape(a, v, b)[0..|a|] == a
  {
    var x1 := a + "FROM";
    var x2 := x1 + " ";
    var x3 := x2 + v;
    var x4 := x3 + "\n";
    var x5 := x4 + "ORDER";
    var s := x5 + b;
    var i := |a|;
    SliceOfFront(x5, b, 0, i);
    SliceOfFront(x4, "ORDER", 0, i);
    SliceOfFront(x3, "\n", 0, i);
    SliceOfFront(x2, v, 0, i);
    SliceOfFront(x1, " ", 0, i);
    SplitAtJoin(a, "FROM");
  }

  /** `FROM` and one space follow `a`. */
  lemma ShapeFrom(a: string, v: string, b: string)
    ensures Shape(a, v, b)[|a|..|a| + 4] == "FROM" && Shape(a, v, b)[|a| + 4] == ' '
  {
    var x1 := a + "FROM";
    var x2 := x1 + " ";
    var x3 := x2 + v;
    var x4 := x3 + "\n";
    var x5 := x4 + "ORDER";
    var s := x5 + b;
    var i := |a|;
    SliceOfFront(x5, b, i, i + 4);
    SliceOfFront(x4, "ORDER", i, i + 4);
    SliceOfFront(x3, "\n", i, i + 4);
    SliceOfFront(x2, v, i, i + 4);
    SliceOfFront(x1, " ", i, i + 4);
    SplitAtJoin(a, "FROM");
    assert s[i + 4] == x2[i + 4];
  }

  /** The name `v` follows, and a line break ends it. */
  lemma ShapeView(a: string, v: string, b: string)
    ensures Shape(a, v, b)[|a| + 5..|a| + 5 + |v|] == v && Shape(a, v, b)[|a| + 5 + |v|] == '\n'
  {
    var x1 := a + "FROM";
    var x2 := x1 + " ";
    var x3 := x2 + v;
    var x4 := x3 + "\n";
    var x5 := x4 + "ORDER";
    var s := x5 + b;
    var i := |a|;
    SliceOfFront(x5, b, i + 5, i + 5 + |v|);
    SliceOfFront(x4, "ORDER", i + 5, i + 5 + |v|);
    SliceOfFront(x3, "\n", i + 5, i + 5 + |v|);
    SplitAtJoin(x2, v);
    assert s[i + 5 + |v|] == x4[i + 5 + |v|];
  }

  /** `ORDER` comes next, and `b` is the rest. */
  lemma ShapeOrder(a: string, v: string, b: string)
    ensures Shape(a, v, b)[|a| + 6 + |v|..|a| + 11 + |v|] == "ORDER"
    ensures Shape(a, v, b)[|a| + 11 + |v|..] == b
  {
    var x1 := a + "FROM";
    var x2 := x1 + " ";
    var x3 := x2 + v;
    var x4 := x3 + "\n";
    var x5 := x4 + "ORDER";
    var s := x5 + b;
    var i := |a|;
    SliceOfFront(x5, b, i + 6 + |v|, i + 11 + |v|);
    SplitAtJoin(x4, "ORDER");
    SplitAtJoin(x5, b);
  }

  /** The `FROM` at `i`, after a line break and before one space and a name. */
  lemma KeywordOfShape(s: string, i: nat, v: string)
    requires RefName(v) && 0 < i && i + 5 + |v| <= |s| && s[i - 1] == '\n'
    requires s[i..i + 4] == "FROM" && s[i + 4] == ' ' && s[i + 5..i + 5 + |v|] == v
    ensures KeywordAt(s, i) && SpaceRun(s, i + 4) == 1 && IdentStart(s[i + 5])
  {
    assert s[i + 5] == v[0];
    FromThenName(s, i);
  }

  /**
   * The references of a text that holds, after a line break at `i - 1`, `FROM v`, a line
   * break and `ORDER` up to `e`, with no `f` or `j` before `i` or after `e`.
   */
  lemma RefsAround(s: string, i: nat, v: string, e: nat)
    requires RefName(v) && 0 < i && e == i + 11 + |v| <= |s| && s[i - 1] == '\n'
    requires NoKeywordLetter(s[0..i]) && NoKeywordLetter(s[e..])
    requires s[i..i + 4] == "FROM" && s[i + 4] == ' ' && s[i + 5..i + 5 + |v|] == v
    requires s[i + 5 + |v|] == '\n' && s[i + 6 + |v|..e] == "ORDER"
    requires e == |s| || !IsWordChar(s[e])
    ensures TableRefs(s) == [v]
  {
    NoKeywordNoRefs(s, e);
    SkipNoKeyword(s, 0, i);
    KeywordOfShape(s, i, v);
    NameRun(s, i + 5, v);
    AliasOrder(s, i + 5 + |v|);
    MatchHit(s, i, v, e);
    OneRef(s, i, v, e);
  }

  /**
   * The references of `Shape(a, v, b)`, where `a` ends a line and neither `a` nor `b`
   * holds an `f` or a `j`: the one match is at `FROM`, its name is `v` and it runs on
   * over the alias `ORDER`.
   */
  lemma RefsOfShape(a: string, v: string, b: string)
    requires |a| > 0 && a[|a| - 1] == '\n' && NoKeywordLetter(a) && NoKeywordLetter(b)
    requires RefName(v) && (b == [] || !IsWordChar(b[0]))
    ensures TableRefs(Shape(a, v, b)) == [v]
  {
    var s := Shape(a, v, b);
    ShapeBefore(a, v, b);
    ShapeFrom(a, v, b);
    ShapeView(a, v, b);
    ShapeOrder(a, v, b);
    assert s[|a| - 1] == s[0..|a|][|a| - 1];
    assert b != [] ==> s[|a| + 11 + |v|] == s[|a| + 11 + |v|..][0];
    RefsAround(s, |a|, v, |a| + 11 + |v|);
  }

  // ---------------------------------------------------------------------------
  // `_validate_sql`

  const AllowedView := "bank." + "v_transactions" + "_enriched"

  const Banned: seq<string> := ["information_schema", "pragma", "attach", "copy ", "install ", "load ",
                                "create ", "drop ", "alter ", "update ", "delete ", "insert "]

  const EmptySql := "Empty SQL"
  const OnlyReadMessage := "Only SELECT/WITH allowed"
  const BannedMessage := "Banned keyword detected"
  const OkMessage := "OK"

  datatype Verdict = Verdict(ok: bool, message: string)

  /** `any(b in low for b in banned)`. */
  predicate HasBanned(low: string) {
    exists k :: 0 <= k < |Banned| && ContainsSubstr(low, Banned[k])
  }

  /** A reference `_validate_sql` lets through: the allowed view, in any case. */
  predicate AllowedRef(t: string) {
    Lower(t) == Lower(AllowedView)
  }

  /** `[t for t in refs if t.lower() != ALLOWED_VIEW.lower()]`. */
  function Disallowed(refs: seq<string>): (bad: seq<string>)
    ensures forall t :: t in bad <==> t in refs && !AllowedRef(t)
    ensures |bad| <= |refs|
    ensures bad == [] <==> forall k :: 0 <= k < |refs| ==> AllowedRef(refs[k])
  {
    if refs == [] then []
    else (if AllowedRef(refs[0]) then [] else [refs[0]]) + Disallowed(refs[1..])
  }

  function DisallowedMessage(bad: seq<string>): string {
    "Disallowed " + "table(s) " + "referenced: " + ReprList(bad) + ". Allowed: " + AllowedView
  }

  /** `_validate_sql(sql)`: the first failing check, in order, decides. */
  function ValidateSql(sql: string): (v: Verdict)
    ensures v == Verdict(false, EmptySql) <==> UiValidators.Body(sql) == []
    ensures v == Verdict(false, OnlyReadMessage) <==>
      UiValidators.Body(sql) != [] && !UiValidators.ReadOnlyStart(UiValidators.Body(sql))
    ensures v == Verdict(false, BannedMessage) <==>
      var s := UiValidators.Body(sql);
      s != [] && UiValidators.ReadOnlyStart(s) && HasBanned(Lower(s))
    ensures v.ok <==>
      var s := UiValidators.Body(sql);
      s != [] && UiValidators.ReadOnlyStart(s) && !HasBanned(Lower(s))
      && forall k :: 0 <= k < |TableRefs(s)| ==> AllowedRef(TableRefs(s)[k])
    ensures v.ok ==> v.message == OkMessage
  {
    var s := UiValidators.Body(sql);
    if s == [] then Verdict(false, EmptySql)
    else if !UiValidators.ReadOnlyStart(s) then Verdict(false, OnlyReadMessage)
    else if HasBanned(Lower(s)) then Verdict(false, BannedMessage)
    else
      var bad := Disallowed(TableRefs(s));
      if bad != [] then Verdict(false, DisallowedMessage(bad))
      else Verdict(true, OkMessage)
  }

  // ---------------------------------------------------------------------------
  // The fallback query

  /** The columns the fallback query selects, up to its `FROM`. */
  const SafeColumns := "SELECT " + "TransactionID, " + "TransactionDate, " + "CustomerName, " + "Amount, "
    + "MerchantName, " + "MerchantCategory, " + "City\n"

  /** What follows the alias word `ORDER`. */
  const SafeOrder := " BY " + "TransactionDate " + "DESC, " + "TransactionID " + "DESC\n" + "LIMIT 20"

  /** The stripped text of the fixed query `text2sql` falls back to. */
  const SafeSql := SafeColumns + "FROM" + " " + AllowedView + "\n" + "ORDER" + SafeOrder

  /**
   * Letter facts that rule out every banned entry: no `p`, and none of the pairs
   * `in`, `ta`, `al`, `lo`, `cr`, `et` (in any case) starts at any position.
   */
  predicate Clean(t: string) {
    forall i :: 0 <= i < |t| ==>
      t[i] != 'p' && t[i] != 'P'
      && (i + 1 < |t| ==>
        ((t[i] == 'i' || t[i] == 'I') ==> t[i + 1] != 'n' && t[i + 1] != 'N')
        && ((t[i] == 't' || t[i] == 'T') ==> t[i + 1] != 'a' && t[i + 1] != 'A')
        && ((t[i] == 'a' || t[i] == 'A') ==> t[i + 1] != 'l' && t[i + 1] != 'L')
        && ((t[i] == 'l' || t[i] == 'L') ==> t[i + 1] != 'o' && t[i + 1] != 'O')
        && ((t[i] == 'c' || t[i] == 'C') ==> t[i + 1] != 'r' && t[i + 1] != 'R')
        && ((t[i] == 'e' || t[i] == 'E') ==> t[i + 1] != 't' && t[i + 1] != 'T'))
  }

  /** A character that can open one of the pairs `Clean` excludes. */
  predicate PairStart(c: char) {
    c in "italceITALCE"
  }

  lemma CleanConcat(a: string, b: string)
    requires Clean(a) && Clean(b) && (a == [] || !PairStart(a[|a| - 1]))
    ensures Clean(a + b)
  {
    var t := a + b;
    forall i | 0 <= i < |t| - 1 && i + 1 >= |a| && i < |a|
      ensures !PairStart(t[i])
    {
      assert t[i] == a[|a| - 1];
    }
  }

  lemma LowerCharIs(c: char, l: char)
    requires 'a' <= l <= 'z' && LowerChar(c) == l
    ensures c == l || c == UpperChar(l)
  {
  }

  /** Where `w` occurs in the lower-cased `t`, `t` holds the letters of `w` in either case. */
  lemma PairAt(t: string, w: string, p: nat, m: nat)
    requires m + 1 < |w| && SubstrAt(Lower(t), w, p)
    requires 'a' <= w[m] <= 'z' && 'a' <= w[m + 1] <= 'z'
    ensures p + m + 1 < |t|
    ensures t[p + m] == w[m] || t[p + m] == UpperChar(w[m])
    ensures t[p + m + 1] == w[m + 1] || t[p + m + 1] == UpperChar(w[m + 1])
  {
    MatchAtIndex(Lower(t), p, w, m);
    MatchAtIndex(Lower(t), p, w, m + 1);
    LowerCharIs(t[p + m], w[m]);
    LowerCharIs(t[p + m + 1], w[m + 1]);
  }

  /** A clean text has no banned entry that holds one of the excluded pairs at `m`. */
  lemma CleanPair(t: string, w: string, m: nat)
    requires Clean(t) && m + 1 < |w|
    requires (w[m], w[m + 1]) in {('i', 'n'), ('t', 'a'), ('a', 'l'), ('l', 'o'), ('c', 'r'), ('e', 't')}
    ensures !ContainsSubstr(Lower(t), w)
  {
    ContainsSubstrSpec(Lower(t), w);
    if ContainsSubstr(Lower(t), w) {
      var p :| 0 <= p <= |Lower(t)| && SubstrAt(Lower(t), w, p);
      PairAt(t, w, p, m);
      assert false;
    }
  }

  /** A clean text has no banned entry that holds a `p`. */
  lemma CleanP(t: string, w: string, m: nat)
    requires Clean(t) && m < |w| && w[m] == 'p'
    ensures !ContainsSubstr(Lower(t), w)
  {
    forall i | 0 <= i < |Lower(t)|
      ensures Lower(t)[i] != w[m]
    {
      assert t[i] != 'p' && t[i] != 'P';
    }
    NoSubstrWithoutChar(Lower(t), w, m);
  }

  /** No banned entry occurs in the lower-cased form of a clean text. */
  lemma CleanHasNoBanned(t: string)
    requires Clean(t)
    ensures !HasBanned(Lower(t))
  {
    CleanPair(t, Banned[0], 0);   // information_schema
    CleanP(t, Banned[1], 0);      // pragma
    CleanPair(t, Banned[2], 2);   // attach
    CleanP(t, Banned[3], 2);      // copy
    CleanPair(t, Banned[4], 0);   // install
    CleanPair(t, Banned[5], 0);   // load
    CleanPair(t, Banned[6], 0);   // create
    CleanP(t, Banned[7], 3);      // drop
    CleanPair(t, Banned[8], 0);   // alter
    CleanP(t, Banned[9], 1);      // update
    CleanPair(t, Banned[10], 3);  // delete
    CleanPair(t, Banned[11], 0);  // insert
  }

  // Each piece of the fallback query is clean on its own, and none ends in a letter
  // that opens an excluded pair, so the pieces stay clean when joined.

  lemma CleanPieces0()
    ensures Clean("SELECT ") && Clean("Amount, ")
  {
  }

  lemma CleanPieces1()
    ensures Clean("TransactionID, ")
  {
  }

  lemma CleanPieces2()
    ensures Clean("TransactionDate, ")
  {
  }

  lemma CleanPieces3()
    ensures Clean("CustomerName, ")
  {
  }

  lemma CleanPieces4()
    ensures Clean("MerchantName, ")
  {
  }

  lemma CleanPieces5()
    ensures Clean("MerchantCategory, ")
  {
  }

  lemma CleanPieces6()
    ensures Clean("City\n") && Clean("FROM") && Clean(" ") && Clean("bank.")
  {
  }

  lemma CleanPieces7()
    ensures Clean("v_transactions")
  {
  }

  lemma CleanPieces8()
    ensures Clean("_enriched") && Clean("\n") && Clean("ORDER")
  {
  }

  lemma CleanPieces9()
    ensures Clean(" BY ") && Clean("DESC, ") && Clean("DESC\n")
  {
  }

  lemma CleanPieces10()
    ensures Clean("TransactionDate ")
  {
  }

  lemma CleanPieces11()
    ensures Clean("TransactionID ")
  {
  }

  lemma CleanPieces12()
    ensures Clean("LIMIT 20")
  {
  }

  lemma KeywordFreeColumns()
    ensures NoKeywordLetter("SELECT ")
      && NoKeywordLetter("TransactionID, ")
      && NoKeywordLetter("TransactionDate, ")
      && NoKeywordLetter("CustomerName, ")
      && NoKeywordLetter("Amount, ")
      && NoKeywordLetter("MerchantName, ")
      && NoKeywordLetter("MerchantCategory, ")
      && NoKeywordLetter("City\n")
  {
  }

  lemma KeywordFreeOrder()
    ensures NoKeywordLetter(" BY ")
      && NoKeywordLetter("TransactionDate ")
      && NoKeywordLetter("DESC, ")
      && NoKeywordLetter("TransactionID ")
      && NoKeywordLetter("DESC\n")
      && NoKeywordLetter("LIMIT 20")
  {
  }


  lemma SafeColumnsClean()
    ensures Clean(SafeColumns) && NoKeywordLetter(SafeColumns)
  {
    KeywordFreeColumns();
    CleanPieces0();
    CleanPieces1();
    CleanPieces2();
    CleanPieces3();
    CleanPieces4();
    CleanPieces5();
    CleanPieces6();
    CleanConcat("SELECT ", "TransactionID, ");
    NoKeywordLetterConcat("SELECT ", "TransactionID, ");
    CleanConcat("SELECT " + "TransactionID, ", "TransactionDate, ");
    NoKeywordLetterConcat("SELECT " + "TransactionID, ", "TransactionDate, ");
    CleanConcat("SELECT " + "TransactionID, " + "TransactionDate, ", "CustomerName, ");
    NoKeywordLetterConcat("SELECT " + "TransactionID, " + "TransactionDate, ", "CustomerName, ");
    CleanConcat("SELECT " + "TransactionID, " + "TransactionDate, " + "CustomerName, ", "Amount, ");
    NoKeywordLetterConcat("SELECT " + "TransactionID, " + "TransactionDate, " + "CustomerName, ", "Amount, ");
    CleanConcat("SELECT " + "TransactionID, " + "TransactionDate, " + "CustomerName, " + "Amount, ", "MerchantName, ");
    NoKeywordLetterConcat("SELECT " + "TransactionID, " + "TransactionDate, " + "CustomerName, " + "Amount, ", "MerchantName, ");
    CleanConcat("SELECT " + "TransactionID, " + "TransactionDate, " + "CustomerName, " + "Amount, " + "MerchantName, ", "MerchantCategory, ");
    NoKeywordLetterConcat("SELECT " + "TransactionID, " + "TransactionDate, " + "CustomerName, " + "Amount, " + "MerchantName, ", "MerchantCategory, ");
    CleanConcat("SELECT " + "TransactionID, " + "TransactionDate, " + "CustomerName, " + "Amount, " + "MerchantName, " + "MerchantCategory, ", "City\n");
    NoKeywordLetterConcat("SELECT " + "TransactionID, " + "TransactionDate, " + "CustomerName, " + "Amount, " + "MerchantName, " + "MerchantCategory, ", "City\n");
  }

  lemma AllowedViewClean()
    ensures Clean(AllowedView)
  {
    CleanPieces6();
    CleanPieces7();
    CleanPieces8();
    CleanConcat("bank.", "v_transactions");
    CleanConcat("bank." + "v_transactions", "_enriched");
  }

  lemma SafeOrderClean()
    ensures Clean(SafeOrder) && NoKeywordLetter(SafeOrder)
  {
    KeywordFreeOrder();
    CleanPieces9();
    CleanPieces10();
    CleanPieces11();
    CleanPieces12();
    CleanConcat(" BY ", "TransactionDate ");
    NoKeywordLetterConcat(" BY ", "TransactionDate ");
    CleanConcat(" BY " + "TransactionDate ", "DESC, ");
    NoKeywordLetterConcat(" BY " + "TransactionDate ", "DESC, ");
    CleanConcat(" BY " + "TransactionDate " + "DESC, ", "TransactionID ");
    NoKeywordLetterConcat(" BY " + "TransactionDate " + "DESC, ", "TransactionID ");
    CleanConcat(" BY " + "TransactionDate " + "DESC, " + "TransactionID ", "DESC\n");
    NoKeywordLetterConcat(" BY " + "TransactionDate " + "DESC, " + "TransactionID ", "DESC\n");
    CleanConcat(" BY " + "TransactionDate " + "DESC, " + "TransactionID " + "DESC\n", "LIMIT 20");
    NoKeywordLetterConcat(" BY " + "TransactionDate " + "DESC, " + "TransactionID " + "DESC\n", "LIMIT 20");
  }

  lemma SafeSqlClean()
    ensures Clean(SafeSql)
  {
    SafeColumnsClean();
    AllowedViewClean();
    SafeOrderClean();
    CleanPieces6();
    CleanPieces8();
    CleanConcat(SafeColumns, "FROM");
    CleanConcat(SafeColumns + "FROM", " ");
    CleanConcat(SafeColumns + "FROM" + " ", AllowedView);
    CleanConcat(SafeColumns + "FROM" + " " + AllowedView, "\n");
    CleanConcat(SafeColumns + "FROM" + " " + AllowedView + "\n", "ORDER");
    CleanConcat(SafeColumns + "FROM" + " " + AllowedView + "\n" + "ORDER", SafeOrder);
  }

  lemma SafeSqlEnds()
    ensures |SafeSql| > 7 && SafeSql[0] == 'S' && SafeSql[6] == ' ' && SafeSql[|SafeSql| - 1] == '0'
    ensures SafeSql[..6] == "SELECT"
  {
  }

  /** The fallback query is its own body and opens with the word SELECT. */
  lemma SafeSqlBody()
    ensures UiValidators.Body(SafeSql) == SafeSql && UiValidators.ReadOnlyStart(SafeSql)
  {
    SafeSqlEnds();
    StripNoSpaceEnds(SafeSql);
    RStripCharNoop(SafeSql, ';');
    assert SafeSql == "SELECT" + SafeSql[6..];
    assert "SELECT" + [] == "SELECT";
    StartsWithWordCIReplaceTail("SELECT", [], SafeSql[6..], "select");
  }

  /** Its one table reference is the allowed view. */
  lemma SafeSqlRefs()
    ensures TableRefs(SafeSql) == [AllowedView]
  {
    SafeColumnsClean();
    SafeOrderClean();
    RefsOfShape(SafeColumns, AllowedView, SafeOrder);
  }

  /** The fallback query passes `_validate_sql`. */
  lemma SafeSqlPasses()
    ensures ValidateSql(SafeSql) == Verdict(true, OkMessage)
  {
    SafeSqlBody();
    SafeSqlRefs();
    SafeSqlClean();
    CleanHasNoBanned(SafeSql);
  }

  // ---------------------------------------------------------------------------
  // `_openrouter_chat` and `text2sql`

  const DefaultModel := "openai/gpt-5.1-codex-max"
  const MissingKeyMessage := "Missing OPENROUTER_API_KEY env var"

  /** The network exchange: the reply's message content, or the error it raised. */
  datatype HttpReply = Replied(content: JsonLoose.Content) | HttpFailed(error: string)

  /** What `_openrouter_chat` returns as `obj`, or the text of what it raised. */
  datatype ChatOutcome = ChatObj(obj: JsonLoose.Json) | ChatRaised(error: string)

  /** `_openrouter_chat`: the key check, the exchange, then `_parse_json_loose` of the content. */
  function ChatResult(apiKey: string, reply: HttpReply, loads: string -> JsonLoose.Loaded): ChatOutcome {
    if Strip(apiKey) == [] then ChatRaised(MissingKeyMessage)
    else match reply
      case HttpFailed(e) => ChatRaised(e)
      case Replied(content) =>
        var p := JsonLoose.LooseParse(content, loads);
        if p.Parsed? then ChatObj(p.value) else ChatRaised(p.message)
  }

  method OpenRouterChat(apiKey: string, reply: HttpReply, loads: string -> JsonLoose.Loaded)
    returns (c: ChatOutcome)
    ensures c == ChatResult(apiKey, reply, loads)
    ensures Strip(apiKey) == [] ==> c == ChatRaised(MissingKeyMessage)
    ensures Strip(apiKey) != [] && reply.HttpFailed? ==> c == ChatRaised(reply.error)
    ensures Strip(apiKey) != [] && reply.Replied? ==>
      (c.ChatObj? <==> JsonLoose.LooseParse(reply.content, loads).Parsed?)
  {
    if Strip(apiKey) == [] {
      return ChatRaised(MissingKeyMessage);
    }
    if reply.HttpFailed? {
      return ChatRaised(reply.error);
    }
    var p := JsonLoose.ParseJsonLoose(reply.content, loads);
    if p.Parsed? {
      c := ChatObj(p.value);
    } else {
      c := ChatRaised(p.message);
    }
  }

  /** The `trace` dict: `debug`, `model`, and the keys set later when reached. */
  datatype Trace = Trace(debug: bool, model: string, sqlOk: Option<bool>, sqlCheck: Option<string>,
                         error: Option<string>)

  /** What `text2sql` returns. */
  datatype Generated = Generated(sql: string, answer: string, trace: Trace)

  /** The trimmed model name, `openai/gpt-5.1-codex-max` when the variable is unset. */
  function ModelName(env: Option<string>): string {
    Strip(if env.Some? then env.value else DefaultModel)
  }

  /** What reading one entry of the object gives: its text, or a raised error's message. */
  datatype FieldRead = Read(text: string) | ReadRaised(error: string)

  /** `(obj.get(key) or "").strip()`: the trimmed text, or the message of the `AttributeError` it raises. */
  function FieldText(x: JsonLoose.Entry): FieldRead {
    match x
    case Str(t) => Read(Strip(t))
    case Falsy => Read("")
    case Truthy(typeName) => ReadRaised(NoStripMessage(typeName))
  }

  /** The `AttributeError` that `.strip()` raises on a truthy value that is not a string. */
  function NoStripMessage(typeName: string): string {
    "'" + typeName + "' object has no attribute 'strip'"
  }

  /** The `AttributeError` that `obj.get` raises on a value that is not a dict. */
  function NoGetMessage(typeName: string): string {
    "'" + typeName + "' object has no attribute 'get'"
  }

  function FailedAnswer(e: string): string {
    "AI sorgu üretimi başarısız oldu: " + e + ". Geçici olarak örnek sorgu çalıştırıyorum."
  }

  function RejectedAnswer(msg: string): string {
    "AI sorgusu güvenlik kontrolünden geçmedi (" + msg + "). Güvenli bir sorgu çalıştırıyorum."
  }

  const ProducedAnswer := "Sorgu üretildi."

  /**
   * The error `text2sql` catches while reading the chat outcome, if there is one: the
   * chat's own, the `AttributeError` of `obj.get` on a value that is not a dict, or that
   * of `.strip()` on the `sql` entry and then on the `answer` entry.
   */
  function CaughtError(c: ChatOutcome): Option<string> {
    match c
    case ChatRaised(e) => Some(e)
    case ChatObj(JOther(t)) => Some(NoGetMessage(t))
    case ChatObj(JObject(sql, answer)) =>
      if FieldText(sql).ReadRaised? then Some(FieldText(sql).error)
      else if FieldText(answer).ReadRaised? then Some(FieldText(answer).error)
      else None
  }

  /**
   * Non-string entries: a truthy one such as `1` or `["x"]` in `sql` makes `.strip()`
   * raise, which the handler catches (before `answer` is read); a falsy one such as `0`
   * or `[]` reads as `""`, which `_validate_sql` rejects as empty.
   */
  lemma NonStringEntries(answer: JsonLoose.Entry, typeName: string)
    ensures CaughtError(ChatObj(JsonLoose.JObject(JsonLoose.Truthy(typeName), answer)))
      == Some("'" + typeName + "' object has no attribute 'strip'")
    ensures CaughtError(ChatObj(JsonLoose.JObject(JsonLoose.Falsy, answer))).None? <==> !answer.Truthy?
    ensures FieldText(JsonLoose.Falsy) == Read("") && ValidateSql("") == Verdict(false, EmptySql)
  {
    StripSpec("");
  }

  /**
   * `text2sql(question, role, debug)`, with the environment's model name and key, the
   * network reply and `json.loads` as parameters. Whatever the model and the network
   * do, the SQL it returns passes `_validate_sql`: it is either the model's trimmed SQL,
   * which just passed it, or the fixed fallback query.
   */
  method Text2Sql(debug: bool, modelEnv: Option<string>, apiKey: string, reply: HttpReply,
                  loads: string -> JsonLoose.Loaded)
    returns (r: Generated)
    ensures ValidateSql(r.sql) == Verdict(true, OkMessage)
    ensures r.trace.debug == debug && r.trace.model == ModelName(modelEnv)
    ensures var c := ChatResult(apiKey, reply, loads);
      CaughtError(c).Some? ==>
        r == Generated(SafeSql, FailedAnswer(CaughtError(c).value),
                       Trace(debug, ModelName(modelEnv), None, None, CaughtError(c)))
    ensures var c := ChatResult(apiKey, reply, loads);
      CaughtError(c).None? ==>
        var sql := FieldText(c.obj.sql).text;
        var answer := FieldText(c.obj.answer).text;
        var v := ValidateSql(sql);
        && r.trace == Trace(debug, ModelName(modelEnv), Some(v.ok), Some(v.message), None)
        && (v.ok ==> r.sql == sql && r.answer == (if answer == [] then ProducedAnswer else answer))
        && (!v.ok ==> r.sql == SafeSql && r.answer == RejectedAnswer(v.message))
  {
    var model := ModelName(modelEnv);
    var trace := Trace(debug, model, None, None, None);
    var out := OpenRouterChat(apiKey, reply, loads);
    var caught := CaughtError(out);
    if caught.Some? {
      trace := trace.(error := caught);
      SafeSqlPasses();
      return Generated(SafeSql, FailedAnswer(caught.value), trace);
    }
    var sql := FieldText(out.obj.sql).text;
    var answer := FieldText(out.obj.answer).text;
    var v := ValidateSql(sql);
    trace := trace.(sqlOk := Some(v.ok));
    trace := trace.(sqlCheck := Some(v.message));
    if !v.ok {
      SafeSqlPasses();
      return Generated(SafeSql, RejectedAnswer(v.message), trace);
    }
    r := Generated(sql, if answer == [] then ProducedAnswer else answer, trace);
  }
}

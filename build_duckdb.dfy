/**
 * The text rewriting the database build script applies to its SQL files before
 * executing them (scripts/build_duckdb_from_sql.py): `normalize_sql` runs three
 * `re.sub` passes, collapsing an inline `INT FOREIGN KEY REFERENCES T(c)` to `INT` and
 * qualifying the table of every line-initial `CREATE TABLE` and `INSERT INTO` with the
 * schema `bank`; `split_statements` cuts the script at `;` and keeps the non-empty
 * trimmed pieces.
 *
 * Each pattern is matched greedily, piece by piece. No backtracking is needed: every
 * run of spaces or word characters is followed by something that cannot start with a
 * character of that run, so a shorter run never lets the match go on.
 */
module BuildDuckdb {
  import opened Text
  import opened State

  const Schema := "bank"

  /** Lower-case ASCII letters, as the keywords of the patterns are. */
  predicate Letters(w: string) {
    |w| > 0 && forall i :: 0 <= i < |w| ==> 'a' <= w[i] <= 'z'
  }

  /** The keyword `w`, in any case, at `p`, then `\s+`: the position after the spaces. */
  function KwThenSpaces(s: string, p: nat, w: string): (q: Option<nat>)
    requires p <= |s|
    ensures q.Some? ==> p + |w| < q.value <= |s|
  {
    if p + |w| <= |s| && MatchCI(s, p, w, 0) && SpaceRun(s, p + |w|) > 0 then Some(p + |w| + SpaceRun(s, p + |w|))
    else None
  }

  /** The keywords `ws` in turn, each followed by `\s+`. */
  function KwRun(s: string, p: nat, ws: seq<string>): (q: Option<nat>)
    requires p <= |s|
    ensures q.Some? ==> p <= q.value <= |s|
    decreases |ws|
  {
    if ws == [] then Some(p)
    else match KwThenSpaces(s, p, ws[0])
      case None => None
      case Some(q) => KwRun(s, q, ws[1..])
  }

  /** `\w+` at `p`: the position after the word. */
  function NameEnd(s: string, p: nat): (q: Option<nat>)
    requires p <= |s|
    ensures q.Some? ==> p < q.value <= |s|
  {
    if WordRun(s, p) > 0 then Some(p + WordRun(s, p)) else None
  }

  /** `\s*` and then the character `c`: the position after it. */
  function SpacesThen(s: string, p: nat, c: char): (q: Option<nat>)
    requires p <= |s|
    ensures q.Some? ==> p < q.value <= |s|
  {
    var n := SpaceRun(s, p);
    if p + n < |s| && s[p + n] == c then Some(p + n + 1) else None
  }

  const ForeignKeyWords: seq<string> := ["int", "foreign", "key", "refer" + "ences"]
  const CreateWords: seq<string> := ["create", "table"]
  const InsertWords: seq<string> := ["insert", "into"]

  datatype Hit = Hit(replacement: string, end: nat)

  /** `\bINT\s+FOREIGN\s+KEY\s+REFERENCES\s+\w+\s*\(\s*\w+\s*\)`, ignoring case, at `p`. */
  function MatchForeignKey(s: string, p: nat): (h: Option<Hit>)
    requires p <= |s|
    ensures h.Some? ==> p < h.value.end <= |s|
  {
    if !Boundary(s, p) then None
    else match KwRun(s, p, ForeignKeyWords)
      case None => None
      case Some(q) =>
        match ReferenceEnd(s, q)
        case None => None
        case Some(e) => if p < e then Some(Hit("INT", e)) else None
  }

  /** `\w+\s*\(\s*\w+\s*\)` at `q`: the referenced table and column; the position after the `)`. */
  function ReferenceEnd(s: string, q: nat): (e: Option<nat>)
    requires q <= |s|
    ensures e.Some? ==> q < e.value <= |s|
  {
    match NameEnd(s, q)
    case None => None
    case Some(t) =>
      match SpacesThen(s, t, '(')
      case None => None
      case Some(o) =>
        match NameEnd(s, o + SpaceRun(s, o))
        case None => None
        case Some(c) => SpacesThen(s, c, ')')
  }

  /** `^` under `(?m)`: the start of the text or of a line. */
  predicate LineStart(s: string, p: nat)
    requires p <= |s|
  {
    p == 0 || s[p - 1] == '\n'
  }

  /** `^\s*` and then the keywords `ws`, each followed by `\s+`: the position after them. */
  function LineKeywords(s: string, p: nat, ws: seq<string>): (q: Option<nat>)
    requires p <= |s|
    ensures q.Some? ==> LineStart(s, p) && p <= q.value <= |s|
  {
    if !LineStart(s, p) then None else KwRun(s, p + SpaceRun(s, p), ws)
  }

  /** `^\s*CREATE\s+TABLE\s+(\w+)\s*\(`, ignoring case, at `p`; the replacement qualifies the name. */
  function MatchCreate(s: string, p: nat): (h: Option<Hit>)
    requires p <= |s|
    ensures h.Some? ==> p < h.value.end <= |s|
  {
    match LineKeywords(s, p, CreateWords)
    case None => None
    case Some(q) => CreateName(s, q)
  }

  /** `(\w+)\s*\(` at `q`, after `CREATE TABLE`. */
  function CreateName(s: string, q: nat): (h: Option<Hit>)
    requires q <= |s|
    ensures h.Some? ==> q < h.value.end <= |s|
  {
    match NameEnd(s, q)
    case None => None
    case Some(t) =>
      match SpacesThen(s, t, '(')
      case None => None
      case Some(e) => Some(Hit("CREATE TABLE " + Schema + "." + s[q..t] + " (", e))
  }

  /** `^\s*INSERT\s+INTO\s+(\w+)\b`, ignoring case, at `p`; the final `\b` always holds after a greedy `\w+`. */
  function MatchInsert(s: string, p: nat): (h: Option<Hit>)
    requires p <= |s|
    ensures h.Some? ==> p < h.value.end <= |s|
  {
    match LineKeywords(s, p, InsertWords)
    case None => None
    case Some(q) => InsertName(s, q)
  }

  /** `(\w+)` at `q`, after `INSERT INTO`. */
  function InsertName(s: string, q: nat): (h: Option<Hit>)
    requires q <= |s|
    ensures h.Some? ==> q < h.value.end <= |s|
  {
    match NameEnd(s, q)
    case None => None
    case Some(t) => Some(Hit("INSERT INTO " + Schema + "." + s[q..t], t))
  }

  // ---------------------------------------------------------------------------
  // re.sub

  datatype Rule = ForeignKey | CreateTable | InsertInto

  function MatchRule(r: Rule, s: string, p: nat): (h: Option<Hit>)
    requires p <= |s|
    ensures h.Some? ==> p < h.value.end <= |s|
  {
    match r
    case ForeignKey => MatchForeignKey(s, p)
    case CreateTable => MatchCreate(s, p)
    case InsertInto => MatchInsert(s, p)
  }

  /** The rule's match at every position of `s`, computed on the original text. */
  function Hits(r: Rule, s: string): (hs: seq<Option<Hit>>)
    ensures |hs| == |s| && forall k :: 0 <= k < |s| ==> hs[k] == MatchRule(r, s, k)
    ensures Advancing(hs, |s|)
  {
    seq(|s|, k requires 0 <= k < |s| => MatchRule(r, s, k))
  }

  /** Every match ends after the position it starts at, and within the text. */
  predicate Advancing(hs: seq<Option<Hit>>, n: nat) {
    |hs| == n && forall k :: 0 <= k < n && hs[k].Some? ==> k < hs[k].value.end <= n
  }

  /** `re.sub`'s scan from `p` on: a match is replaced and the scan resumes where it ended. */
  function Scan(hs: seq<Option<Hit>>, s: string, p: nat): string
    requires Advancing(hs, |s|) && p <= |s|
    decreases |s| - p
  {
    if p == |s| then ""
    else match hs[p]
      case Some(h) => h.replacement + Scan(hs, s, h.end)
      case None => [s[p]] + Scan(hs, s, p + 1)
  }

  /** `re.sub(pattern, repl, s)` for one of the three rules. */
  function Sub(r: Rule, s: string): string {
    Scan(Hits(r, s), s, 0)
  }

  /** `normalize_sql`. */
  function NormalizeSql(sql: string): string {
    Sub(InsertInto, Sub(CreateTable, Sub(ForeignKey, sql)))
  }

  // ---------------------------------------------------------------------------
  // Scanning lemmas

  /** Where nothing matches, the scan copies the text. */
  lemma {:induction false} ScanCopies(hs: seq<Option<Hit>>, s: string, p: nat, q: nat)
    requires Advancing(hs, |s|) && p <= q <= |s|
    requires forall k :: p <= k < q ==> hs[k].None?
    ensures Scan(hs, s, p) == s[p..q] + Scan(hs, s, q)
    decreases q - p
  {
    if p < q {
      ScanCopies(hs, s, p + 1, q);
      var tail := Scan(hs, s, q);
      assert s[p..q] == [s[p]] + s[p + 1..q];
      assert [s[p]] + (s[p + 1..q] + tail) == ([s[p]] + s[p + 1..q]) + tail;
    }
  }

  /** A text in which the rule matches nowhere is left as it is. */
  lemma SubIdentity(r: Rule, s: string)
    requires forall k :: 0 <= k < |s| ==> MatchRule(r, s, k).None?
    ensures Sub(r, s) == s
  {
    ScanCopies(Hits(r, s), s, 0, |s|);
  }

  /** One match at `p` and none before it or after it: the text before, the replacement, the text after. */
  lemma ScanOneHit(hs: seq<Option<Hit>>, s: string, p: nat, h: Hit)
    requires Advancing(hs, |s|) && p < |s| && hs[p] == Some(h)
    requires forall k :: 0 <= k < p ==> hs[k].None?
    requires forall k :: h.end <= k < |s| ==> hs[k].None?
    ensures h.end <= |s| && Scan(hs, s, 0) == s[..p] + h.replacement + s[h.end..]
  {
    ScanCopies(hs, s, h.end, |s|);
    var tail := Scan(hs, s, h.end);
    assert tail == s[h.end..] by {
      assert s[h.end..|s|] + "" == s[h.end..];
    }
    assert Scan(hs, s, p) == h.replacement + tail;
    ScanCopies(hs, s, 0, p);
    assert s[0..p] == s[..p];
  }

  /** A text in which the rule matches at `p` and nowhere before it or after the match: that one occurrence is replaced. */
  lemma SubOneMatch(r: Rule, s: string, p: nat, h: Hit)
    requires p < |s| && MatchRule(r, s, p) == Some(h)
    requires forall k :: 0 <= k < p ==> MatchRule(r, s, k).None?
    requires forall k :: h.end <= k < |s| ==> MatchRule(r, s, k).None?
    ensures Sub(r, s) == s[..p] + h.replacement + s[h.end..]
  {
    ScanOneHit(Hits(r, s), s, p, h);
  }

  // ---------------------------------------------------------------------------
  // Piece lemmas

  /** The keywords `ws` at `p`, in any case, each followed by exactly one space. */
  predicate SpacedAt(s: string, p: nat, ws: seq<string>)
    decreases |ws|
  {
    ws == [] || (p + |ws[0]| < |s| && MatchCI(s, p, ws[0], 0) && s[p + |ws[0]|] == ' '
                 && SpacedAt(s, p + |ws[0]| + 1, ws[1..]))
  }

  /** The length of the keywords spelled with one space after each. */
  function SpacedLen(ws: seq<string>): nat {
    if ws == [] then 0 else |ws[0]| + 1 + SpacedLen(ws[1..])
  }

  /** A keyword run spelled with single spaces, in any case, is matched up to its last space. */
  lemma {:induction false} KwRunSpaced(s: string, p: nat, ws: seq<string>)
    requires forall k :: 0 <= k < |ws| ==> Letters(ws[k])
    requires p <= |s| && SpacedAt(s, p, ws)
    requires p + SpacedLen(ws) <= |s| && (p + SpacedLen(ws) == |s| || !IsSpace(s[p + SpacedLen(ws)]))
    ensures KwRun(s, p, ws) == Some(p + SpacedLen(ws))
    decreases |ws|
  {
    if ws != [] {
      var w := ws[0];
      var q := p + |w| + 1;
      if ws[1..] != [] {
        MatchCIIndex(s, q, ws[1], 0);
        assert ws[1..][0] == ws[1];
      }
      SpaceRunIs(s, p + |w|, 1);
      KwRunSpaced(s, q, ws[1..]);
    }
  }

  /** `\w+` at `p` takes exactly the word `w` when a non-word character or the end follows it. */
  lemma NameEndIs(s: string, p: nat, w: string)
    requires p + |w| <= |s| && IsWord(w) && s[p..p + |w|] == w
    requires p + |w| == |s| || !IsWordChar(s[p + |w|])
    ensures NameEnd(s, p) == Some(p + |w|)
  {
    forall j | p <= j < p + |w|
      ensures IsWordChar(s[j])
    {
      assert s[j] == s[p..p + |w|][j - p];
    }
    WordRunIs(s, p, |w|);
  }

  /** `\s*` then `c` at `p`, with `c` right there and not a space. */
  lemma SpacesThenIs(s: string, p: nat, c: char)
    requires p < |s| && s[p] == c && !IsSpace(c)
    ensures SpacesThen(s, p, c) == Some(p + 1)
  {
    SpaceRunIs(s, p, 0);
  }

  /** `\s*` then `c` fails at `p` when a character other than `c` and not a space is there. */
  lemma SpacesThenMiss(s: string, p: nat, c: char)
    requires p < |s| && s[p] != c && !IsSpace(s[p])
    ensures SpacesThen(s, p, c) == None
  {
    SpaceRunIs(s, p, 0);
  }

  lemma ForeignKeyWordsFacts()
    ensures SpacedLen(ForeignKeyWords) == 27
    ensures forall k :: 0 <= k < |ForeignKeyWords| ==> Letters(ForeignKeyWords[k])
  {
    var w := ForeignKeyWords;
    assert w[1..] == ["foreign", "key", "refer" + "ences"];
    assert w[1..][1..] == ["key", "refer" + "ences"];
    assert w[1..][1..][1..] == ["refer" + "ences"];
    assert w[1..][1..][1..][1..] == [];
    assert SpacedLen(w[1..][1..][1..]) == 11;
    assert SpacedLen(w[1..][1..]) == 15;
    assert SpacedLen(w[1..]) == 23;
  }

  lemma CreateWordsFacts()
    ensures SpacedLen(CreateWords) == 13
    ensures forall k :: 0 <= k < |CreateWords| ==> Letters(CreateWords[k])
  {
    assert CreateWords[1..] == ["table"];
    assert CreateWords[1..][1..] == [];
    assert SpacedLen([]) == 0;
  }

  lemma InsertWordsFacts()
    ensures SpacedLen(InsertWords) == 12
    ensures forall k :: 0 <= k < |InsertWords| ==> Letters(InsertWords[k])
  {
    assert InsertWords[1..] == ["into"];
    assert InsertWords[1..][1..] == [];
    assert SpacedLen([]) == 0;
  }

  /** After indentation of `n` spaces, the keywords `ws` spelled with single spaces end at `p + n + SpacedLen(ws)`. */
  lemma IndentedKwRun(s: string, p: nat, n: nat, ws: seq<string>)
    requires p + n <= |s|
    requires forall j :: p <= j < p + n ==> IsSpace(s[j])
    requires |ws| > 0 && forall k :: 0 <= k < |ws| ==> Letters(ws[k])
    requires SpacedAt(s, p + n, ws)
    requires p + n + SpacedLen(ws) < |s| && !IsSpace(s[p + n + SpacedLen(ws)])
    ensures SpaceRun(s, p) == n
    ensures KwRun(s, p + n, ws) == Some(p + n + SpacedLen(ws))
  {
    assert Letters(ws[0]);
    MatchCIIndex(s, p + n, ws[0], 0);
    SpaceRunIs(s, p, n);
    KwRunSpaced(s, p + n, ws);
  }

  /** The same at the start of a line, where the anchor `^` holds. */
  lemma IndentedLineKeywords(s: string, p: nat, n: nat, ws: seq<string>, len: nat)
    requires p + n <= |s| && LineStart(s, p) && len == SpacedLen(ws)
    requires forall j :: p <= j < p + n ==> IsSpace(s[j])
    requires |ws| > 0 && forall k :: 0 <= k < |ws| ==> Letters(ws[k])
    requires SpacedAt(s, p + n, ws)
    requires p + n + len < |s| && !IsSpace(s[p + n + len])
    ensures LineKeywords(s, p, ws) == Some(p + n + len)
  {
    IndentedKwRun(s, p, n, ws);
  }

  /** Off the start of a line nothing matches the anchored keywords. */
  lemma NotLineStartNoKeywords(s: string, p: nat, ws: seq<string>)
    requires p <= |s| && !LineStart(s, p)
    ensures LineKeywords(s, p, ws) == None
  {
  }

  // ---------------------------------------------------------------------------
  // Properties of the rules

  /**
   * `INT FOREIGN KEY REFERENCES T(c)` in any case, with single spaces and a word
   * boundary before it, is replaced as a whole by `INT`.
   */
  lemma ForeignKeyCollapses(s: string, p: nat, t: string, c: string)
    requires p <= |s| && (p == 0 || !IsWordChar(s[p - 1])) && SpacedAt(s, p, ForeignKeyWords)
    requires IsWord(t) && IsWord(c)
    requires var q := p + 27;
      q + |t| + |c| + 2 <= |s| && s[q..q + |t|] == t && s[q + |t|] == '('
      && s[q + |t| + 1..q + |t| + 1 + |c|] == c && s[q + |t| + 1 + |c|] == ')'
    ensures MatchRule(ForeignKey, s, p) == Some(Hit("INT", p + 27 + |t| + |c| + 2))
  {
    var q := p + 27;
    assert s[q] == s[q..q + |t|][0];
    ForeignKeyKeywords(s, p);
    ReferenceIs(s, q, t, c);
    ForeignKeyHit(s, p, q, q + |t| + |c| + 2);
  }

  /** In a text holding no other match, `re.sub` replaces that foreign-key clause by `INT` and keeps the rest. */
  lemma ForeignKeyReplaced(s: string, p: nat, t: string, c: string)
    requires p <= |s| && (p == 0 || !IsWordChar(s[p - 1])) && SpacedAt(s, p, ForeignKeyWords)
    requires IsWord(t) && IsWord(c)
    requires var q := p + 27;
      q + |t| + |c| + 2 <= |s| && s[q..q + |t|] == t && s[q + |t|] == '('
      && s[q + |t| + 1..q + |t| + 1 + |c|] == c && s[q + |t| + 1 + |c|] == ')'
    requires forall k :: 0 <= k < p ==> MatchRule(ForeignKey, s, k).None?
    requires forall k :: p + 27 + |t| + |c| + 2 <= k < |s| ==> MatchRule(ForeignKey, s, k).None?
    ensures Sub(ForeignKey, s) == s[..p] + "INT" + s[p + 27 + |t| + |c| + 2..]
  {
    ForeignKeyCollapses(s, p, t, c);
    SubOneMatch(ForeignKey, s, p, Hit("INT", p + 27 + |t| + |c| + 2));
  }

  lemma ForeignKeyKeywords(s: string, p: nat)
    requires p + 27 < |s| && SpacedAt(s, p, ForeignKeyWords) && !IsSpace(s[p + 27])
    requires p == 0 || !IsWordChar(s[p - 1])
    ensures KwRun(s, p, ForeignKeyWords) == Some(p + 27)
    ensures Boundary(s, p)
  {
    MatchCIIndex(s, p, ForeignKeyWords[0], 0);
    ForeignKeyWordsFacts();
    KwRunSpaced(s, p, ForeignKeyWords);
  }

  lemma ForeignKeyHit(s: string, p: nat, q: nat, e: nat)
    requires p <= q <= |s| && Boundary(s, p)
    requires KwRun(s, p, ForeignKeyWords) == Some(q) && ReferenceEnd(s, q) == Some(e)
    ensures MatchRule(ForeignKey, s, p) == Some(Hit("INT", e))
  {
  }

  /** `t(c)` at `q`, both plain words, is a reference ending after the `)`. */
  lemma ReferenceIs(s: string, q: nat, t: string, c: string)
    requires IsWord(t) && IsWord(c) && q + |t| + |c| + 2 <= |s|
    requires s[q..q + |t|] == t && s[q + |t|] == '('
    requires s[q + |t| + 1..q + |t| + 1 + |c|] == c && s[q + |t| + 1 + |c|] == ')'
    ensures ReferenceEnd(s, q) == Some(q + |t| + |c| + 2)
  {
    var o := q + |t| + 1;
    NameEndIs(s, q, t);
    SpacesThenIs(s, o - 1, '(');
    assert s[o] == s[o..o + |c|][0];
    SpaceRunIs(s, o, 0);
    NameEndIs(s, o, c);
    SpacesThenIs(s, o + |c|, ')');
  }

  /**
   * A line-initial `CREATE TABLE name (`, in any case, after any indentation, becomes
   * `CREATE TABLE bank.name (`; the indentation is consumed.
   */
  lemma CreateQualifies(s: string, p: nat, n: nat, name: string)
    requires p + n <= |s| && LineStart(s, p) && IsWord(name)
    requires forall j :: p <= j < p + n ==> IsSpace(s[j])
    requires SpacedAt(s, p + n, CreateWords)
    requires var q := p + n + 13; q + |name| < |s| && s[q..q + |name|] == name && s[q + |name|] == '('
    ensures MatchRule(CreateTable, s, p) == Some(Hit("CREATE TABLE " + Schema + "." + name + " (", p + n + 13 + |name| + 1))
  {
    var q := p + n + 13;
    assert s[q] == s[q..q + |name|][0];
    CreateKeywords(s, p, n, q + |name|);
    CreateNameIs(s, q, name);
  }

  /** In a text holding no other match, `re.sub` rewrites that header to `CREATE TABLE bank.name (` and keeps the rest. */
  lemma CreateReplaced(s: string, p: nat, n: nat, name: string)
    requires p + n <= |s| && LineStart(s, p) && IsWord(name)
    requires forall j :: p <= j < p + n ==> IsSpace(s[j])
    requires SpacedAt(s, p + n, CreateWords)
    requires var q := p + n + 13; q + |name| < |s| && s[q..q + |name|] == name && s[q + |name|] == '('
    requires forall k :: 0 <= k < p ==> MatchRule(CreateTable, s, k).None?
    requires forall k :: p + n + 13 + |name| + 1 <= k < |s| ==> MatchRule(CreateTable, s, k).None?
    ensures Sub(CreateTable, s) == s[..p] + ("CREATE TABLE " + Schema + "." + name + " (") + s[p + n + 13 + |name| + 1..]
  {
    CreateQualifies(s, p, n, name);
    SubOneMatch(CreateTable, s, p, Hit("CREATE TABLE " + Schema + "." + name + " (", p + n + 13 + |name| + 1));
  }

  /** The keywords of a line-initial `CREATE TABLE` after `n` spaces of indentation. */
  lemma CreateKeywords(s: string, p: nat, n: nat, t: nat)
    requires p + n <= |s| && p + n + 13 < t <= |s| && LineStart(s, p)
    requires forall j :: p <= j < p + n ==> IsSpace(s[j])
    requires SpacedAt(s, p + n, CreateWords) && IsWordChar(s[p + n + 13])
    ensures LineKeywords(s, p, CreateWords) == Some(p + n + 13)
  {
    CreateWordsFacts();
    IndentedLineKeywords(s, p, n, CreateWords, 13);
  }

  /** A plain word and `(` right after it: the qualified `CREATE TABLE` header. */
  lemma CreateNameIs(s: string, q: nat, name: string)
    requires IsWord(name) && q + |name| < |s| && s[q..q + |name|] == name && s[q + |name|] == '('
    ensures CreateName(s, q) == Some(Hit("CREATE TABLE " + Schema + "." + name + " (", q + |name| + 1))
  {
    NameEndIs(s, q, name);
    SpacesThenIs(s, q + |name|, '(');
  }

  /** A schema-qualified name, `CREATE TABLE a.b (`, is not matched: the rule leaves it alone. */
  lemma CreateSkipsDotted(s: string, p: nat, n: nat, a: string)
    requires p + n <= |s| && IsWord(a)
    requires forall j :: p <= j < p + n ==> IsSpace(s[j])
    requires SpacedAt(s, p + n, CreateWords)
    requires var q := p + n + 13; q + |a| < |s| && s[q..q + |a|] == a && s[q + |a|] == '.'
    ensures MatchRule(CreateTable, s, p) == None
  {
    if LineStart(s, p) {
      var q := p + n + 13;
      assert s[q] == s[q..q + |a|][0];
      CreateKeywords(s, p, n, q + |a|);
      CreateNameDotted(s, q, a);
    } else {
      NotLineStartNoKeywords(s, p, CreateWords);
    }
  }

  /** A word followed by `.` is no `CREATE TABLE` header. */
  lemma CreateNameDotted(s: string, q: nat, a: string)
    requires IsWord(a) && q + |a| < |s| && s[q..q + |a|] == a && s[q + |a|] == '.'
    ensures CreateName(s, q) == None
  {
    NameEndIs(s, q, a);
    SpacesThenMiss(s, q + |a|, '(');
  }

  /**
   * A line-initial `INSERT INTO name`, in any case, after any indentation, becomes
   * `INSERT INTO bank.name`.
   */
  lemma InsertQualifies(s: string, p: nat, n: nat, name: string)
    requires p + n <= |s| && LineStart(s, p) && IsWord(name)
    requires forall j :: p <= j < p + n ==> IsSpace(s[j])
    requires SpacedAt(s, p + n, InsertWords)
    requires var q := p + n + 12;
      q + |name| <= |s| && s[q..q + |name|] == name && (q + |name| == |s| || !IsWordChar(s[q + |name|]))
    ensures MatchRule(InsertInto, s, p) == Some(Hit("INSERT INTO " + Schema + "." + name, p + n + 12 + |name|))
  {
    var q := p + n + 12;
    assert s[q] == s[q..q + |name|][0];
    InsertKeywords(s, p, n, q + |name|);
    InsertNameIs(s, q, name);
  }

  /** In a text holding no other match, `re.sub` rewrites that target to `INSERT INTO bank.name` and keeps the rest. */
  lemma InsertReplaced(s: string, p: nat, n: nat, name: string)
    requires p + n <= |s| && LineStart(s, p) && IsWord(name)
    requires forall j :: p <= j < p + n ==> IsSpace(s[j])
    requires SpacedAt(s, p + n, InsertWords)
    requires var q := p + n + 12;
      q + |name| <= |s| && s[q..q + |name|] == name && (q + |name| == |s| || !IsWordChar(s[q + |name|]))
    requires forall k :: 0 <= k < p ==> MatchRule(InsertInto, s, k).None?
    requires forall k :: p + n + 12 + |name| <= k < |s| ==> MatchRule(InsertInto, s, k).None?
    ensures Sub(InsertInto, s) == s[..p] + ("INSERT INTO " + Schema + "." + name) + s[p + n + 12 + |name|..]
  {
    InsertQualifies(s, p, n, name);
    SubOneMatch(InsertInto, s, p, Hit("INSERT INTO " + Schema + "." + name, p + n + 12 + |name|));
  }

  /** The keywords of a line-initial `INSERT INTO` after `n` spaces of indentation. */
  lemma InsertKeywords(s: string, p: nat, n: nat, t: nat)
    requires p + n <= |s| && p + n + 12 < t <= |s| && LineStart(s, p)
    requires forall j :: p <= j < p + n ==> IsSpace(s[j])
    requires SpacedAt(s, p + n, InsertWords) && IsWordChar(s[p + n + 12])
    ensures LineKeywords(s, p, InsertWords) == Some(p + n + 12)
  {
    InsertWordsFacts();
    IndentedLineKeywords(s, p, n, InsertWords, 12);
  }

  /** A plain word that a non-word character or the end follows: the qualified insert target. */
  lemma InsertNameIs(s: string, q: nat, name: string)
    requires IsWord(name) && q + |name| <= |s| && s[q..q + |name|] == name
    requires q + |name| == |s| || !IsWordChar(s[q + |name|])
    ensures InsertName(s, q) == Some(Hit("INSERT INTO " + Schema + "." + name, q + |name|))
  {
    NameEndIs(s, q, name);
  }

  /**
   * Not idempotent: the insert rule applied to its own output qualifies the name again,
   * `INSERT INTO bank.x` becoming `INSERT INTO bank.bank.x`.
   */
  lemma InsertRequalifies(s: string, name: string)
    requires IsWord(name) && s == "INSERT INTO " + Schema + "." + name
    ensures Sub(InsertInto, s) == "INSERT INTO " + Schema + "." + Schema + "." + name
  {
    var hs := Hits(InsertInto, s);
    QualifiedInsertHit(s, name);
    QualifiedInsertRest(s, name);
    ScanHitThenCopies(hs, s, Hit("INSERT INTO " + Schema + "." + Schema, 16));
    assert s[16..] == "." + name;
    assert ("INSERT INTO " + Schema + "." + Schema) + ("." + name) == "INSERT INTO " + Schema + "." + Schema + "." + name;
  }

  /** One match at the start and none after it: its replacement, then the rest copied. */
  lemma ScanHitThenCopies(hs: seq<Option<Hit>>, s: string, h: Hit)
    requires Advancing(hs, |s|) && |s| > 0 && hs[0] == Some(h)
    requires forall k :: h.end <= k < |s| ==> hs[k].None?
    ensures h.end <= |s| && Scan(hs, s, 0) == h.replacement + s[h.end..]
  {
    ScanCopies(hs, s, h.end, |s|);
    assert s[h.end..|s|] + "" == s[h.end..];
  }

  /** The output of the insert rule starts with a match of the rule, on `bank` as the name. */
  lemma QualifiedInsertHit(s: string, name: string)
    requires IsWord(name) && s == "INSERT INTO " + Schema + "." + name
    ensures MatchRule(InsertInto, s, 0) == Some(Hit("INSERT INTO " + Schema + "." + Schema, 16))
  {
    assert s[..17] == "INSERT INTO " + "bank.";
    assert s[..12] == s[..17][..12];
    SpacedInsert(s);
    assert s[12..16] == Schema;
    InsertQualifies(s, 0, 0, Schema);
  }

  /** A text that opens with `INSERT INTO ` spells the keywords with single spaces. */
  lemma SpacedInsert(s: string)
    requires |s| > 12 && s[..12] == "INSERT INTO "
    ensures SpacedAt(s, 0, InsertWords)
  {
    InsertWordsFacts();
    assert forall k :: 0 <= k < 12 ==> s[k] == s[..12][k];
    assert SpacedAt(s, 12, []);
    assert SpacedAt(s, 7, InsertWords[1..]);
  }

  /** After the start, no position of the insert rule's output begins a line. */
  lemma QualifiedInsertRest(s: string, name: string)
    requires IsWord(name) && s == "INSERT INTO " + Schema + "." + name
    ensures forall k :: 16 <= k < |s| ==> MatchRule(InsertInto, s, k).None?
  {
    forall k | 16 <= k < |s|
      ensures !LineStart(s, k)
    {
      if k - 1 < 17 {
        assert s[..17] == "INSERT INTO " + "bank.";
        assert s[k - 1] == s[..17][k - 1];
      } else {
        assert s[k - 1] == name[k - 18];
      }
    }
  }

  // ---------------------------------------------------------------------------
  // split_statements

  /** The stripped pieces that are not empty, in order. */
  function Kept(parts: seq<string>): (ps: seq<string>)
    ensures |ps| <= |parts|
  {
    if parts == [] then []
    else (if Strip(parts[0]) != "" then [Strip(parts[0])] else []) + Kept(parts[1..])
  }

  /** `split_statements`. */
  function SplitStatements(sql: string): seq<string> {
    Kept(Split(sql, ';'))
  }

  /** A split has one piece more than the text has separators. */
  lemma {:induction false} SplitCount(s: string, c: char)
    ensures |Split(s, c)| == Count(s, c) + 1
    decreases |s|
  {
    var i := IndexOf(s, c);
    CountPrefixFree(s, c, i);
    if i < |s| {
      SplitCount(s[i + 1..], c);
    }
  }

  /** Counting after a prefix free of `c`, and past one `c` when it follows. */
  lemma {:induction false} CountPrefixFree(s: string, c: char, i: nat)
    requires i <= |s| && forall k :: 0 <= k < i ==> s[k] != c
    ensures Count(s, c) == Count(s[i..], c)
    ensures i < |s| && s[i] == c ==> Count(s, c) == 1 + Count(s[i + 1..], c)
    decreases i
  {
    if i > 0 {
      CountPrefixFree(s[1..], c, i - 1);
      assert s[1..][i - 1..] == s[i..];
    }
    if i < |s| && s[i] == c {
      assert s[i..][1..] == s[i + 1..];
    }
  }

  /** Every kept piece is non-empty, has no surrounding whitespace and no `;`. */
  lemma {:induction false} KeptShape(parts: seq<string>)
    requires forall k :: 0 <= k < |parts| ==> ';' !in parts[k]
    ensures forall k :: 0 <= k < |Kept(parts)| ==>
      var p := Kept(parts)[k]; p != "" && Strip(p) == p && ';' !in p
  {
    if parts != [] {
      KeptShape(parts[1..]);
      var x := parts[0];
      StripSpec(x);
      StripIdempotent(x);
    }
  }

  /**
   * The statements are non-empty, trimmed and free of `;`, and there are at most as
   * many as the script has `;` plus one.
   */
  lemma SplitStatementsShape(sql: string)
    ensures var ps := SplitStatements(sql);
      |ps| <= Count(sql, ';') + 1
      && forall k :: 0 <= k < |ps| ==> ps[k] != "" && Strip(ps[k]) == ps[k] && ';' !in ps[k]
  {
    SplitCount(sql, ';');
    SplitPiecesFree(sql, ';');
    KeptShape(Split(sql, ';'));
  }

  /** The first `c` of `a + b` is the first of `a`, or comes after all of `a`. */
  lemma {:induction false} IndexOfConcat(a: string, b: string, c: char)
    ensures IndexOf(a + b, c) == (if IndexOf(a, c) < |a| then IndexOf(a, c) else |a| + IndexOf(b, c))
    decreases |a|
  {
    if a != [] {
      assert (a + b)[0] == a[0];
      if a[0] != c {
        assert (a + b)[1..] == a[1..] + b;
        IndexOfConcat(a[1..], b, c);
      }
    } else {
      assert a + b == b;
    }
  }

  /** A split at a first separator `i`: the piece before it, then the split of the rest. */
  lemma SplitHead(s: string, c: char, i: nat)
    requires i == IndexOf(s, c) < |s|
    ensures Split(s, c) == [s[..i]] + Split(s[i + 1..], c)
  {
  }

  lemma SplitNone(s: string, c: char)
    requires IndexOf(s, c) == |s|
    ensures Split(s, c) == [s]
  {
  }

  /** The first separator of `a + [c] + b` is the first of `a`, or the one after `a`. */
  lemma IndexOfSeparated(a: string, b: string, c: char)
    ensures IndexOf(a + [c] + b, c) == (if IndexOf(a, c) < |a| then IndexOf(a, c) else |a|)
  {
    assert a + [c] + b == a + ([c] + b);
    IndexOfConcat(a, [c] + b, c);
    assert ([c] + b)[0] == c;
  }

  /** Where the pieces of `a + [c] + b` sit around a position `i` of `a`. */
  lemma JoinSlices(a: string, b: string, c: char, i: nat)
    requires i < |a|
    ensures (a + [c] + b)[..i] == a[..i] && (a + [c] + b)[i + 1..] == a[i + 1..] + [c] + b
  {
  }

  lemma {:induction false} SplitConcat(a: string, b: string, c: char)
    ensures Split(a + [c] + b, c) == Split(a, c) + Split(b, c)
    decreases |a|
  {
    var i := IndexOf(a, c);
    if i < |a| {
      SplitConcatStep(a, b, c);
      SplitConcat(a[i + 1..], b, c);
      Assoc([a[..i]], Split(a[i + 1..], c), Split(b, c));
    } else {
      SplitConcatLast(a, b, c);
    }
  }

  /** A separator inside `a` splits `a + [c] + b` there first. */
  lemma SplitConcatStep(a: string, b: string, c: char)
    requires IndexOf(a, c) < |a|
    ensures var i := IndexOf(a, c);
      && Split(a + [c] + b, c) == [a[..i]] + Split(a[i + 1..] + [c] + b, c)
      && Split(a, c) == [a[..i]] + Split(a[i + 1..], c)
  {
    var i := IndexOf(a, c);
    IndexOfSeparated(a, b, c);
    SplitHead(a + [c] + b, c, i);
    SplitHead(a, c, i);
    JoinSlices(a, b, c, i);
  }

  /** Without a separator in `a`, the first piece of `a + [c] + b` is `a`. */
  lemma SplitConcatLast(a: string, b: string, c: char)
    requires IndexOf(a, c) == |a|
    ensures Split(a + [c] + b, c) == [a] + Split(b, c) && Split(a, c) == [a]
  {
    var s := a + [c] + b;
    IndexOfSeparated(a, b, c);
    SplitHead(s, c, |a|);
    SplitNone(a, c);
    assert s[..|a|] == a && s[|a| + 1..] == b;
  }

  lemma {:induction false} KeptConcat(x: seq<string>, y: seq<string>)
    ensures Kept(x + y) == Kept(x) + Kept(y)
    decreases |x|
  {
    if x != [] {
      var h := if Strip(x[0]) != "" then [Strip(x[0])] else [];
      KeptHead(x, y);
      KeptConcat(x[1..], y);
      Assoc(h, Kept(x[1..]), Kept(y));
    } else {
      assert x + y == y;
    }
  }

  /** The first part of `x + y` is that of `x`, and the rest is `x[1..] + y`. */
  lemma KeptHead(x: seq<string>, y: seq<string>)
    requires x != []
    ensures Kept(x + y) == (if Strip(x[0]) != "" then [Strip(x[0])] else []) + Kept(x[1..] + y)
  {
    assert (x + y)[0] == x[0];
    assert (x + y)[1..] == x[1..] + y;
  }

  lemma Assoc(x: seq<string>, u: seq<string>, v: seq<string>)
    ensures x + (u + v) == (x + u) + v
  {
  }

  /** Statements keep the order of the script: those before a `;` come first. */
  lemma SplitStatementsConcat(a: string, b: string)
    ensures SplitStatements(a + ";" + b) == SplitStatements(a) + SplitStatements(b)
  {
    SplitConcat(a, b, ';');
    KeptConcat(Split(a, ';'), Split(b, ';'));
  }

  /** Joining well-formed statements with `;` and splitting gives them back. */
  lemma {:induction false} SplitJoinStatements(ps: seq<string>)
    requires forall k :: 0 <= k < |ps| ==> ps[k] != "" && Strip(ps[k]) == ps[k] && ';' !in ps[k]
    ensures SplitStatements(Join(";", ps)) == ps
    decreases |ps|
  {
    if ps != [] {
      var p := ps[0];
      assert IndexOf(p, ';') == |p|;
      assert SplitStatements(p) == [p];
      if |ps| > 1 {
        SplitJoinStatements(ps[1..]);
        SplitStatementsConcat(p, Join(";", ps[1..]));
      }
    }
  }
}

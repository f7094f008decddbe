/**
 * Texts cut into words and separators. A fixed SQL template or message is a list of
 * such pieces; what the word-boundary patterns find in the whole text then follows
 * from cheap facts about the pieces, one at a time.
 */
module PieceText {
  import opened Text

  datatype Pieces = Nil | Cons(head: string, tail: Pieces)

  /** The text the pieces spell. */
  function Concat(ps: Pieces): string {
    if ps.Nil? then "" else ps.head + Concat(ps.tail)
  }

  function App(a: Pieces, b: Pieces): Pieces {
    if a.Nil? then b else Cons(a.head, App(a.tail, b))
  }

  function Last(ps: Pieces): string
    requires ps.Cons?
  {
    if ps.tail.Nil? then ps.head else Last(ps.tail)
  }

  /** A piece that opens with a word character (for a well-split piece: a word). */
  predicate WordPiece(p: string) {
    p != [] && IsWordChar(p[0])
  }

  /** Every piece is a word or a separator, and no two words are side by side. */
  predicate WellSplit(ps: Pieces) {
    ps.Nil? ||
    ((if WordPiece(ps.head) then IsWord(ps.head) else IsSeparator(ps.head))
     && (ps.tail.Cons? && WordPiece(ps.head) ==> !WordPiece(ps.tail.head))
     && WellSplit(ps.tail))
  }

  /** Some piece equals `w` up to case. */
  predicate HasPiece(ps: Pieces, w: string) {
    ps.Cons? && (SameWordCI(ps.head, w) || HasPiece(ps.tail, w))
  }

  /** Some piece equals one of `ws` up to case. */
  predicate HasAnyPiece(ps: Pieces, ws: seq<string>) {
    exists k :: 0 <= k < |ws| && HasPiece(ps, ws[k])
  }

  /** No piece contains the character `c`. */
  predicate NoChar(ps: Pieces, c: char) {
    ps.Nil? || (c !in ps.head && NoChar(ps.tail, c))
  }

  // ---------------------------------------------------------------------------

  lemma {:induction false} ConcatApp(a: Pieces, b: Pieces)
    ensures Concat(App(a, b)) == Concat(a) + Concat(b)
  {
    if a.Cons? {
      ConcatApp(a.tail, b);
    }
  }

  lemma {:induction false} LastApp(a: Pieces, b: Pieces)
    requires b.Cons?
    ensures App(a, b).Cons? && Last(App(a, b)) == Last(b)
  {
    if a.Cons? {
      LastApp(a.tail, b);
    }
  }

  lemma {:induction false} WellSplitApp(a: Pieces, b: Pieces)
    requires WellSplit(a) && WellSplit(b)
    requires a.Nil? || b.Nil? || !WordPiece(Last(a)) || !WordPiece(b.head)
    ensures WellSplit(App(a, b))
  {
    if a.Cons? {
      WellSplitApp(a.tail, b);
    }
  }

  lemma {:induction false} HasPieceApp(a: Pieces, b: Pieces, w: string)
    ensures HasPiece(App(a, b), w) <==> HasPiece(a, w) || HasPiece(b, w)
  {
    if a.Cons? {
      HasPieceApp(a.tail, b, w);
    }
  }

  lemma HasAnyPieceApp(a: Pieces, b: Pieces, ws: seq<string>)
    ensures HasAnyPiece(App(a, b), ws) <==> HasAnyPiece(a, ws) || HasAnyPiece(b, ws)
  {
    forall k | 0 <= k < |ws|
      ensures HasPiece(App(a, b), ws[k]) <==> HasPiece(a, ws[k]) || HasPiece(b, ws[k])
    {
      HasPieceApp(a, b, ws[k]);
    }
  }

  lemma {:induction false} NoCharApp(a: Pieces, b: Pieces, c: char)
    requires NoChar(a, c) && NoChar(b, c)
    ensures NoChar(App(a, b), c)
  {
    if a.Cons? {
      NoCharApp(a.tail, b, c);
    }
  }

  /** A separator is never equal to a word. */
  lemma SeparatorNotWord(p: string, w: string)
    requires IsSeparator(p) && IsWord(w)
    ensures !SameWordCI(p, w)
  {
    if SameWordCI(p, w) {
      MatchCIIndex(p, 0, w, 0);
      LowerCharWord(p[0]);
      LowerCharWord(w[0]);
      assert false;
    }
  }

  /** A text of well-split pieces contains the word `w` exactly when some piece is `w`. */
  lemma {:induction false} WordInPieces(ps: Pieces, w: string)
    requires WellSplit(ps) && IsWord(w)
    ensures ContainsWordCI(Concat(ps), w) <==> HasPiece(ps, w)
  {
    if ps.Nil? {
      ContainsWordCISpec("", w);
    } else {
      WordInPieces(ps.tail, w);
      if ps.tail.Cons? {
        var rest := Concat(ps.tail);
        assert rest == ps.tail.head + Concat(ps.tail.tail);
        assert rest[0] == ps.tail.head[0];
        ContainsWordCIConcat(ps.head, rest, w);
      } else {
        assert ps.head + "" == ps.head;
      }
      if IsWord(ps.head) {
        WordInToken(ps.head, w);
      } else {
        NoWordInNonWordText(ps.head, w);
        SeparatorNotWord(ps.head, w);
      }
    }
  }

  /** The alternation version of `WordInPieces`. */
  lemma AnyWordInPieces(ps: Pieces, ws: seq<string>)
    requires WellSplit(ps) && forall k :: 0 <= k < |ws| ==> IsWord(ws[k])
    ensures ContainsAnyWordCI(Concat(ps), ws) <==> HasAnyPiece(ps, ws)
  {
    forall k | 0 <= k < |ws|
      ensures ContainsWordCI(Concat(ps), ws[k]) <==> HasPiece(ps, ws[k])
    {
      WordInPieces(ps, ws[k]);
    }
  }

  /** A text of well-split pieces opening with a word starts with the word `w` exactly when that piece is `w`. */
  lemma StartsWithWordInPieces(ps: Pieces, w: string)
    requires WellSplit(ps) && IsWord(w) && ps.Cons? && IsWord(ps.head)
    ensures StartsWithWordCI(Concat(ps), w) <==> SameWordCI(ps.head, w)
  {
    var rest := Concat(ps.tail);
    if ps.tail.Cons? {
      assert rest == ps.tail.head + Concat(ps.tail.tail);
      assert rest[0] == ps.tail.head[0];
    }
    StartsWithWordToken(ps.head, rest, w);
  }

  lemma {:induction false} NoCharConcat(ps: Pieces, c: char)
    requires NoChar(ps, c)
    ensures forall j :: 0 <= j < |Concat(ps)| ==> Concat(ps)[j] != c
  {
    if ps.Cons? {
      NoCharConcat(ps.tail, c);
    }
  }

  /** The text opens with the first piece's first character and closes with the last piece's last one. */
  lemma ConcatEnds(ps: Pieces)
    requires ps.Cons? && ps.head != [] && Last(ps) != []
    ensures |Concat(ps)| > 0 && Concat(ps)[0] == ps.head[0]
    ensures Concat(ps)[|Concat(ps)| - 1] == Last(ps)[|Last(ps)| - 1]
  {
    ConcatEndsLast(ps);
  }

  lemma {:induction false} ConcatEndsLast(ps: Pieces)
    requires ps.Cons? && Last(ps) != []
    ensures |Concat(ps)| > 0 && Concat(ps)[|Concat(ps)| - 1] == Last(ps)[|Last(ps)| - 1]
  {
    if ps.tail.Cons? {
      ConcatEndsLast(ps.tail);
    }
  }
}

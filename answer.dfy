/**
 * The answer node: composes the final message by a fixed priority
 * (src/text2sql/nodes/answer.py).
 */
module AnswerNode {
  import opened Text
  import opened State
  import opened PyRepr

  const DeniedPrefix := "İstek reddedildi: "
  const ClarifyFallback := "Daha net yazar mısın?"
  const TablesWord := "tablolar"
  const MetadataPrefix := "Mevcut " + TablesWord + ": "
  const MetadataMiddle := ". Örnek kolonlar: "
  const SqlFailedPrefix := "SQL doğrulanamadı: "
  const SqlDonePrefix := "SQL çalıştırıldı. Sonuç özeti: "
  const SecurityWord := "güvenlik"
  const RefuseMessage := "Bu isteği " + SecurityWord + " nedeniyle yerine getiremiyorum."
  const FallbackMessage := "Tam anlayamadım; biraz daha detay verir misin?"

  /** The message listing the candidates, `f"Mevcut tablolar: {tables}. Örnek kolonlar: {cols}."`. */
  function MetadataMessage(tables: seq<string>, cols: seq<string>): string {
    MetadataPrefix + ReprList(tables) + MetadataMiddle + ReprList(cols) + "."
  }

  /** The SQL outcome: the issues when validation failed, the result summary otherwise. */
  function SqlMessage(s: Snapshot): string {
    if !GetOr(s.sqlOk, true) then SqlFailedPrefix + ReprList(GetOr(s.sqlIssues, []))
    else SqlDonePrefix + ReprOptResult(s.result)
  }

  /** The final message `answer_node` writes. */
  function Compose(s: Snapshot): string {
    if !GetOr(s.allowed, true) then DeniedPrefix + GetOr(s.policyReason, "")
    else if s.intent == Some(Clarify) then StrOr(s.clarifyQuestion, ClarifyFallback)
    else if s.intent == Some(AskMetadata) then
      MetadataMessage(ListOr(s.tableCandidates, []), ListOr(s.columnCandidates, []))
    else if s.intent == Some(ExecuteSql) || s.intent == Some(GenerateSql) then SqlMessage(s)
    else if s.intent == Some(Refuse) then RefuseMessage
    else FallbackMessage
  }

  /** `answer_node` on the state as a value. */
  function Answer(s: Snapshot): Snapshot {
    s.(finalAnswer := Some(Compose(s)))
  }

  /** `answer_node`, updating the shared state in place. */
  method Update(st: OrchestratorState)
    modifies st
    ensures st.Snap() == Answer(old(st.Snap()))
  {
    var intent := st.intent;
    var allowed := GetOr(st.allowed, true);
    var sqlOk := GetOr(st.sqlOk, true);

    if !allowed {
      st.finalAnswer := Some(DeniedPrefix + GetOr(st.policyReason, ""));
      return;
    }

    if intent == Some(Clarify) {
      st.finalAnswer := Some(StrOr(st.clarifyQuestion, ClarifyFallback));
      return;
    }

    if intent == Some(AskMetadata) {
      var tables := ListOr(st.tableCandidates, []);
      var cols := ListOr(st.columnCandidates, []);
      st.finalAnswer := Some(MetadataMessage(tables, cols));
      return;
    }

    if intent == Some(ExecuteSql) || intent == Some(GenerateSql) {
      if !sqlOk {
        var issues := GetOr(st.sqlIssues, []);
        st.finalAnswer := Some(SqlFailedPrefix + ReprList(issues));
        return;
      }
      st.finalAnswer := Some(SqlDonePrefix + ReprOptResult(st.result));
      return;
    }

    if intent == Some(Refuse) {
      st.finalAnswer := Some(RefuseMessage);
      return;
    }

    st.finalAnswer := Some(FallbackMessage);
  }

  // ---------------------------------------------------------------------------
  // Properties of the composition

  /** Only `final_answer` is written, and it is always a non-empty string. */
  lemma AnswerFrame(s: Snapshot)
    ensures Answer(s).(finalAnswer := s.finalAnswer) == s
    ensures Answer(s).finalAnswer.Some? && |Answer(s).finalAnswer.value| > 0
  {
  }

  /** A policy denial wins over every intent; an absent `allowed` counts as allowed. */
  lemma DenialWins(s: Snapshot)
    ensures s.allowed == Some(false) ==> Compose(s) == DeniedPrefix + GetOr(s.policyReason, "")
    ensures s.allowed != Some(false) ==> Compose(s) == Compose(s.(allowed := Some(true)))
  {
  }

  /** A clarification shows the router's question, or the fallback question when it is empty. */
  lemma ClarifyAnswer(s: Snapshot)
    requires s.allowed != Some(false) && s.intent == Some(Clarify)
    ensures s.clarifyQuestion.Some? && s.clarifyQuestion.value != "" ==> Compose(s) == s.clarifyQuestion.value
    ensures (s.clarifyQuestion.None? || s.clarifyQuestion.value == "") ==> Compose(s) == ClarifyFallback
  {
  }

  /** A lower-case word stays in a text after lower-casing. */
  lemma LowerWordIn(a: string, w: string, b: string)
    requires forall i :: 0 <= i < |w| ==> !('A' <= w[i] <= 'Z')
    ensures ContainsSubstr(Lower(a + w + b), w)
  {
    assert Lower(w) == w;
    LowerConcat(a + w, b);
    LowerConcat(a, w);
    ContainsSubstrMiddle(Lower(a), w, Lower(b));
  }

  /** The candidate listing, lower-cased, mentions "tablolar". */
  lemma MetadataMessageMentionsTables(tables: seq<string>, cols: seq<string>)
    ensures ContainsSubstr(Lower(MetadataMessage(tables, cols)), TablesWord)
  {
    var rest := ": " + ReprList(tables) + MetadataMiddle + ReprList(cols) + ".";
    var m := MetadataMessage(tables, cols);
    assert m == "Mevcut " + TablesWord + rest;
    LowerWordIn("Mevcut ", TablesWord, rest);
  }

  /** A metadata question lists the candidates, and the lower-cased answer mentions "tablolar". */
  lemma MetadataAnswer(s: Snapshot)
    requires s.allowed != Some(false) && s.intent == Some(AskMetadata)
    ensures Compose(s) == MetadataMessage(ListOr(s.tableCandidates, []), ListOr(s.columnCandidates, []))
    ensures ContainsSubstr(Lower(Compose(s)), TablesWord)
  {
    MetadataMessageMentionsTables(ListOr(s.tableCandidates, []), ListOr(s.columnCandidates, []));
  }

  /**
   * A SQL intent reports the issues exactly when `sql_ok` is false, and the result
   * otherwise; an absent `sql_ok` counts as true.
   */
  lemma SqlAnswer(s: Snapshot)
    requires s.allowed != Some(false) && (s.intent == Some(ExecuteSql) || s.intent == Some(GenerateSql))
    ensures s.sqlOk == Some(false) ==> Compose(s) == SqlFailedPrefix + ReprList(GetOr(s.sqlIssues, []))
    ensures s.sqlOk != Some(false) ==> Compose(s) == SqlDonePrefix + ReprOptResult(s.result)
  {
  }

  /** A refusal gets the fixed message, and its lower-cased text mentions "güvenlik". */
  lemma RefuseAnswer(s: Snapshot)
    requires s.allowed != Some(false) && s.intent == Some(Refuse)
    ensures Compose(s) == RefuseMessage
    ensures ContainsSubstr(Lower(Compose(s)), SecurityWord)
  {
    LowerWordIn("Bu isteği ", SecurityWord, " nedeniyle yerine getiremiyorum.");
  }

  /** With no intent the answer is the fallback question. */
  lemma FallbackAnswer(s: Snapshot)
    requires s.allowed != Some(false) && s.intent.None?
    ensures Compose(s) == FallbackMessage
  {
  }
}

/**
 * The router node: an ordered, first-match-wins cascade of six rules that picks the
 * intent of a request (src/text2sql/nodes/router.py).
 */
module RouterNode {
  import opened Text
  import opened State
  import opened SqlPatterns

  /** Substrings of the lower-cased message that mark a question about the schema. */
  const MetaKeywords: seq<string> := ["hangi tablo", "tablolar", "kolon", "schema", "şema", "alan", "column", "table"]

  /** Messages that are nothing but a question mark or an ellipsis. */
  const AmbiguousMessages: seq<string> := ["?", "؟؟", "…"]

  const ClarifyQuestion := "Ne sorgulamak istiyorsun? (örn: zaman aralığı, metrik, filtre)"

  /** `_has_sql`: after trimming, the text starts with the word `select` (any case). */
  predicate HasSql(text: string) {
    StartsWithSelect(Strip(text))
  }

  /** `_is_dangerous`: a data-changing SQL keyword occurs as a whole word (any case). */
  predicate IsDangerous(text: string) {
    HasDangerousWord(text)
  }

  predicate HasMetaKeyword(msg: string) {
    exists k :: 0 <= k < |MetaKeywords| && ContainsSubstr(Lower(msg), MetaKeywords[k])
  }

  predicate IsTooShort(msg: string) {
    |msg| < 3 || msg in AmbiguousMessages
  }

  /** The trimmed message the rules inspect. */
  function Message(s: Snapshot): string {
    Strip(StrOr(s.userMessage, ""))
  }

  /** The trimmed caller-supplied SQL. */
  function Provided(s: Snapshot): string {
    Strip(StrOr(s.providedSql, ""))
  }

  /** What the cascade decides: the routing fields it writes. */
  datatype Decision = Decision(intent: Intent, confidence: int, needsClarification: bool,
                               clarifyQuestion: string, adoptMessage: bool)

  /** The six rules, first match wins, on the trimmed message and the trimmed provided SQL. */
  function Decide(msg: string, provided: string): Decision {
    if provided != "" then
      if IsDangerous(provided) then Decision(Refuse, 99, false, "", false)
      else Decision(ExecuteSql, 75, false, "", false)
    else if HasSql(msg) then
      if IsDangerous(msg) then Decision(Refuse, 99, false, "", false)
      else Decision(ExecuteSql, 75, false, "", true)
    else if IsDangerous(msg) then Decision(Refuse, 95, false, "", false)
    else if HasMetaKeyword(msg) then Decision(AskMetadata, 80, false, "", false)
    else if IsTooShort(msg) then Decision(Clarify, 40, true, ClarifyQuestion, false)
    else Decision(GenerateSql, 70, false, "", false)
  }

  /** The state with decision `d` written into the routing fields. */
  function Adopt(s: Snapshot, d: Decision): Snapshot {
    s.(intent := Some(d.intent), entities := Some(GetOr(s.entities, map[])),
       confidence := Some(d.confidence), needsClarification := Some(d.needsClarification),
       clarifyQuestion := Some(d.clarifyQuestion),
       providedSql := if d.adoptMessage then Some(Message(s)) else s.providedSql)
  }

  /** `router_node` on the state as a value. */
  function Classify(s: Snapshot): Snapshot {
    Adopt(s, Decide(Message(s), Provided(s)))
  }

  /** The cascade as the node runs it, rule by rule with an early return. */
  method Route(msg: string, provided: string) returns (d: Decision)
    ensures d == Decide(msg, provided)
  {
    if provided != "" {
      if IsDangerous(provided) {
        return Decision(Refuse, 99, false, "", false);
      }
      return Decision(ExecuteSql, 75, false, "", false);
    }
    if HasSql(msg) {
      if IsDangerous(msg) {
        return Decision(Refuse, 99, false, "", false);
      }
      return Decision(ExecuteSql, 75, false, "", true);
    }
    if IsDangerous(msg) {
      return Decision(Refuse, 95, false, "", false);
    }
    if HasMetaKeyword(msg) {
      return Decision(AskMetadata, 80, false, "", false);
    }
    if |msg| < 3 || msg in AmbiguousMessages {
      return Decision(Clarify, 40, true, ClarifyQuestion, false);
    }
    return Decision(GenerateSql, 70, false, "", false);
  }

  /**
   * `router_node`, updating the shared state in place: the defaults the node writes
   * first and the fields its matching rule overrides are written together here.
   */
  method Update(st: OrchestratorState)
    modifies st
    ensures st.Snap() == Classify(old(st.Snap()))
  {
    var msg := Strip(StrOr(st.userMessage, ""));
    var provided := Strip(StrOr(st.providedSql, ""));
    var d := Route(msg, provided);
    assert d == Decide(Message(st.Snap()), Provided(st.Snap()));
    Write(st, msg, d);
  }

  /** Writes decision `d` into the routing fields; `msg` is the trimmed message. */
  method Write(st: OrchestratorState, msg: string, d: Decision)
    requires msg == Message(st.Snap())
    modifies st
    ensures st.Snap() == Adopt(old(st.Snap()), d)
  {
    ghost var s0 := st.Snap();
    st.entities := Some(GetOr(st.entities, map[]));
    st.intent := Some(d.intent);
    st.confidence := Some(d.confidence);
    assert st.Snap() == s0.(entities := Some(GetOr(s0.entities, map[])), intent := Some(d.intent),
                            confidence := Some(d.confidence));
    ghost var s1 := st.Snap();
    st.needsClarification := Some(d.needsClarification);
    st.clarifyQuestion := Some(d.clarifyQuestion);
    if d.adoptMessage {
      st.providedSql := Some(msg);
    }
    assert st.Snap() == s1.(needsClarification := Some(d.needsClarification),
                            clarifyQuestion := Some(d.clarifyQuestion),
                            providedSql := if d.adoptMessage then Some(msg) else s1.providedSql);
  }

  // ---------------------------------------------------------------------------
  // Properties of the cascade

  /** Only the routing fields change, and `provided_sql` only when a pasted SELECT is adopted. */
  lemma ClassifyFrame(s: Snapshot)
    ensures var r := Classify(s);
      r.(intent := s.intent, entities := s.entities, confidence := s.confidence,
         needsClarification := s.needsClarification, clarifyQuestion := s.clarifyQuestion,
         providedSql := s.providedSql) == s
    ensures var r := Classify(s);
      r.providedSql != s.providedSql ==> r.providedSql == Some(Message(s)) && Provided(s) == ""
    ensures Classify(s).entities == Some(GetOr(s.entities, map[]))
  {
  }

  /** A non-empty `provided_sql` alone decides the intent, whatever the message says. */
  lemma ProvidedSqlDecides(s: Snapshot)
    requires Provided(s) != ""
    ensures var r := Classify(s);
      (IsDangerous(Provided(s)) ==> r.intent == Some(Refuse) && r.confidence == Some(99))
      && (!IsDangerous(Provided(s)) ==> r.intent == Some(ExecuteSql) && r.confidence == Some(75))
      && r.providedSql == s.providedSql
    ensures forall m :: Classify(s.(userMessage := m)) == Classify(s).(userMessage := m)
  {
  }

  /** A message that starts with `select` is refused if dangerous and otherwise adopted as the SQL to run. */
  lemma PastedSelect(s: Snapshot)
    requires Provided(s) == "" && HasSql(Message(s))
    ensures var r := Classify(s);
      (IsDangerous(Message(s)) ==> r.intent == Some(Refuse) && r.confidence == Some(99))
      && (!IsDangerous(Message(s)) ==>
            r.intent == Some(ExecuteSql) && r.confidence == Some(75) && r.providedSql == Some(Message(s)))
  {
  }

  /** REFUSE exactly when the SQL that decides (the provided SQL, or else the message) is dangerous. */
  lemma RefuseIff(s: Snapshot)
    ensures Classify(s).intent == Some(Refuse) <==>
      (Provided(s) != "" && IsDangerous(Provided(s))) || (Provided(s) == "" && IsDangerous(Message(s)))
    ensures Classify(s).intent == Some(Refuse) ==> Classify(s).confidence in {Some(95), Some(99)}
  {
  }

  /** EXECUTE_SQL exactly when safe SQL was provided or pasted, always at the default confidence. */
  lemma ExecuteIff(s: Snapshot)
    ensures Classify(s).intent == Some(ExecuteSql) <==>
      (Provided(s) != "" && !IsDangerous(Provided(s)))
      || (Provided(s) == "" && HasSql(Message(s)) && !IsDangerous(Message(s)))
    ensures Classify(s).intent == Some(ExecuteSql) ==> Classify(s).confidence == Some(75)
  {
  }

  /** Without SQL, a metadata keyword gives ASK_METADATA unless a dangerous word is present. */
  lemma MetadataIff(s: Snapshot)
    ensures Classify(s).intent == Some(AskMetadata) <==>
      Provided(s) == "" && !HasSql(Message(s)) && !IsDangerous(Message(s)) && HasMetaKeyword(Message(s))
    ensures Classify(s).intent == Some(AskMetadata) ==> Classify(s).confidence == Some(80)
  {
  }

  /** A short or ambiguous message that matched no earlier rule asks for clarification. */
  lemma ClarifyIff(s: Snapshot)
    ensures var r := Classify(s);
      r.intent == Some(Clarify) <==>
        Provided(s) == "" && !HasSql(Message(s)) && !IsDangerous(Message(s))
        && !HasMetaKeyword(Message(s)) && IsTooShort(Message(s))
    ensures var r := Classify(s);
      r.intent == Some(Clarify) ==>
        r.confidence == Some(40) && r.needsClarification == Some(true)
        && r.clarifyQuestion == Some(ClarifyQuestion)
  {
  }

  /** Everything else is a request to generate SQL. */
  lemma GenerateIff(s: Snapshot)
    ensures var r := Classify(s);
      r.intent == Some(GenerateSql) <==>
        Provided(s) == "" && !HasSql(Message(s)) && !IsDangerous(Message(s))
        && !HasMetaKeyword(Message(s)) && !IsTooShort(Message(s))
    ensures Classify(s).intent == Some(GenerateSql) ==> Classify(s).confidence == Some(70)
  {
  }

  /**
   * The router is total: it always sets an intent and a confidence, the confidence is
   * below 0.6 only for CLARIFY, and every other intent leaves the clarification defaults.
   */
  lemma ClassifyTotal(s: Snapshot)
    ensures var r := Classify(s);
      r.intent.Some? && r.confidence.Some? && r.needsClarification.Some? && r.clarifyQuestion.Some?
    ensures var r := Classify(s);
      (r.confidence.value < 60 <==> r.intent == Some(Clarify))
      && (r.needsClarification == Some(true) <==> r.intent == Some(Clarify))
      && (r.intent != Some(Clarify) ==> r.clarifyQuestion == Some(""))
  {
  }
}

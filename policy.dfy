/**
 * The policy node: a role/PII gate that also carries a router refusal over into
 * `allowed` (src/text2sql/nodes/policy.py).
 */
module PolicyNode {
  import opened Text
  import opened State

  /** The alternatives of `\b(tc|tckn|kimlik|iban|adres|telefon|email|e-?posta)\b`. */
  const PiiWords: seq<string> := ["tc", "tckn", "kimlik", "iban", "adres", "telefon", "email", "e-posta", "eposta"]

  const TellerRole := "teller"
  const TellerReason := "Teller rolü PII içeren alanlara erişemez."
  const RefuseReason := "Güvensiz/zararlı istek."

  /** `_PII_HINTS.search(msg)`. */
  predicate HasPiiHint(msg: string) {
    ContainsAnyWordCI(msg, PiiWords)
  }

  /** The role as the node compares it: lower-cased, with a missing role as "". */
  function Role(s: Snapshot): string {
    Lower(StrOr(s.userRole, ""))
  }

  /** `policy_node` on the state as a value. */
  function Evaluate(s: Snapshot): Snapshot {
    var msg := StrOr(s.userMessage, "");
    var reset := s.(allowed := Some(true), policyReason := Some(""));
    if Role(s) == TellerRole && HasPiiHint(msg) then
      reset.(allowed := Some(false), policyReason := Some(TellerReason))
    else if s.intent == Some(Refuse) then
      reset.(allowed := Some(false), policyReason := Some(StrOr(reset.policyReason, RefuseReason)))
    else reset
  }

  /** `policy_node`, updating the shared state in place. */
  method Update(st: OrchestratorState)
    modifies st
    ensures st.Snap() == Evaluate(old(st.Snap()))
  {
    var role := Lower(StrOr(st.userRole, ""));
    var msg := StrOr(st.userMessage, "");

    st.allowed := Some(true);
    st.policyReason := Some("");

    if role == TellerRole && HasPiiHint(msg) {
      st.allowed := Some(false);
      st.policyReason := Some(TellerReason);
      return;
    }

    if st.intent == Some(Refuse) {
      st.allowed := Some(false);
      st.policyReason := Some(StrOr(st.policyReason, RefuseReason));
      return;
    }
  }

  // ---------------------------------------------------------------------------
  // Properties of the gate

  /** Only `allowed` and `policy_reason` change, and both are always set. */
  lemma EvaluateFrame(s: Snapshot)
    ensures Evaluate(s).(allowed := s.allowed, policyReason := s.policyReason) == s
    ensures Evaluate(s).allowed.Some? && Evaluate(s).policyReason.Some?
  {
  }

  /** The role is compared after lower-casing, so roles that differ only in case are treated alike. */
  lemma RoleCaseInsensitive(s: Snapshot, role1: string, role2: string)
    requires Lower(role1) == Lower(role2)
    ensures Evaluate(s.(userRole := Some(role1))).(userRole := None)
         == Evaluate(s.(userRole := Some(role2))).(userRole := None)
  {
  }

  /** "Teller" and "TELLER" count as the teller role. */
  lemma TellerSpellings()
    ensures Lower("Teller") == TellerRole && Lower("TELLER") == TellerRole
  {
  }

  /** A teller asking about a PII field is denied with the teller reason, whatever the intent. */
  lemma TellerPiiDenied(s: Snapshot)
    requires Role(s) == TellerRole && HasPiiHint(StrOr(s.userMessage, ""))
    ensures Evaluate(s).allowed == Some(false) && Evaluate(s).policyReason == Some(TellerReason)
  {
  }

  /** A router refusal is carried over, and its reason is always the default one (the reason was reset first). */
  lemma RefuseCarriedOver(s: Snapshot)
    requires s.intent == Some(Refuse)
    requires !(Role(s) == TellerRole && HasPiiHint(StrOr(s.userMessage, "")))
    ensures Evaluate(s).allowed == Some(false) && Evaluate(s).policyReason == Some(RefuseReason)
  {
  }

  /** The request is allowed exactly when neither rule fires; a denial always carries a non-empty reason. */
  lemma AllowedIff(s: Snapshot)
    ensures Evaluate(s).allowed == Some(true) <==>
      !(Role(s) == TellerRole && HasPiiHint(StrOr(s.userMessage, ""))) && s.intent != Some(Refuse)
    ensures Evaluate(s).allowed == Some(true) ==> Evaluate(s).policyReason == Some("")
    ensures Evaluate(s).allowed == Some(false) ==>
      Evaluate(s).policyReason.Some? && Evaluate(s).policyReason.value != ""
  {
  }
}

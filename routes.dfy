/**
 * The routing predicates that pick the outgoing edge after a node
 * (src/text2sql/orchestrator/routes.py). Each returns one of the labels the
 * graph's edge table maps to a node.
 */
module Routes {
  import opened State

  /** Confidence below 0.60 sends the request to clarification. */
  const ClarifyThreshold := 60

  /** `route_from_router`: an absent confidence counts as 0.0, an absent flag as false. */
  function RouteFromRouter(s: Snapshot): (route: string)
    ensures route in {"refuse", "clarify", "policy"}
  {
    if s.intent == Some(Refuse) then "refuse"
    else if GetOr(s.needsClarification, false) || GetOr(s.confidence, 0) < ClarifyThreshold
            || s.intent == Some(Clarify) then "clarify"
    else "policy"
  }

  /** `route_after_policy`: an absent `allowed` counts as true. */
  function RouteAfterPolicy(s: Snapshot): (route: string)
    ensures route in {"refuse", "metadata", "validate", "answer"}
  {
    if !GetOr(s.allowed, true) then "refuse"
    else if s.intent == Some(AskMetadata) then "metadata"
    else if s.intent == Some(ExecuteSql) then "validate"
    else if s.intent == Some(GenerateSql) then "metadata"
    else "answer"
  }

  /** `route_after_metadata`. */
  function RouteAfterMetadata(s: Snapshot): (route: string)
    ensures route in {"answer", "sql_gen"}
  {
    if s.intent == Some(AskMetadata) then "answer" else "sql_gen"
  }

  /** `route_after_validate`: an absent `sql_ok` counts as false. */
  function RouteAfterValidate(s: Snapshot): (route: string)
    ensures route in {"execute", "answer"}
  {
    if GetOr(s.sqlOk, false) then "execute" else "answer"
  }

  // ---------------------------------------------------------------------------
  // What each label means

  /**
   * After the router: a refusal always goes to "refuse", whatever the confidence or
   * flags; "clarify" exactly when the flag is set, the confidence is below 0.6 (absent
   * is 0.0) or the intent is CLARIFY; "policy" otherwise.
   */
  lemma RouterRouteIff(s: Snapshot)
    ensures RouteFromRouter(s) == "refuse" <==> s.intent == Some(Refuse)
    ensures RouteFromRouter(s) == "clarify" <==>
      s.intent != Some(Refuse) &&
      (s.needsClarification == Some(true) || s.confidence.None? || s.confidence.value < 60 || s.intent == Some(Clarify))
    ensures RouteFromRouter(s) == "policy" <==>
      s.intent != Some(Refuse) && s.intent != Some(Clarify)
      && s.needsClarification != Some(true) && s.confidence.Some? && s.confidence.value >= 60
  {
  }

  /** After policy: a denial goes to "refuse"; otherwise the intent picks the next node. */
  lemma PolicyRouteIff(s: Snapshot)
    ensures RouteAfterPolicy(s) == "refuse" <==> s.allowed == Some(false)
    ensures RouteAfterPolicy(s) == "metadata" <==>
      s.allowed != Some(false) && (s.intent == Some(AskMetadata) || s.intent == Some(GenerateSql))
    ensures RouteAfterPolicy(s) == "validate" <==> s.allowed != Some(false) && s.intent == Some(ExecuteSql)
    ensures RouteAfterPolicy(s) == "answer" <==>
      s.allowed != Some(false) && (s.intent.None? || s.intent == Some(Clarify) || s.intent == Some(Refuse))
  {
    if s.intent.Some? {
      match s.intent.value
      case AskMetadata =>
      case GenerateSql =>
      case ExecuteSql =>
      case Clarify =>
      case Refuse =>
    }
  }

  /** After metadata: a metadata question is answered, every other intent goes on to SQL generation. */
  lemma MetadataRouteIff(s: Snapshot)
    ensures RouteAfterMetadata(s) == "answer" <==> s.intent == Some(AskMetadata)
    ensures RouteAfterMetadata(s) == "sql_gen" <==> s.intent != Some(AskMetadata)
  {
  }

  /** After validation: "execute" exactly when `sql_ok` is true; an absent one goes to "answer". */
  lemma ValidateRouteIff(s: Snapshot)
    ensures RouteAfterValidate(s) == "execute" <==> s.sqlOk == Some(true)
    ensures RouteAfterValidate(s) == "answer" <==> s.sqlOk != Some(true)
  {
  }
}

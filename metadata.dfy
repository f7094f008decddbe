/**
 * The metadata node: supplies default table and column candidates
 * (src/text2sql/nodes/metadata.py).
 */
module MetadataNode {
  import opened State

  const DefaultTables: seq<string> := ["satislar", "musteriler"]
  const DefaultColumns: seq<string> := ["tarih", "tutar", "musteri_id"]

  /** `metadata_node` on the state as a value. */
  function Resolve(s: Snapshot): Snapshot {
    s.(tableCandidates := Some(ListOr(s.tableCandidates, DefaultTables)),
       columnCandidates := Some(ListOr(s.columnCandidates, DefaultColumns)))
  }

  /** `metadata_node`, updating the shared state in place. */
  method Update(st: OrchestratorState)
    modifies st
    ensures st.Snap() == Resolve(old(st.Snap()))
  {
    st.tableCandidates := Some(ListOr(st.tableCandidates, DefaultTables));
    st.columnCandidates := Some(ListOr(st.columnCandidates, DefaultColumns));
  }

  /** A missing or empty list is replaced by the defaults; a non-empty one is kept as it was. */
  lemma ResolveCandidates(s: Snapshot)
    ensures (s.tableCandidates.None? || s.tableCandidates.value == []) ==>
      Resolve(s).tableCandidates == Some(DefaultTables)
    ensures (s.columnCandidates.None? || s.columnCandidates.value == []) ==>
      Resolve(s).columnCandidates == Some(DefaultColumns)
    ensures s.tableCandidates.Some? && s.tableCandidates.value != [] ==>
      Resolve(s).tableCandidates == s.tableCandidates
    ensures s.columnCandidates.Some? && s.columnCandidates.value != [] ==>
      Resolve(s).columnCandidates == s.columnCandidates
  {
  }

  /** Afterwards both lists are present and non-empty. */
  lemma ResolveNonEmpty(s: Snapshot)
    ensures Resolve(s).tableCandidates.Some? && Resolve(s).tableCandidates.value != []
    ensures Resolve(s).columnCandidates.Some? && Resolve(s).columnCandidates.value != []
  {
  }

  /** Resolving twice is resolving once. */
  lemma ResolveIdempotent(s: Snapshot)
    ensures Resolve(Resolve(s)) == Resolve(s)
  {
  }

  /** No other field changes. */
  lemma ResolveFrame(s: Snapshot)
    ensures Resolve(s).(tableCandidates := s.tableCandidates, columnCandidates := s.columnCandidates) == s
  {
  }
}

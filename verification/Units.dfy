/** Work units, their citation surface, and the input-drift key. */
module Units {

  /** A JSON value, carried opaquely as its encoded text. */
  type Json = string

  /** A decoded JSON object. A missing or null object has no keys. */
  type Locator = map<string, Json>

  datatype CitationPolicy = CitationPolicy(requireReference: bool, requirePrimary: bool)

  datatype Citation = Citation(sourceId: string, locator: Locator, note: string)

  datatype Candidate = Candidate(
    sourceId: string, tier: int, citationForm: string, locator: Locator,
    title: string, period: string, summary: string)

  datatype Unit = Unit(
    unitKey: string, documentId: int, title: string, text: string, truncated: bool,
    reference: Citation, candidates: seq<Candidate>, policy: CitationPolicy,
    scopeNotes: seq<string>, knownEntityIds: seq<string>,
    relTypes: seq<string>, relAliases: map<string, string>)

  /** The fields of one candidate that reach the input hash. */
  datatype HashedCandidate = HashedCandidate(sourceId: string, locator: Locator, title: string)

  /** Exactly what InputHash digests; the digest itself is a parameter of the model. */
  datatype HashInput = HashInput(
    documentId: int, title: string, candidates: seq<HashedCandidate>, text: string)

  function InputOf(u: Unit): HashInput {
    HashInput(u.documentId, u.title,
              seq(|u.candidates|, i requires 0 <= i < |u.candidates| =>
                HashedCandidate(u.candidates[i].sourceId, u.candidates[i].locator, u.candidates[i].title)),
              u.text)
  }

  /** The same document, seen against a different graph: only the snapshots differ. */
  ghost predicate SameButSnapshots(u: Unit, w: Unit) {
    w == u.(knownEntityIds := w.knownEntityIds, relTypes := w.relTypes, relAliases := w.relAliases)
  }

  /** Text and the hashed candidate fields agree. */
  ghost predicate SameHashedInput(u: Unit, w: Unit) {
    && u.documentId == w.documentId && u.title == w.title && u.text == w.text
    && |u.candidates| == |w.candidates|
    && (forall i :: 0 <= i < |u.candidates| ==>
          && u.candidates[i].sourceId == w.candidates[i].sourceId
          && u.candidates[i].locator == w.candidates[i].locator
          && u.candidates[i].title == w.candidates[i].title)
  }

  /**
   * Two units share their hash input exactly when document, title, text and the
   * hashed candidate fields agree. The reference citation, the policy, the scope
   * notes and the graph snapshots never reach the hash.
   */
  lemma InputOfExact(u: Unit, w: Unit)
    ensures InputOf(u) == InputOf(w) <==> SameHashedInput(u, w)
  {
    if InputOf(u) == InputOf(w) {
      forall i | 0 <= i < |u.candidates|
        ensures HashedCandidate(u.candidates[i].sourceId, u.candidates[i].locator, u.candidates[i].title)
             == HashedCandidate(w.candidates[i].sourceId, w.candidates[i].locator, w.candidates[i].title)
      {
        assert InputOf(u).candidates[i] == InputOf(w).candidates[i];
      }
    }
  }

  /**
   * The comment at extract/extract.go:108-110 promises a new hash for any change
   * of the citation surface. The reference citation belongs to that surface and
   * is not hashed: here are two units with different surfaces and one hash input.
   */
  lemma ReferenceChangeKeepsHash() returns (u: Unit, w: Unit)
    ensures u.reference.sourceId != w.reference.sourceId
    ensures InputOf(u) == InputOf(w)
  {
    u := Unit("ref:a", 1, "a", "body", false, Citation("ref", map[], ""), [],
              CitationPolicy(true, true), [], [], [], map[]);
    w := u.(reference := Citation("other", map[], ""));
    InputOfExact(u, w);
  }
}

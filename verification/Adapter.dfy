/** Building extraction units from documents, and which of their parts depend on the graph. */
module Adapter {
  import opened Basics
  import opened Units
  import opened Slug
  import opened Candidates
  import opened CandidatesExact
  import opened Validation
  import opened Runner

  datatype Document = Document(id: int, title: string, url: Json, contentText: string)

  datatype Setup = Setup(
    unicode: Unicode, manifest: Manifest, maxUnitChars: nat, policy: CitationPolicy, scopeNotes: seq<string>)

  /** What the adapter reads from the graph: it grows between runs. */
  datatype Snapshot = Snapshot(known: seq<string>, relTypes: seq<string>, aliases: map<string, string>)

  function UnitText(s: Setup, d: Document): string {
    d.contentText[..Min(|d.contentText|, s.maxUnitChars)]
  }

  /** u is the unit of document d. */
  ghost predicate UnitFor(s: Setup, sources: Registry, reference: string, d: Document, now: Snapshot, u: Unit) {
    && u.unitKey == reference + ":" + SlugOf(s.unicode, d.title)
    && u.documentId == d.id && u.title == d.title && u.text == UnitText(s, d)
    && (u.truncated <==> |d.contentText| > s.maxUnitChars)
    && u.reference == Citation(reference, map["url" := d.url], "")
    && u.policy == s.policy && u.scopeNotes == s.scopeNotes
    && u.knownEntityIds == now.known && u.relTypes == now.relTypes && u.relAliases == now.aliases
    && exists chosen :: Selects(s.manifest, sources, d.title, UnitText(s, d), chosen, u.candidates)
  }

  ghost predicate Built(s: Setup, sources: Registry, reference: string, ds: seq<Document>, now: Snapshot, us: seq<Unit>) {
    |us| == |ds| && forall i :: 0 <= i < |ds| ==> UnitFor(s, sources, reference, ds[i], now, us[i])
  }

  /** One unit per document; an unregistered reference source is an error. */
  method BuildUnits(s: Setup, sources: Registry, reference: string, ds: seq<Document>, now: Snapshot)
    returns (units: Option<seq<Unit>>)
    requires KeyedById(sources) && s.manifest.maxCandidates > 0
    ensures units.None? <==> reference !in sources
    ensures units.Some? ==> Built(s, sources, reference, ds, now, units.value)
  {
    if reference !in sources {
      return None;
    }
    var built: seq<Unit> := [];
    for i := 0 to |ds|
      invariant |built| == i && forall j :: 0 <= j < i ==> UnitFor(s, sources, reference, ds[j], now, built[j])
    {
      var text, truncated := ds[i].contentText, false;
      if |text| > s.maxUnitChars {
        text, truncated := text[..s.maxUnitChars], true;
      }
      assert text == UnitText(s, ds[i]);
      var slug := Slugify(s.unicode, ds[i].title);
      var candidates := SelectCandidates(s.manifest, ds[i].title, text, sources);
      built := built + [Unit(sources[reference].id + ":" + slug, ds[i].id, ds[i].title, text, truncated,
                             Citation(sources[reference].id, map["url" := ds[i].url], ""), candidates,
                             s.policy, s.scopeNotes, now.known, now.relTypes, now.aliases)];
    }
    units := Some(built);
  }

  // ------------------------------------------------------------- determinacy

  lemma ChosenOnce(m: Manifest, scores: seq<nat>, a: seq<nat>, b: seq<nat>)
    requires |scores| == |m.candidates| && Chosen(m, scores, a) && Chosen(m, scores, b)
    ensures a == b
  {
    if Overlapping(scores) {
      var keep := Min(m.maxCandidates, |scores|);
      var r :| Ranking(scores, r) && a == r[..keep];
      var t :| Ranking(scores, t) && b == t[..keep];
      TopKExact(scores, r, keep);
    }
  }

  lemma SelectsOnce(m: Manifest, sources: Registry, title: string, text: string, a: seq<nat>, b: seq<nat>, x: seq<Candidate>, y: seq<Candidate>)
    requires Selects(m, sources, title, text, a, x) && Selects(m, sources, title, text, b, y)
    ensures x == y
  {
    ChosenOnce(m, Scores(m, m.terms(ArticleText(title, text))), a, b);
  }

  /** Rebuilding over the same documents, however the graph grew, changes only the snapshots and so no input hash. */
  lemma RebuildKeepsHashes(s: Setup, sources: Registry, reference: string, ds: seq<Document>,
                           before: Snapshot, us: seq<Unit>, after: Snapshot, ws: seq<Unit>)
    requires Built(s, sources, reference, ds, before, us) && Built(s, sources, reference, ds, after, ws)
    ensures forall i :: 0 <= i < |ds| ==> SameButSnapshots(us[i], ws[i]) && InputOf(us[i]) == InputOf(ws[i])
  {
    forall i | 0 <= i < |ds|
      ensures SameButSnapshots(us[i], ws[i]) && InputOf(us[i]) == InputOf(ws[i])
    {
      assert UnitFor(s, sources, reference, ds[i], before, us[i]) && UnitFor(s, sources, reference, ds[i], after, ws[i]);
      var a :| Selects(s.manifest, sources, ds[i].title, UnitText(s, ds[i]), a, us[i].candidates);
      var b :| Selects(s.manifest, sources, ds[i].title, UnitText(s, ds[i]), b, ws[i].candidates);
      SelectsOnce(s.manifest, sources, ds[i].title, UnitText(s, ds[i]), a, b, us[i].candidates, ws[i].candidates);
      InputOfExact(us[i], ws[i]);
    }
  }

  /**
   * What a unit may cite and must locate: besides the reference, a source is on its surface,
   * and a key demanded of it, exactly when a configured candidate shown for the document has
   * that source, and that key in its locator.
   */
  lemma SurfaceFromManifest(s: Setup, sources: Registry, reference: string, d: Document, now: Snapshot, u: Unit) returns (picks: seq<nat>, at: seq<nat>)
    requires KeyedById(sources) && UnitFor(s, sources, reference, d, now, u)
    ensures Selection(s.manifest, sources, d.title, UnitText(s, d), picks, at, u.candidates)
    ensures forall source :: source != reference ==> (source in SurfaceSources(u) <==> Sourced(s.manifest, picks, at, source))
    ensures forall source, k :: source != reference ==> (SurfaceKey(u, source, k) <==> SourcedKey(s.manifest, picks, at, source, k))
  {
    var m := s.manifest;
    picks :| Selects(m, sources, d.title, UnitText(s, d), picks, u.candidates);
    SelectsExactly(m, sources, d.title, UnitText(s, d), picks, u.candidates);
    hide Selects, TakesBest, TakesDefaults, Shared, Offered, Sourced, SourcedKey, Limit;
    at :| Selection(m, sources, d.title, UnitText(s, d), picks, at, u.candidates);
    forall source | source != reference
      ensures source in SurfaceSources(u) <==> Sourced(m, picks, at, source)
    {
      OfferedSource(m, sources, picks, at, u.candidates, source);
    }
    forall source, k | source != reference
      ensures SurfaceKey(u, source, k) <==> SourcedKey(m, picks, at, source, k)
    {
      OfferedKey(m, sources, picks, at, u.candidates, source, k);
    }
  }

  /** A shown candidate has the source. */
  ghost predicate Sourced(m: Manifest, picks: seq<nat>, at: seq<nat>, source: string) {
    exists n :: 0 <= n < |at| && at[n] < |picks| && picks[at[n]] < |m.candidates| && m.candidates[picks[at[n]]].source == source
  }

  /** A shown candidate has the source, and the key in its locator. */
  ghost predicate SourcedKey(m: Manifest, picks: seq<nat>, at: seq<nat>, source: string, k: string) {
    exists n :: 0 <= n < |at| && at[n] < |picks| && picks[at[n]] < |m.candidates| && m.candidates[picks[at[n]]].source == source
                && k in m.candidates[picks[at[n]]].locator
  }

  lemma OfferedSource(m: Manifest, sources: Registry, picks: seq<nat>, at: seq<nat>, out: seq<Candidate>, source: string)
    requires KeyedById(sources) && InRange(m, picks) && Offered(m, sources, picks, at, out)
    ensures (exists c :: c in out && c.sourceId == source) <==> Sourced(m, picks, at, source)
  {
    hide Shown;
    if c :| c in out && c.sourceId == source {
      var n :| 0 <= n < |out| && out[n] == c;
      assert Renders(m, sources, picks[at[n]], out[n]);
    }
    if n :| 0 <= n < |at| && m.candidates[picks[at[n]]].source == source {
      assert Renders(m, sources, picks[at[n]], out[n]) && out[n] in out;
    }
  }

  lemma OfferedKey(m: Manifest, sources: Registry, picks: seq<nat>, at: seq<nat>, out: seq<Candidate>, source: string, k: string)
    requires KeyedById(sources) && InRange(m, picks) && Offered(m, sources, picks, at, out)
    ensures (exists c :: c in out && c.sourceId == source && k in c.locator) <==> SourcedKey(m, picks, at, source, k)
  {
    hide Shown;
    if c :| c in out && c.sourceId == source && k in c.locator {
      var n :| 0 <= n < |out| && out[n] == c;
      assert Renders(m, sources, picks[at[n]], out[n]);
    }
    if n :| 0 <= n < |at| && m.candidates[picks[at[n]]].source == source && k in m.candidates[picks[at[n]]].locator {
      assert Renders(m, sources, picks[at[n]], out[n]) && out[n] in out;
    }
  }

  /** Two documents share a unit key exactly when their titles have the same words, no words counting as "untitled". */
  lemma KeysAreSlugs(s: Setup, sources: Registry, reference: string, ds: seq<Document>, now: Snapshot, us: seq<Unit>, i: nat, j: nat)
    requires Built(s, sources, reference, ds, now, us) && i < |ds| && j < |ds|
    ensures us[i].unitKey == us[j].unitKey <==>
            Named(TitleWords(s.unicode, ds[i].title)) == Named(TitleWords(s.unicode, ds[j].title))
  {
    assert UnitFor(s, sources, reference, ds[i], now, us[i]) && UnitFor(s, sources, reference, ds[j], now, us[j]);
    var p, x, y := reference + ":", SlugOf(s.unicode, ds[i].title), SlugOf(s.unicode, ds[j].title);
    if p + x == p + y {
      assert x == (p + x)[|p|..] && y == (p + y)[|p|..];
    }
    SlugsCollide(s.unicode, ds[i].title, ds[j].title);
  }

  /** The keys a run needs to be distinct are so exactly when no two documents' titles have the same words. */
  lemma KeysDistinctExactly(s: Setup, sources: Registry, reference: string, ds: seq<Document>, now: Snapshot, us: seq<Unit>)
    requires Built(s, sources, reference, ds, now, us)
    ensures DistinctKeys(us) <==>
            forall i, j :: 0 <= i < j < |ds| ==>
              Named(TitleWords(s.unicode, ds[i].title)) != Named(TitleWords(s.unicode, ds[j].title))
  {
    forall i, j | 0 <= i < j < |ds|
      ensures us[i].unitKey == us[j].unitKey <==>
              Named(TitleWords(s.unicode, ds[i].title)) == Named(TitleWords(s.unicode, ds[j].title))
    {
      KeysAreSlugs(s, sources, reference, ds, now, us, i, j);
    }
  }
}

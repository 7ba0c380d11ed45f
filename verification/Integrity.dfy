/** The core integrity checks as predicates over the tables, and why loading validated records keeps them empty. */
module Integrity {
  import opened Basics
  import opened Units
  import opened Wire
  import opened Validation
  import opened ValidationTheorems
  import opened Tables
  import opened Loader
  import opened Loadable
  import opened LoadsExactly
  import opened LoadPlan

  // ------------------------------------------------------------- checks

  ghost predicate ClaimCited(db: Db, c: string) {
    exists k :: k in db.claimSources && k.claim == c
  }

  /** claims_without_sources finds nothing. */
  ghost predicate ClaimsCited(db: Db) {
    forall c :: c in db.claims ==> ClaimCited(db, c)
  }

  ghost predicate EventCited(db: Db, e: string) {
    exists k :: k in db.eventSources && k.0 == e
  }

  /** events_without_sources finds nothing. */
  ghost predicate EventsCited(db: Db) {
    forall e :: e in db.events ==> EventCited(db, e)
  }

  /** dangling_references finds nothing among participants, links and relationships. */
  ghost predicate ReferencesResolve(db: Db) {
    && (forall k :: k in db.participants ==> k.1 in db.entities)
    && (forall k :: k in db.links ==> k.from in db.events && k.to in db.events)
    && (forall k :: k in db.relationships ==>
          k.from in db.entities && k.to in db.entities
          && (db.relationships[k].Some? ==> db.relationships[k].value in db.claims))
  }

  ghost predicate Registered(db: Db, c: string) {
    exists k :: k in db.contradictionClaims && k.claim == c
  }

  /** contested_claims_unregistered finds nothing. */
  ghost predicate ContestedRegistered(db: Db) {
    forall c :: c in db.claims && Contested(db.claims[c].confidence) ==> Registered(db, c)
  }

  ghost predicate VersionCited(db: Db, id: nat) {
    exists k :: k in db.claimSources && k.version == Some(id)
  }

  /** claim_versions_without_citations finds nothing. */
  ghost predicate VersionsCited(db: Db) {
    forall v :: v in db.versions ==> VersionCited(db, db.versions[v].id)
  }

  /** A citation satisfies its source's scheme when the scheme names required keys. */
  ghost predicate LocatorOk(db: Db, source: string, row: CiteRow) {
    source in db.sources && db.sources[source].Some? ==>
      row.locator.Some? && db.sources[source].value <= row.locator.value.Keys
  }

  /** invalid_locators finds nothing among claim and event citations. */
  ghost predicate LocatorsValid(db: Db) {
    && (forall k :: k in db.claimSources ==> LocatorOk(db, k.source, db.claimSources[k]))
    && (forall k :: k in db.eventSources ==> LocatorOk(db, k.1, db.eventSources[k]))
  }

  /** Constraints and every check but the locator one. */
  ghost predicate Clean(db: Db) {
    && Sound(db) && ClaimsCited(db) && EventsCited(db) && ReferencesResolve(db)
    && ContestedRegistered(db) && VersionsCited(db)
  }

  // ---------------------------------------- what validated records bring

  /** Nothing uncited, nothing contested without its register entry. */
  ghost predicate WellCited(v: Validated) {
    && (forall e :: e in v.events ==> e.sources != [])
    && (forall c :: c in v.claims ==> c.sources != [] && forall x :: x in c.versions ==> x.sources != [])
    && (forall c :: c in v.claims && Contested(c.confidence) ==> EntryOf(c) in v.contradictions)
  }

  lemma {:induction false} VersionsCitedByRule(vs: seq<WireVersion>, u: Unit)
    ensures forall x :: x in Versions(vs, u) ==> x.sources != []
  {
    if vs != [] { VersionsCitedByRule(Front(vs), u); }
  }

  lemma EventsWellCited(w: WireExtraction, scope: Scope)
    ensures forall e :: e in EventsIn(w, scope) ==> e.sources != []
  {
    var kept := KeptEvents(scope, w.events);
    EventRecordsAt(kept, PayloadIds(w.entities), scope, LinkTargets(scope, w.events));
    KeepKeys(w.events, EventId(), EventOk(scope));
    forall e | e in EventsIn(w, scope)
      ensures e.sources != []
    {
      var n :| 0 <= n < |kept| && EventsIn(w, scope)[n] == e;
      assert kept[n] in kept && EventOk(scope)(kept[n]);
    }
  }

  lemma ClaimsWellCited(w: WireExtraction, scope: Scope)
    ensures forall c :: c in ClaimsIn(w, scope) ==> c.sources != [] && forall x :: x in c.versions ==> x.sources != []
  {
    var kept := ClaimsOf(w, scope);
    ClaimRecordsAt(kept, scope.unit);
    KeepKeys(w.claims, ClaimId(), ClaimOk(PayloadIds(w.entities), scope));
    forall c | c in ClaimsIn(w, scope)
      ensures c.sources != [] && forall x :: x in c.versions ==> x.sources != []
    {
      var n :| 0 <= n < |kept| && ClaimsIn(w, scope)[n] == c;
      assert kept[n] in kept && ClaimOk(PayloadIds(w.entities), scope)(kept[n]);
      VersionsCitedByRule(kept[n].versions, scope.unit);
    }
  }

  /** Uncited records are dropped, never kept; contested claims always carry their register entry. */
  lemma ValidatedWellCited(w: WireExtraction, scope: Scope)
    ensures WellCited(Validate(w, scope))
  {
    hide EventsIn, ClaimsIn, EdgesIn, EntitiesIn, DropsOf, Contradictions;
    EventsWellCited(w, scope);
    ClaimsWellCited(w, scope);
    ContradictionsName(ClaimsIn(w, scope));
  }

  // --------------------------------------------- statements in the plan

  lemma EventCitePlanned(v: Validated, e: EventRecord, c: Citation)
    requires e in v.events && c in e.sources
    ensures InsEventSource(e.id, c) in Plan(v)
  {
    assert OfDetail(e, InsEventSource(e.id, c));
    PlannedExactly(v, InsEventSource(e.id, c));
  }

  lemma ClaimCitePlanned(v: Validated, r: ClaimRecord, c: Citation)
    requires r in v.claims && c in r.sources
    ensures InsClaimSource(r.id, None, c) in Plan(v)
  {
    assert OfClaim(r, InsClaimSource(r.id, None, c));
    PlannedExactly(v, InsClaimSource(r.id, None, c));
  }

  lemma VersionCitePlanned(v: Validated, r: ClaimRecord, x: ClaimVersionRecord, c: Citation)
    requires r in v.claims && x in r.versions && c in x.sources
    ensures InsClaimSource(r.id, Some(x.tradition), c) in Plan(v)
  {
    assert OfClaim(r, InsClaimSource(r.id, Some(x.tradition), c));
    PlannedExactly(v, InsClaimSource(r.id, Some(x.tradition), c));
  }

  /** Where the event, claim and citation statements of a plan come from. */
  lemma PlannedEvent(v: Validated, s: Stmt)
    requires s in Plan(v)
    ensures s.InsEvent? ==> exists e :: e in v.events && OfEvent(e, s)
    ensures s.InsParticipant? || s.InsLink? || s.InsEventSource? ==> exists e :: e in v.events && OfDetail(e, s)
  {
    hide Plan, NameColumns, EventColumns, ClaimColumns, NullIfEmpty, LinkOf;
    PlannedExactly(v, s);
  }

  lemma PlannedClaim(v: Validated, s: Stmt)
    requires s in Plan(v) && (s.InsClaim? || s.InsVersion? || s.InsClaimSource?)
    ensures exists c :: c in v.claims && OfClaim(c, s)
  {
    hide Plan, NameColumns, EventColumns, ClaimColumns, NullIfEmpty, LinkOf;
    PlannedExactly(v, s);
  }

  // --------------------------------------------------- loading stays clean

  lemma LoadCitesClaims(db: Db, v: Validated)
    requires ClaimsCited(db) && WellCited(v) && Load(db, v).Some?
    ensures ClaimsCited(Load(db, v).value)
  {
    hide Plan, ExecAll, Exec, OfClaim;
    var after := Load(db, v).value;
    ExecAllGrows(db, Plan(v));
    forall c | c in after.claims
      ensures ClaimCited(after, c)
    {
      ExecAllRefs(db, Plan(v), ClaimRef(c));
      if c in db.claims {
        var k :| k in db.claimSources && k.claim == c;
        assert k in after.claimSources;
      } else {
        var s :| s in Plan(v) && Gives(s) == Some(ClaimRef(c));
        PlannedClaim(v, s);
        var r :| r in v.claims && OfClaim(r, s);
        OfClaimId(r, s);
        ClaimCitePlanned(v, r, r.sources[0]);
        ExecAllPresent(db, Plan(v), InsClaimSource(r.id, None, r.sources[0]));
        assert ClaimSourceKey(c, None, r.sources[0].sourceId) in after.claimSources;
      }
    }
  }

  lemma OfClaimId(r: ClaimRecord, s: Stmt)
    requires OfClaim(r, s)
    ensures s.InsClaim? ==> s.id == r.id && ClaimColumns(s.claim, r)
    ensures s.InsVersion? ==>
              s.version.claim == r.id
              && exists x :: x in r.versions && x.tradition == s.version.tradition && x.statement == s.statement
    ensures s.InsClaimSource? ==> s.claimId == r.id && (s.pin.None? ==> s.cite in r.sources)
  {
  }

  lemma LoadCitesEvents(db: Db, v: Validated)
    requires EventsCited(db) && WellCited(v) && Load(db, v).Some?
    ensures EventsCited(Load(db, v).value)
  {
    hide Plan, ExecAll, Exec;
    var after := Load(db, v).value;
    ExecAllGrows(db, Plan(v));
    forall id | id in after.events
      ensures EventCited(after, id)
    {
      ExecAllRefs(db, Plan(v), EventRef(id));
      if id in db.events {
        var k :| k in db.eventSources && k.0 == id;
        assert k in after.eventSources;
      } else {
        var s :| s in Plan(v) && Gives(s) == Some(EventRef(id));
        PlannedEvent(v, s);
        var e :| e in v.events && OfEvent(e, s);
        EventCitePlanned(v, e, e.sources[0]);
        ExecAllPresent(db, Plan(v), InsEventSource(e.id, e.sources[0]));
        assert (id, e.sources[0].sourceId) in after.eventSources;
      }
    }
  }

  lemma LoadCitesVersions(db: Db, v: Validated)
    requires VersionsCited(db) && WellCited(v) && Load(db, v).Some?
    ensures VersionsCited(Load(db, v).value)
  {
    hide Plan, ExecAll, Exec, OfClaim;
    var after := Load(db, v).value;
    ExecAllGrows(db, Plan(v));
    forall x | x in after.versions
      ensures VersionCited(after, after.versions[x].id)
    {
      ExecAllRefs(db, Plan(v), VersionRef(x));
      if x in db.versions {
        var k :| k in db.claimSources && k.version == Some(db.versions[x].id);
        assert k in after.claimSources;
      } else {
        var s :| s in Plan(v) && Gives(s) == Some(VersionRef(x));
        PlannedClaim(v, s);
        var r :| r in v.claims && OfClaim(r, s);
        OfClaimId(r, s);
        var y :| y in r.versions && y.tradition == x.tradition;
        VersionCitePlanned(v, r, y, y.sources[0]);
        ExecAllPresent(db, Plan(v), InsClaimSource(r.id, Some(y.tradition), y.sources[0]));
        assert x == VersionKey(r.id, y.tradition);
        assert ClaimSourceKey(r.id, Some(after.versions[x].id), y.sources[0].sourceId) in after.claimSources;
      }
    }
  }

  /** A claim row inserted by the batch has the columns of one of its records. */
  lemma NewClaimRow(db: Db, v: Validated, c: string)
    requires Load(db, v).Some? && c in Load(db, v).value.claims && c !in db.claims
    ensures exists r :: r in v.claims && r.id == c && ClaimColumns(Load(db, v).value.claims[c], r)
  {
    var s := InsClaim(c, Load(db, v).value.claims[c]);
    RowOrigin(db, Plan(v), s);
    PlannedClaim(v, s);
    var r :| r in v.claims && OfClaim(r, s);
  }

  /** Likewise an event row. */
  lemma NewEventRow(db: Db, v: Validated, id: string)
    requires Load(db, v).Some? && id in Load(db, v).value.events && id !in db.events
    ensures exists e :: e in v.events && e.id == id && EventColumns(Load(db, v).value.events[id], e)
  {
    var s := InsEvent(id, Load(db, v).value.events[id]);
    RowOrigin(db, Plan(v), s);
    PlannedEvent(v, s);
  }

  lemma LoadRegisters(db: Db, v: Validated)
    requires ContestedRegistered(db) && WellCited(v) && Load(db, v).Some?
    ensures ContestedRegistered(Load(db, v).value)
  {
    hide Plan, ExecAll, Exec;
    var after := Load(db, v).value;
    ExecAllGrows(db, Plan(v));
    forall c | c in after.claims && Contested(after.claims[c].confidence)
      ensures Registered(after, c)
    {
      if c in db.claims {
        var k :| k in db.contradictionClaims && k.claim == c;
        assert k in after.contradictionClaims;
      } else {
        NewClaimRow(db, v, c);
        var r :| r in v.claims && r.id == c && ClaimColumns(after.claims[c], r);
        var entry := EntryOf(r);
        var s := InsContradictionClaim(entry.id, entry.claimId, AUTO_REGISTERED);
        assert OfContradiction(entry, s);
        PlannedExactly(v, s);
        ExecAllPresent(db, Plan(v), s);
        assert ContradictionClaimKey(entry.id, c, None) in after.contradictionClaims;
      }
    }
  }

  /** One unit's transaction takes a clean store to a clean store, whatever the model answered. */
  lemma LoadStaysClean(db: Db, w: WireExtraction, scope: Scope)
    requires Clean(db) && Load(db, Validate(w, scope)).Some?
    ensures Clean(Load(db, Validate(w, scope)).value)
  {
    hide Sound, ExecAll, Plan, Validate, WellCited, ClaimsCited, EventsCited, VersionsCited, ContestedRegistered;
    var v := Validate(w, scope);
    ValidatedWellCited(w, scope);
    ExecAllSound(db, Plan(v));
    LoadCitesClaims(db, v);
    LoadCitesEvents(db, v);
    LoadCitesVersions(db, v);
    LoadRegisters(db, v);
    SoundResolves(Load(db, v).value);
  }

  lemma SoundResolves(db: Db)
    requires Sound(db)
    ensures ReferencesResolve(db)
  {
  }

  // ----------------------------------------------------------- locators

  /** The unit's surface demands at least the keys its registered sources require. */
  ghost predicate Covers(db: Db, u: Unit) {
    forall s, k :: s in SurfaceSources(u) && s in db.sources && db.sources[s].Some? && k in db.sources[s].value ==> SurfaceKey(u, s, k)
  }

  ghost predicate AllValid(u: Unit, cs: seq<Citation>) {
    forall c :: c in cs ==> ValidCitation(u, c)
  }

  /** Every citation of the records is valid on the unit's surface. */
  ghost predicate CitesSurface(v: Validated, u: Unit) {
    && (forall e :: e in v.events ==> AllValid(u, e.sources))
    && (forall c :: c in v.claims ==> AllValid(u, c.sources) && forall x :: x in c.versions ==> AllValid(u, x.sources))
  }

  lemma CitedAllValid(cs: seq<Citation>, u: Unit)
    ensures AllValid(u, Cited(cs, Citeable(u)))
  {
    forall c | c in Cited(cs, Citeable(u))
      ensures ValidCitation(u, c)
    {
      CitedExact(u, cs, c);
    }
  }

  lemma {:induction false} VersionsAllValid(vs: seq<WireVersion>, u: Unit)
    ensures forall x :: x in Versions(vs, u) ==> AllValid(u, x.sources)
  {
    if vs != [] {
      VersionsAllValid(Front(vs), u);
      CitedAllValid(Last(vs).sources, u);
    }
  }

  lemma EventsCiteSurface(w: WireExtraction, scope: Scope)
    ensures forall e :: e in EventsIn(w, scope) ==> AllValid(scope.unit, e.sources)
  {
    var kept := KeptEvents(scope, w.events);
    EventRecordsAt(kept, PayloadIds(w.entities), scope, LinkTargets(scope, w.events));
    forall e | e in EventsIn(w, scope)
      ensures AllValid(scope.unit, e.sources)
    {
      var n :| 0 <= n < |kept| && EventsIn(w, scope)[n] == e;
      CitedAllValid(kept[n].sources, scope.unit);
    }
  }

  lemma ClaimsCiteSurface(w: WireExtraction, scope: Scope)
    ensures forall c :: c in ClaimsIn(w, scope) ==>
              AllValid(scope.unit, c.sources) && forall x :: x in c.versions ==> AllValid(scope.unit, x.sources)
  {
    var kept := ClaimsOf(w, scope);
    ClaimRecordsAt(kept, scope.unit);
    forall c | c in ClaimsIn(w, scope)
      ensures AllValid(scope.unit, c.sources) && forall x :: x in c.versions ==> AllValid(scope.unit, x.sources)
    {
      var n :| 0 <= n < |kept| && ClaimsIn(w, scope)[n] == c;
      CitedAllValid(kept[n].sources, scope.unit);
      VersionsAllValid(kept[n].versions, scope.unit);
    }
  }

  lemma ValidatedCitesSurface(w: WireExtraction, scope: Scope)
    ensures CitesSurface(Validate(w, scope), scope.unit)
  {
    hide EventsIn, ClaimsIn, EdgesIn, EntitiesIn, DropsOf, Contradictions, AllValid;
    EventsCiteSurface(w, scope);
    ClaimsCiteSurface(w, scope);
  }

  lemma ValidIsLocatorOk(db: Db, u: Unit, c: Citation)
    requires Covers(db, u) && ValidCitation(u, c)
    ensures LocatorOk(db, c.sourceId, CiteRowOf(c))
  {
    if c.sourceId in db.sources && db.sources[c.sourceId].Some? {
      forall k | k in db.sources[c.sourceId].value
        ensures k in c.locator.Keys
      {
        assert SurfaceKey(u, c.sourceId, k);
      }
    }
  }

  /** A claim citation row written by the batch carries a citation of one of its claim records. */
  lemma NewClaimCite(db: Db, v: Validated, k: ClaimSourceKey) returns (r: ClaimRecord, c: Citation)
    requires Load(db, v).Some? && k in Load(db, v).value.claimSources && k !in db.claimSources
    ensures r in v.claims && r.id == k.claim && c.sourceId == k.source
    ensures c in r.sources || exists x :: x in r.versions && c in x.sources
    ensures Load(db, v).value.claimSources[k] == CiteRowOf(c)
  {
    hide Plan, ExecAll, CiteRowOf;
    ClaimSourceOrigin(db, Plan(v), k);
    var s :| s in Plan(v) && s.InsClaimSource? && s.claimId == k.claim && s.cite.sourceId == k.source
             && Load(db, v).value.claimSources[k] == CiteRowOf(s.cite);
    PlannedClaim(v, s);
    r :| r in v.claims && OfClaim(r, s);
    c := s.cite;
  }

  lemma NewEventCite(db: Db, v: Validated, k: (string, string)) returns (e: EventRecord, c: Citation)
    requires Load(db, v).Some? && k in Load(db, v).value.eventSources && k !in db.eventSources
    ensures e in v.events && k == (e.id, c.sourceId) && c in e.sources
    ensures Load(db, v).value.eventSources[k] == CiteRowOf(c)
  {
    hide Plan, ExecAll, CiteRowOf;
    EventSourceOrigin(db, Plan(v), k);
    var s :| s in Plan(v) && s.InsEventSource? && (s.eventId, s.cite.sourceId) == k
             && Load(db, v).value.eventSources[k] == CiteRowOf(s.cite);
    PlannedEvent(v, s);
    e :| e in v.events && OfDetail(e, s);
    c := s.cite;
  }

  /** Locators stay valid whenever the surface covers what its sources require. */
  lemma LoadKeepsLocators(db: Db, w: WireExtraction, scope: Scope)
    requires LocatorsValid(db) && Covers(db, scope.unit) && Load(db, Validate(w, scope)).Some?
    ensures LocatorsValid(Load(db, Validate(w, scope)).value)
  {
    hide Plan, ExecAll, Validate, ValidCitation, Covers;
    var v, u := Validate(w, scope), scope.unit;
    var after := Load(db, v).value;
    ValidatedCitesSurface(w, scope);
    ExecAllGrows(db, Plan(v));
    forall k | k in after.claimSources
      ensures LocatorOk(after, k.source, after.claimSources[k])
    {
      if k !in db.claimSources {
        var r, c := NewClaimCite(db, v, k);
        ValidIsLocatorOk(db, u, c);
      }
    }
    forall k | k in after.eventSources
      ensures LocatorOk(after, k.1, after.eventSources[k])
    {
      if k !in db.eventSources {
        var e, c := NewEventCite(db, v, k);
        ValidIsLocatorOk(db, u, c);
      }
    }
  }
}

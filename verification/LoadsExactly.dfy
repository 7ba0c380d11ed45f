/** Exactly which validated payloads the store accepts. */
module LoadsExactly {
  import opened Basics
  import opened Units
  import opened Wire
  import opened Validation
  import opened ValidationTheorems
  import opened Tables
  import opened Loader
  import opened Loadable
  import opened LoadPlan
  import SortedKeys

  /** The id snapshots are the store's own id sets. */
  ghost predicate Matches(db: Db, scope: Scope) {
    scope.dbEntities == db.entities.Keys && scope.dbEvents == db.events.Keys && scope.dbClaims == db.claims.Keys
  }

  /** The unit's sources and relation types are registered. */
  ghost predicate Supplied(db: Db, u: Unit) {
    SurfaceSources(u) <= db.sources.Keys && forall t :: t in u.relTypes ==> t in db.relTypes
  }

  /** A kept event that names itself as cause or consequence, or has an empty participant key. */
  ghost predicate Offends(e: WireEvent) {
    e.id in e.causes || e.id in e.consequences || "" in e.participants
  }

  ghost predicate Offending(w: WireExtraction, scope: Scope) {
    exists e :: e in KeptEvents(scope, w.events) && Offends(e)
  }

  // ---------------------------------------------- what validation yields

  lemma EntityIdsAre(w: WireExtraction)
    ensures (set e | e in EntitiesIn(w) :: e.id) == PayloadIds(w.entities)
    ensures forall e :: e in EntitiesIn(w) ==> e.id != ""
  {
    var kept := KeptEntities(w.entities);
    EntityRecordsAt(kept);
    KeepKeys(w.entities, EntityId(), EntityOk());
    forall id | id in PayloadIds(w.entities)
      ensures exists e :: e in EntitiesIn(w) && e.id == id
    {
      var x :| x in kept && x.id == id;
      var n :| 0 <= n < |kept| && kept[n] == x;
      assert EntitiesIn(w)[n] in EntitiesIn(w) && EntitiesIn(w)[n].id == id;
    }
    forall e | e in EntitiesIn(w)
      ensures e.id in PayloadIds(w.entities) && e.id != ""
    {
      var n :| 0 <= n < |EntitiesIn(w)| && EntitiesIn(w)[n] == e;
      assert kept[n] in kept;
      assert EntityOk()(kept[n]);
    }
  }

  lemma EventIdsAre(w: WireExtraction, scope: Scope)
    ensures KnownEventIds(w, scope) == LinkTargets(scope, w.events)
  {
    var kept, records := KeptEvents(scope, w.events), EventsIn(w, scope);
    EventRecordsAt(kept, PayloadIds(w.entities), scope, LinkTargets(scope, w.events));
    assert |records| == |kept| && forall n :: 0 <= n < |kept| ==> records[n].id == kept[n].id;
    hide EventOf, Linked, LinkedEvents, Keep, KeptEvents, EventsIn;
    SameEventIds(kept, records);
  }

  lemma SameEventIds(kept: seq<WireEvent>, records: seq<EventRecord>)
    requires |records| == |kept| && forall n :: 0 <= n < |kept| ==> records[n].id == kept[n].id
    ensures (set e | e in records :: e.id) == set e | e in kept :: e.id
  {
    forall n | 0 <= n < |kept|
      ensures records[n].id in (set e | e in kept :: e.id) && kept[n].id in set e | e in records :: e.id
    {
      assert kept[n] in kept && records[n] in records;
    }
  }

  ghost function KnownEventIds(w: WireExtraction, scope: Scope): set<string> {
    (set e | e in EventsIn(w, scope) :: e.id) + scope.dbEvents
  }

  lemma ClaimIdsAre(w: WireExtraction, scope: Scope)
    ensures (set c | c in ClaimsIn(w, scope) :: c.id) == ClaimIds(ClaimsOf(w, scope))
  {
    var kept, records := ClaimsOf(w, scope), ClaimsIn(w, scope);
    ClaimRecordsAt(kept, scope.unit);
    forall id
      ensures id in (set c | c in records :: c.id) <==> id in ClaimIds(kept)
    {
      if x :| x in kept && x.id == id {
        var n :| 0 <= n < |kept| && kept[n] == x;
        assert records[n] in records && records[n].id == id;
      }
      if x :| x in records && x.id == id {
        var n :| 0 <= n < |records| && records[n] == x;
        assert kept[n] in kept && kept[n].id == id;
      }
    }
  }

  lemma {:induction false} NameKindsFit(ns: seq<WireName>)
    ensures forall n :: n in NameRecords(ns) ==> NameKindCheck(n.nameKind)
  {
    if ns != [] { NameKindsFit(Front(ns)); }
  }

  lemma {:induction false} ParticipantsAre(ids: seq<string>, roles: map<string, string>, payload: set<string>, scope: Scope)
    requires forall id :: id in ids ==> id in roles
    ensures forall p :: p in ResolvedParticipants(ids, roles, payload, scope) ==>
              p.entityId in ids && p.role == roles[p.entityId] && Resolves(p.entityId, payload, scope)
    ensures forall id :: id in ids && Resolves(id, payload, scope) ==>
              Participant(id, roles[id]) in ResolvedParticipants(ids, roles, payload, scope)
  {
    if ids != [] {
      ParticipantsAre(Front(ids), roles, payload, scope);
      assert ids == Front(ids) + [Last(ids)];
    }
  }

  lemma CitedSourcesSupplied(cs: seq<Citation>, u: Unit, t: Targets)
    requires SurfaceSources(u) <= t.sources
    ensures CitesIn(Cited(cs, Citeable(u)), t)
  {
    CiteableExact(u);
    forall c | c in Cited(cs, Citeable(u))
      ensures c.sourceId in t.sources
    {
      FilterIn(cs, OkIn(Citeable(u)), c);
      assert CitationOk(Citeable(u), c);
    }
  }

  lemma EventFitsUnless(w: WireExtraction, scope: Scope, e: WireEvent, t: Targets)
    requires e in KeptEvents(scope, w.events) && !Offends(e)
    requires PayloadIds(w.entities) + scope.dbEntities <= t.entities
    requires LinkTargets(scope, w.events) <= t.events && SurfaceSources(scope.unit) <= t.sources
    ensures EventFits(Linked(EventOf(e, PayloadIds(w.entities), scope), e, LinkTargets(scope, w.events)), t)
  {
    var payload, targets := PayloadIds(w.entities), LinkTargets(scope, w.events);
    var r := Linked(EventOf(e, payload, scope), e, targets);
    assert e.id in targets;
    ParticipantsAre(SortedKeys.Sorted(e.participants.Keys), e.participants, payload, scope);
    forall p | p in r.participants
      ensures p.entityId in t.entities
    {
      assert p.entityId in e.participants.Keys;
    }
    forall id | id in r.causes
      ensures id in t.events && id != e.id
    {
      FilterIn(e.causes, InTargets(targets), id);
    }
    forall id | id in r.consequences
      ensures id in t.events && id != e.id
    {
      FilterIn(e.consequences, InTargets(targets), id);
    }
    CitedSourcesSupplied(e.sources, scope.unit, t);
  }

  lemma {:induction false} VersionSourcesFit(vs: seq<WireVersion>, u: Unit, t: Targets)
    requires SurfaceSources(u) <= t.sources
    ensures forall v :: v in Versions(vs, u) ==> CitesIn(v.sources, t)
  {
    if vs != [] {
      VersionSourcesFit(Front(vs), u, t);
      CitedSourcesSupplied(Last(vs).sources, u, t);
    }
  }

  lemma ClaimFitsAlways(w: WireExtraction, scope: Scope, c: WireClaim, t: Targets)
    requires c in ClaimsOf(w, scope) && ClaimProblem(c) == ""
    requires PayloadIds(w.entities) + scope.dbEntities <= t.entities
    requires ClaimIds(ClaimsOf(w, scope)) <= t.claims && SurfaceSources(scope.unit) <= t.sources
    ensures ClaimFits(ClaimOf(c, scope.unit), t)
  {
    var payload := PayloadIds(w.entities);
    KeepKeys(w.claims, ClaimId(), ClaimOk(payload, scope));
    assert ClaimOk(payload, scope)(c);
    CitedSourcesSupplied(c.sources, scope.unit, t);
    VersionSourcesFit(c.versions, scope.unit, t);
  }

  lemma EdgeFitsAlways(w: WireExtraction, scope: Scope, r: WireRelationship, t: Targets)
    requires r in KeptEdges(PayloadIds(w.entities), scope, w.relationships) && RelationshipProblem(r) == ""
    requires PayloadIds(w.entities) + scope.dbEntities <= t.entities
    requires ClaimIds(ClaimsOf(w, scope)) + scope.dbClaims <= t.claims
    requires forall x :: x in scope.unit.relTypes ==> x in t.relTypes
    ensures EdgeFits(RelationshipOf(r, ClaimIds(ClaimsOf(w, scope)), scope), t)
  {
    var payload := PayloadIds(w.entities);
    KeepKeys(w.relationships, EdgeOf(scope.unit), EdgeOk(payload, scope));
    assert EdgeOk(payload, scope)(r);
  }

  lemma {:induction false} ContradictionsName(cs: seq<ClaimRecord>)
    ensures forall k :: k in Contradictions(cs) ==> exists c :: c in cs && c.id == k.claimId && k == EntryOf(c)
    ensures forall c :: c in cs && Contested(c.confidence) ==> EntryOf(c) in Contradictions(cs)
  {
    if cs != [] {
      ContradictionsName(Front(cs));
      assert cs == Front(cs) + [Last(cs)];
    }
  }

  lemma EntitiesFit(w: WireExtraction, t: Targets)
    requires PayloadIds(w.entities) <= t.entities
    ensures forall e :: e in EntitiesIn(w) ==> EntityFits(e, t)
  {
    var kept := KeptEntities(w.entities);
    EntityRecordsAt(kept);
    forall e | e in EntitiesIn(w)
      ensures EntityFits(e, t)
    {
      var n :| 0 <= n < |kept| && EntitiesIn(w)[n] == e;
      assert kept[n] in kept;
      NameKindsFit(KeptNames(kept[n]));
    }
  }

  lemma EventsFit(w: WireExtraction, scope: Scope, t: Targets)
    requires !Offending(w, scope)
    requires PayloadIds(w.entities) + scope.dbEntities <= t.entities
    requires LinkTargets(scope, w.events) <= t.events && SurfaceSources(scope.unit) <= t.sources
    ensures forall e :: e in EventsIn(w, scope) ==> EventFits(e, t)
  {
    var kept := KeptEvents(scope, w.events);
    EventRecordsAt(kept, PayloadIds(w.entities), scope, LinkTargets(scope, w.events));
    forall e | e in EventsIn(w, scope)
      ensures EventFits(e, t)
    {
      var n :| 0 <= n < |kept| && EventsIn(w, scope)[n] == e;
      assert kept[n] in kept;
      EventFitsUnless(w, scope, kept[n], t);
    }
  }

  lemma ClaimsFit(w: WireExtraction, scope: Scope, t: Targets)
    requires forall c :: c in w.claims ==> ClaimProblem(c) == ""
    requires PayloadIds(w.entities) + scope.dbEntities <= t.entities
    requires ClaimIds(ClaimsOf(w, scope)) <= t.claims && SurfaceSources(scope.unit) <= t.sources
    ensures forall c :: c in ClaimsIn(w, scope) ==> ClaimFits(c, t)
  {
    var kept := ClaimsOf(w, scope);
    ClaimRecordsAt(kept, scope.unit);
    KeepKeys(w.claims, ClaimId(), ClaimOk(PayloadIds(w.entities), scope));
    forall c | c in ClaimsIn(w, scope)
      ensures ClaimFits(c, t)
    {
      var n :| 0 <= n < |kept| && ClaimsIn(w, scope)[n] == c;
      assert kept[n] in kept;
      ClaimFitsAlways(w, scope, kept[n], t);
    }
  }

  lemma EdgesFit(w: WireExtraction, scope: Scope, t: Targets)
    requires forall r :: r in w.relationships ==> RelationshipProblem(r) == ""
    requires PayloadIds(w.entities) + scope.dbEntities <= t.entities
    requires ClaimIds(ClaimsOf(w, scope)) + scope.dbClaims <= t.claims
    requires forall x :: x in scope.unit.relTypes ==> x in t.relTypes
    ensures forall r :: r in EdgesIn(w, scope) ==> EdgeFits(r, t)
  {
    var kept := KeptEdges(PayloadIds(w.entities), scope, w.relationships);
    RelationshipRecordsAt(kept, ClaimIds(ClaimsOf(w, scope)), scope);
    KeepKeys(w.relationships, EdgeOf(scope.unit), EdgeOk(PayloadIds(w.entities), scope));
    forall r | r in EdgesIn(w, scope)
      ensures EdgeFits(r, t)
    {
      var n :| 0 <= n < |kept| && EdgesIn(w, scope)[n] == r;
      assert kept[n] in kept;
      EdgeFitsAlways(w, scope, kept[n], t);
    }
  }

  lemma ValidatedFits(db: Db, w: WireExtraction, scope: Scope)
    requires Required(w) && Matches(db, scope) && Supplied(db, scope.unit) && !Offending(w, scope)
    ensures Fits(Validate(w, scope), RecordTargets(Validate(w, scope), db))
  {
    hide DropsOf, EventFits, ClaimFits, EdgeFits, EntityFits, EventsIn, ClaimsIn, EdgesIn, EntitiesIn, Offending,
      ClaimsOf, LinkTargets, PayloadIds, Contradictions, EventProblem, ClaimProblem, RelationshipProblem, EntityProblem;
    var v := Validate(w, scope);
    var t := RecordTargets(v, db);
    EntityIdsAre(w);
    EventIdsAre(w, scope);
    ClaimIdsAre(w, scope);
    ContradictionsName(ClaimsIn(w, scope));
    EntitiesFit(w, t);
    EventsFit(w, scope, t);
    ClaimsFit(w, scope, t);
    EdgesFit(w, scope, t);
  }

  /** An entity row comes from an entity record. */
  lemma EntityGivenByRecord(v: Validated, id: string)
    requires GivenBy(Plan(v), EntityRef(id))
    ensures exists e :: e in v.entities && e.id == id
  {
    var s :| s in Plan(v) && Gives(s) == Some(EntityRef(id));
    assert s.InsEntity? && s.id == id;
    hide Plan, Gives, NameColumns, EventColumns, ClaimColumns, NullIfEmpty, LinkOf;
    PlannedExactly(v, s);
  }

  /** An offending event makes the load fail. */
  lemma OffenderAborts(db: Db, w: WireExtraction, scope: Scope, e: WireEvent)
    requires Sound(db) && Matches(db, scope) && "" !in db.entities
    requires e in KeptEvents(scope, w.events) && Offends(e)
    ensures Load(db, Validate(w, scope)).None?
  {
    hide Sound, Exec, ExecAll, Plan, EventDetailStmts, EntitiesIn, ClaimsIn, EdgesIn, Contradictions, DropsOf, Keep;
    var v := Validate(w, scope);
    if Load(db, v).Some? {
      var after := Load(db, v).value;
      ExecAllSound(db, Plan(v));
      var r := OffenderRecord(w, scope, e);
      var s := OffenderStmt(r);
      OffenderStmtPlanned(v, r);
      ExecAllPresent(db, Plan(v), s);
      SoundForbids(after, s);
      if s.InsParticipant? {
        ExecAllRefs(db, Plan(v), EntityRef(""));
        EntityIdsAre(w);
        if GivenBy(Plan(v), EntityRef("")) { EntityGivenByRecord(v, ""); }
      }
      assert false;
    }
  }

  /** The statement by which an offending record fails. */
  ghost function OffenderStmt(r: EventRecord): Stmt
    requires r.id in r.causes || r.id in r.consequences || exists p :: p in r.participants && p.entityId == ""
  {
    if r.id in r.causes || r.id in r.consequences then InsLink(LinkKey(r.id, r.id, "cause"))
    else var p :| p in r.participants && p.entityId == ""; InsParticipant(r.id, "", p.role)
  }

  lemma OffenderRecord(w: WireExtraction, scope: Scope, e: WireEvent) returns (r: EventRecord)
    requires e in KeptEvents(scope, w.events) && Offends(e)
    ensures r in EventsIn(w, scope)
    ensures r.id in r.causes || r.id in r.consequences || exists p :: p in r.participants && p.entityId == ""
  {
    var payload, targets := PayloadIds(w.entities), LinkTargets(scope, w.events);
    var kept := KeptEvents(scope, w.events);
    EventRecordsAt(kept, payload, scope, targets);
    var n :| 0 <= n < |kept| && kept[n] == e;
    r := EventsIn(w, scope)[n];
    FilterIn(e.causes, InTargets(targets), e.id);
    FilterIn(e.consequences, InTargets(targets), e.id);
    if "" in e.participants {
      ParticipantsAre(SortedKeys.Sorted(e.participants.Keys), e.participants, payload, scope);
      assert Participant("", e.participants[""]) in r.participants;
    }
  }

  lemma OffenderStmtPlanned(v: Validated, r: EventRecord)
    requires r in v.events
    requires r.id in r.causes || r.id in r.consequences || exists p :: p in r.participants && p.entityId == ""
    ensures OffenderStmt(r) in Plan(v)
  {
    var s := OffenderStmt(r);
    assert OfDetail(r, s);
    PlannedExactly(v, s);
  }

  lemma SoundForbids(db: Db, s: Stmt)
    requires Sound(db) && Present(db, s)
    ensures !(s.InsLink? && s.link.from == s.link.to)
    ensures s.InsParticipant? ==> Has(db, EntityRef(s.entityId))
  {
  }

  /**
   * The store accepts a validated payload exactly when no kept event names itself as
   * cause or consequence and none has an empty participant key.
   */
  lemma LoadsExactly(db: Db, w: WireExtraction, scope: Scope)
    requires Required(w) && Sound(db) && Matches(db, scope) && Supplied(db, scope.unit) && "" !in db.entities
    ensures Load(db, Validate(w, scope)).Some? <==> !Offending(w, scope)
  {
    if Offending(w, scope) {
      var e :| e in KeptEvents(scope, w.events) && Offends(e);
      OffenderAborts(db, w, scope, e);
    } else {
      ValidatedFits(db, w, scope);
      FittingLoads(db, Validate(w, scope));
    }
  }
}

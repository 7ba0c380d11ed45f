/** What one committed unit does to the store: what it adds, what it never touches, and that the citation policy survives. */
module LoadTheorems {
  import opened Basics
  import opened Units
  import opened Wire
  import opened Validation
  import opened ValidationTheorems
  import opened Tables
  import opened Loader
  import opened Loadable
  import opened LoadsExactly
  import opened LoadPlan
  import opened Integrity

  // ------------------------------------------------------- fresh records

  lemma RecordIdsDistinct(w: WireExtraction, scope: Scope)
    ensures forall m, n :: 0 <= m < n < |EventsIn(w, scope)| ==> EventsIn(w, scope)[m].id != EventsIn(w, scope)[n].id
    ensures forall m, n :: 0 <= m < n < |ClaimsIn(w, scope)| ==> ClaimsIn(w, scope)[m].id != ClaimsIn(w, scope)[n].id
    ensures forall e :: e in EventsIn(w, scope) ==> e.id !in scope.dbEvents
    ensures forall c :: c in ClaimsIn(w, scope) ==> c.id !in scope.dbClaims
  {
    EventRecordsFresh(w, scope);
    ClaimRecordsFresh(w, scope);
  }

  lemma EventRecordsFresh(w: WireExtraction, scope: Scope)
    ensures forall m, n :: 0 <= m < n < |EventsIn(w, scope)| ==> EventsIn(w, scope)[m].id != EventsIn(w, scope)[n].id
    ensures forall e :: e in EventsIn(w, scope) ==> e.id !in scope.dbEvents
  {
    var kept, records := KeptEvents(scope, w.events), EventsIn(w, scope);
    EventRecordsAt(kept, PayloadIds(w.entities), scope, LinkTargets(scope, w.events));
    KeepKeys(w.events, EventId(), EventOk(scope));
    forall n | 0 <= n < |records|
      ensures records[n].id == EventId()(kept[n]) && records[n].id !in scope.dbEvents
    {
      assert kept[n] in kept && EventOk(scope)(kept[n]);
    }
  }

  lemma ClaimRecordsFresh(w: WireExtraction, scope: Scope)
    ensures forall m, n :: 0 <= m < n < |ClaimsIn(w, scope)| ==> ClaimsIn(w, scope)[m].id != ClaimsIn(w, scope)[n].id
    ensures forall c :: c in ClaimsIn(w, scope) ==> c.id !in scope.dbClaims
  {
    var kept, records := ClaimsOf(w, scope), ClaimsIn(w, scope);
    ClaimRecordsAt(kept, scope.unit);
    KeepKeys(w.claims, ClaimId(), ClaimOk(PayloadIds(w.entities), scope));
    forall n | 0 <= n < |records|
      ensures records[n].id == ClaimId()(kept[n]) && records[n].id !in scope.dbClaims
    {
      assert kept[n] in kept && ClaimOk(PayloadIds(w.entities), scope)(kept[n]);
    }
  }

  // ---------------------------------------------------- first write wins

  /** No row that was there is changed or lost. */
  ghost predicate Preserved(a: Db, b: Db) {
    Grows(a, b) && SubMap(a.versions, b.versions)
  }

  /**
   * First write wins: a commit changes no pre-existing row, although claim_versions is
   * written with DO UPDATE; that clause can only meet a version of a claim new in this unit.
   */
  lemma FirstWriteWins(db: Db, w: WireExtraction, scope: Scope)
    requires Sound(db) && Matches(db, scope) && Load(db, Validate(w, scope)).Some?
    ensures Preserved(db, Load(db, Validate(w, scope)).value)
  {
    hide Plan, ExecAll, Validate, Sound, EventsIn, ClaimsIn, EdgesIn, DropsOf;
    var v := Validate(w, scope);
    ExecAllGrows(db, Plan(v));
    forall x | x in db.versions
      ensures Load(db, v).value.versions[x] == db.versions[x]
    {
      forall s | s in Plan(v) && s.InsVersion?
        ensures s.version != x
      {
        VersionIsNew(db, w, scope, s, x);
      }
      VersionStatementKept(db, Plan(v), x);
    }
  }

  lemma VersionIsNew(db: Db, w: WireExtraction, scope: Scope, s: Stmt, x: VersionKey)
    requires Sound(db) && Matches(db, scope) && x in db.versions
    requires s in Plan(Validate(w, scope)) && s.InsVersion?
    ensures s.version != x
  {
    hide Plan, EventsIn, ClaimsIn, EdgesIn, DropsOf, OfClaim;
    var v := Validate(w, scope);
    PlannedClaim(v, s);
    var r :| r in v.claims && OfClaim(r, s);
    OfClaimId(r, s);
    RecordIdsDistinct(w, scope);
    assert x.claim in db.claims;
  }

  // ------------------------------------------------- snapshot agreement

  ghost function EntityIds(es: seq<EntityRecord>): set<string> {
    set e | e in es :: e.id
  }

  ghost function EventIds(es: seq<EventRecord>): set<string> {
    set e | e in es :: e.id
  }

  ghost function ClaimRecordIds(cs: seq<ClaimRecord>): set<string> {
    set c | c in cs :: c.id
  }

  lemma LoadAddsEntities(db: Db, v: Validated)
    requires Load(db, v).Some?
    ensures Load(db, v).value.entities.Keys == db.entities.Keys + EntityIds(v.entities)
  {
    hide Plan, ExecAll;
    var after := Load(db, v).value;
    forall id
      ensures id in after.entities <==> id in db.entities || id in EntityIds(v.entities)
    {
      ExecAllRefs(db, Plan(v), EntityRef(id));
      if GivenBy(Plan(v), EntityRef(id)) { EntityGivenByRecord(v, id); }
      if e :| e in v.entities && e.id == id {
        var s := InsEntity(e.id, EntityRowOf(e));
        assert OfEntity(e, s);
        PlannedExactly(v, s);
      }
    }
  }

  lemma LoadAddsEvents(db: Db, v: Validated)
    requires Load(db, v).Some?
    ensures Load(db, v).value.events.Keys == db.events.Keys + EventIds(v.events)
  {
    hide Plan, ExecAll;
    var after := Load(db, v).value;
    forall id
      ensures id in after.events <==> id in db.events || id in EventIds(v.events)
    {
      ExecAllRefs(db, Plan(v), EventRef(id));
      if GivenBy(Plan(v), EventRef(id)) {
        var s :| s in Plan(v) && Gives(s) == Some(EventRef(id));
        PlannedEvent(v, s);
      }
      if e :| e in v.events && e.id == id {
        var s := InsEvent(e.id, EventRowOf(e));
        assert OfEvent(e, s);
        PlannedExactly(v, s);
      }
    }
  }

  lemma LoadAddsClaims(db: Db, v: Validated)
    requires Load(db, v).Some?
    ensures Load(db, v).value.claims.Keys == db.claims.Keys + ClaimRecordIds(v.claims)
  {
    hide Plan, ExecAll, OfClaim;
    var after := Load(db, v).value;
    forall id
      ensures id in after.claims <==> id in db.claims || id in ClaimRecordIds(v.claims)
    {
      ExecAllRefs(db, Plan(v), ClaimRef(id));
      if GivenBy(Plan(v), ClaimRef(id)) {
        var s :| s in Plan(v) && Gives(s) == Some(ClaimRef(id));
        PlannedClaim(v, s);
        var r :| r in v.claims && OfClaim(r, s);
        OfClaimId(r, s);
      }
      if r :| r in v.claims && r.id == id {
        ClaimRowPlanned(v, r);
        assert Gives(InsClaim(r.id, ClaimRowOf(r))) == Some(ClaimRef(id));
      }
    }
  }

  /** Adding the kept ids to the snapshots gives the new store's id sets. */
  lemma SnapshotsAgree(db: Db, w: WireExtraction, scope: Scope)
    requires Matches(db, scope) && Load(db, Validate(w, scope)).Some?
    ensures var v := Validate(w, scope);
            Matches(Load(db, v).value,
                    Scope(scope.unit, scope.dbEntities + EntityIds(v.entities), scope.dbEvents + EventIds(v.events),
                          scope.dbClaims + ClaimRecordIds(v.claims)))
  {
    hide Load, Validate;
    var v := Validate(w, scope);
    LoadAddsEntities(db, v);
    LoadAddsEvents(db, v);
    LoadAddsClaims(db, v);
  }

  // -------------------------------------------------------------- growth

  lemma {:induction false} DistinctEventIds(es: seq<EventRecord>)
    requires forall m, n :: 0 <= m < n < |es| ==> es[m].id != es[n].id
    ensures |EventIds(es)| == |es|
  {
    if es != [] {
      DistinctEventIds(Front(es));
      assert es == Front(es) + [Last(es)];
      assert EventIds(es) == EventIds(Front(es)) + {Last(es).id};
    }
  }

  lemma {:induction false} DistinctClaimIds(cs: seq<ClaimRecord>)
    requires forall m, n :: 0 <= m < n < |cs| ==> cs[m].id != cs[n].id
    ensures |ClaimRecordIds(cs)| == |cs|
  {
    if cs != [] {
      DistinctClaimIds(Front(cs));
      assert cs == Front(cs) + [Last(cs)];
      assert ClaimRecordIds(cs) == ClaimRecordIds(Front(cs)) + {Last(cs).id};
    }
  }

  /** The claims and events counted for a unit are exactly the growth of their tables. */
  lemma CountsAreGrowth(db: Db, w: WireExtraction, scope: Scope)
    requires Matches(db, scope) && Load(db, Validate(w, scope)).Some?
    ensures var v := Validate(w, scope);
            && |Load(db, v).value.claims| == |db.claims| + |v.claims|
            && |Load(db, v).value.events| == |db.events| + |v.events|
  {
    hide Load, EventsIn, ClaimsIn, EdgesIn, EntitiesIn, DropsOf;
    var v := Validate(w, scope);
    var after := Load(db, v).value;
    RecordIdsDistinct(w, scope);
    LoadAddsEvents(db, v);
    LoadAddsClaims(db, v);
    DistinctEventIds(v.events);
    DistinctClaimIds(v.claims);
    DisjointSizes(db.claims.Keys, ClaimRecordIds(v.claims));
    DisjointSizes(db.events.Keys, EventIds(v.events));
    assert |after.claims| == |after.claims.Keys| && |db.claims| == |db.claims.Keys|;
    assert |after.events| == |after.events.Keys| && |db.events| == |db.events.Keys|;
  }

  lemma DisjointSizes(a: set<string>, b: set<string>)
    requires a !! b
    ensures |a + b| == |a| + |b|
  {
  }

  // -------------------------------------- the citation policy survives

  /** A stored citation carries every key its source's surface demands. */
  ghost predicate Carries(u: Unit, source: string, row: CiteRow) {
    source in SurfaceSources(u) && row.locator.Some? && forall k :: SurfaceKey(u, source, k) ==> k in row.locator.value
  }

  /** The stored citations of an event still meet the unit's policy, each with a full locator. */
  ghost predicate EventPolicyStored(db: Db, u: Unit, e: string) {
    && EventCited(db, e)
    && (forall k :: k in db.eventSources && k.0 == e ==> Carries(u, k.1, db.eventSources[k]))
    && (u.policy.requireReference ==> (e, u.reference.sourceId) in db.eventSources)
    && (u.policy.requirePrimary ==> exists k :: k in db.eventSources && k.0 == e && k.1 != u.reference.sourceId)
  }

  /** The same for a claim as a whole, or for one of its versions. */
  ghost predicate ClaimPolicyStored(db: Db, u: Unit, c: string, version: Option<nat>) {
    && (exists k :: k in db.claimSources && k.claim == c && k.version == version)
    && (forall k :: k in db.claimSources && k.claim == c && k.version == version ==> Carries(u, k.source, db.claimSources[k]))
    && (u.policy.requireReference ==> ClaimSourceKey(c, version, u.reference.sourceId) in db.claimSources)
    && (u.policy.requirePrimary ==>
          exists k :: k in db.claimSources && k.claim == c && k.version == version && k.source != u.reference.sourceId)
  }

  ghost predicate Meets(u: Unit, cs: seq<Citation>) {
    PolicyReason(cs, u.policy, u.reference.sourceId).None?
  }

  lemma {:induction false} VersionsMeet(vs: seq<WireVersion>, u: Unit)
    ensures forall x :: x in Versions(vs, u) ==> Meets(u, x.sources)
  {
    if vs != [] { VersionsMeet(Front(vs), u); }
  }

  lemma EventsMeet(w: WireExtraction, scope: Scope)
    ensures forall e :: e in EventsIn(w, scope) ==> Meets(scope.unit, e.sources)
  {
    var kept := KeptEvents(scope, w.events);
    EventRecordsAt(kept, PayloadIds(w.entities), scope, LinkTargets(scope, w.events));
    KeepKeys(w.events, EventId(), EventOk(scope));
    forall e | e in EventsIn(w, scope)
      ensures Meets(scope.unit, e.sources)
    {
      var n :| 0 <= n < |kept| && EventsIn(w, scope)[n] == e;
      assert kept[n] in kept && EventOk(scope)(kept[n]);
    }
  }

  lemma ClaimsMeet(w: WireExtraction, scope: Scope)
    ensures forall c :: c in ClaimsIn(w, scope) ==>
              Meets(scope.unit, c.sources) && forall x :: x in c.versions ==> Meets(scope.unit, x.sources)
  {
    var kept := ClaimsOf(w, scope);
    ClaimRecordsAt(kept, scope.unit);
    KeepKeys(w.claims, ClaimId(), ClaimOk(PayloadIds(w.entities), scope));
    forall c | c in ClaimsIn(w, scope)
      ensures Meets(scope.unit, c.sources) && forall x :: x in c.versions ==> Meets(scope.unit, x.sources)
    {
      var n :| 0 <= n < |kept| && ClaimsIn(w, scope)[n] == c;
      assert kept[n] in kept && ClaimOk(PayloadIds(w.entities), scope)(kept[n]);
      VersionsMeet(kept[n].versions, scope.unit);
    }
  }

  lemma ValidCarries(u: Unit, c: Citation)
    requires ValidCitation(u, c)
    ensures Carries(u, c.sourceId, CiteRowOf(c))
  {
  }

  lemma EventPolicySurvives(db: Db, w: WireExtraction, scope: Scope, e: EventRecord)
    requires Sound(db) && Matches(db, scope) && Load(db, Validate(w, scope)).Some? && e in EventsIn(w, scope)
    ensures EventPolicyStored(Load(db, Validate(w, scope)).value, scope.unit, e.id)
  {
    hide Plan, ExecAll, EventsIn, ClaimsIn, EdgesIn, EntitiesIn, DropsOf, ValidCitation, Carries, CiteRowOf;
    var v, u := Validate(w, scope), scope.unit;
    var after := Load(db, v).value;
    RecordIdsDistinct(w, scope);
    EventsMeet(w, scope);
    ValidatedCitesSurface(w, scope);
    assert forall k :: k in db.eventSources ==> k.0 in db.events;
    forall k | k in after.eventSources && k.0 == e.id
      ensures Carries(u, k.1, after.eventSources[k])
    {
      var r, c := NewEventCite(db, v, k);
      ValidCarries(u, c);
    }
    forall c | c in e.sources
      ensures (e.id, c.sourceId) in after.eventSources
    {
      EventCitePlanned(v, e, c);
      ExecAllPresent(db, Plan(v), InsEventSource(e.id, c));
    }
    assert e.sources[0] in e.sources;
    assert (e.id, e.sources[0].sourceId) in after.eventSources;
    if u.policy.requirePrimary {
      var c :| c in e.sources && c.sourceId != u.reference.sourceId;
      assert (e.id, c.sourceId) in after.eventSources;
    }
  }

  /** The citations cs of the claim, under the given pin, are stored and meet the policy. */
  lemma ClaimPolicySurvives(db: Db, w: WireExtraction, scope: Scope, r: ClaimRecord, pin: Option<string>, cs: seq<Citation>)
    requires Sound(db) && Matches(db, scope) && Load(db, Validate(w, scope)).Some? && r in ClaimsIn(w, scope)
    requires Meets(scope.unit, cs)
    requires forall c :: c in cs ==> InsClaimSource(r.id, pin, c) in Plan(Validate(w, scope))
    ensures var after := Load(db, Validate(w, scope)).value;
            (pin.Some? ==> VersionKey(r.id, pin.value) in after.versions)
            && ClaimPolicyStored(after, scope.unit, r.id, PinId(after, r.id, pin))
  {
    hide Plan, ExecAll, EventsIn, ClaimsIn, EdgesIn, EntitiesIn, DropsOf, ValidCitation, Carries, CiteRowOf;
    var v, u := Validate(w, scope), scope.unit;
    var after := Load(db, v).value;
    RecordIdsDistinct(w, scope);
    ValidatedCitesSurface(w, scope);
    assert forall k :: k in db.claimSources ==> k.claim in db.claims;
    forall k | k in after.claimSources && k.claim == r.id
      ensures Carries(u, k.source, after.claimSources[k])
    {
      var x, c := NewClaimCite(db, v, k);
      ValidCarries(u, c);
    }
    forall c | c in cs
      ensures Present(after, InsClaimSource(r.id, pin, c))
    {
      ExecAllPresent(db, Plan(v), InsClaimSource(r.id, pin, c));
    }
    assert cs[0] in cs;
    var id := PinId(after, r.id, pin);
    assert ClaimSourceKey(r.id, id, cs[0].sourceId) in after.claimSources;
    if u.policy.requireReference {
      var c :| c in cs && c.sourceId == u.reference.sourceId;
      assert Present(after, InsClaimSource(r.id, pin, c));
    }
    if u.policy.requirePrimary {
      var c :| c in cs && c.sourceId != u.reference.sourceId;
      assert ClaimSourceKey(r.id, id, c.sourceId) in after.claimSources;
    }
  }

  /**
   * After citations collapse to one row per source, every newly stored event, claim and
   * version still has its required reference and primary rows, each with a full locator.
   */
  lemma PolicySurvivesStorage(db: Db, w: WireExtraction, scope: Scope)
    requires Sound(db) && Matches(db, scope) && Load(db, Validate(w, scope)).Some?
    ensures var v := Validate(w, scope);
            var after := Load(db, v).value;
            && (forall e :: e in v.events ==> EventPolicyStored(after, scope.unit, e.id))
            && (forall c :: c in v.claims ==> ClaimPolicyStored(after, scope.unit, c.id, None))
            && (forall c, x :: c in v.claims && x in c.versions ==>
                  VersionKey(c.id, x.tradition) in after.versions
                  && ClaimPolicyStored(after, scope.unit, c.id, Some(after.versions[VersionKey(c.id, x.tradition)].id)))
  {
    hide Load, Plan, EventsIn, ClaimsIn, EdgesIn, EntitiesIn, DropsOf, EventPolicyStored, ClaimPolicyStored, Sound, Matches, Meets;
    var v := Validate(w, scope);
    ClaimsMeet(w, scope);
    forall e | e in v.events
      ensures EventPolicyStored(Load(db, v).value, scope.unit, e.id)
    {
      EventPolicySurvives(db, w, scope, e);
    }
    forall c | c in v.claims
      ensures ClaimPolicyStored(Load(db, v).value, scope.unit, c.id, None)
    {
      forall cite | cite in c.sources
        ensures InsClaimSource(c.id, None, cite) in Plan(v)
      {
        ClaimCitePlanned(v, c, cite);
      }
      ClaimPolicySurvives(db, w, scope, c, None, c.sources);
    }
    forall c, x | c in v.claims && x in c.versions
      ensures var after := Load(db, v).value;
              VersionKey(c.id, x.tradition) in after.versions
              && ClaimPolicyStored(after, scope.unit, c.id, Some(after.versions[VersionKey(c.id, x.tradition)].id))
    {
      forall cite | cite in x.sources
        ensures InsClaimSource(c.id, Some(x.tradition), cite) in Plan(v)
      {
        VersionCitePlanned(v, c, x, cite);
      }
      ClaimPolicySurvives(db, w, scope, c, Some(x.tradition), x.sources);
    }
  }

  // ------------------------------------------- two payloads that abort

  ghost function SampleUnit(): Unit {
    Unit("ref:a", 1, "a", "body", false, Citation("ref", map[], ""), [], CitationPolicy(true, false), [], [], [], map[])
  }

  ghost function SampleDb(): Db {
    Db(map["ref" := None], {}, map[], map[], map[], map[], {}, map[], map[], map[], 0, map[], map[], map[], map[])
  }

  ghost function SampleScope(): Scope {
    Scope(SampleUnit(), {}, {}, {})
  }

  ghost function SampleEvent(participants: map<string, string>, causes: seq<string>): WireEvent {
    WireEvent("a", "", "s", "", None, "", participants, causes, [], [Citation("ref", map[], "")])
  }

  lemma SampleKept(e: WireEvent)
    requires exists p, c :: e == SampleEvent(p, c)
    ensures e in KeptEvents(SampleScope(), [e])
    ensures Required(WireExtraction([], [e], [], []))
  {
    var u := SampleUnit();
    CiteOrDrop(u, e.sources);
    assert e.sources[0] in e.sources && ValidCitation(u, e.sources[0]);
    assert IsSlug("a");
    assert EventPasses(SampleScope(), e);
    assert FirstOk([e], EventId(), EventOk(SampleScope()), 0);
    assert Keep([e], EventId(), EventOk(SampleScope())) == [e];
    SourcesFine(e.sources);
  }

  lemma SourcesFine(cs: seq<Citation>)
    requires forall c :: c in cs ==> c.sourceId != ""
    ensures SourcesProblem(cs) == ""
  {
  }

  /** An event naming itself as its cause passes every drop rule and then aborts the run at the store's CHECK. */
  lemma SelfLinkAborts() returns (w: WireExtraction)
    ensures Required(w) && |w.events| == 1 && w.events[0].causes == [w.events[0].id]
    ensures Load(SampleDb(), Validate(w, SampleScope())).None?
  {
    var e := SampleEvent(map[], ["a"]);
    w := WireExtraction([], [e], [], []);
    SampleKept(e);
    OffenderAborts(SampleDb(), w, SampleScope(), e);
  }

  /** An empty participant key resolves as "no reference", is kept, and then breaks the entity foreign key. */
  lemma EmptyParticipantAborts() returns (w: WireExtraction)
    ensures Required(w) && |w.events| == 1 && w.events[0].participants == map["" := "leader"]
    ensures Load(SampleDb(), Validate(w, SampleScope())).None?
  {
    var e := SampleEvent(map["" := "leader"], []);
    w := WireExtraction([], [e], [], []);
    SampleKept(e);
    OffenderAborts(SampleDb(), w, SampleScope(), e);
  }
}

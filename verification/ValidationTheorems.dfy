/** What the drop rules guarantee: the exact keep-sets, and one drop per rejected record. */
module ValidationTheorems {
  import opened Basics
  import opened Units
  import opened Wire
  import opened Validation

  // ------------------------------------------------ the citation contract

  /** A citation is valid: its source is on the unit's surface and it carries every key required there. */
  ghost predicate ValidCitation(u: Unit, c: Citation) {
    c.sourceId in SurfaceSources(u) && forall k :: SurfaceKey(u, c.sourceId, k) ==> k in c.locator
  }

  ghost predicate Offers(cs: seq<Candidate>, s: string) {
    exists c :: c in cs && c.sourceId == s
  }

  ghost predicate OffersKey(cs: seq<Candidate>, s: string, k: string) {
    exists c :: c in cs && c.sourceId == s && k in c.locator
  }

  lemma {:induction false} CandidatesExact(m: Surface, cs: seq<Candidate>, s: string, k: string)
    ensures s in AddCandidates(m, cs) <==> s in m || Offers(cs, s)
    ensures s in AddCandidates(m, cs) ==>
              (k in AddCandidates(m, cs)[s] <==> (s in m && k in m[s]) || OffersKey(cs, s, k))
  {
    if cs != [] {
      var last := Last(cs);
      CandidatesExact(m, Front(cs), s, k);
      assert cs == Front(cs) + [last];
      assert Offers(cs, s) <==> Offers(Front(cs), s) || last.sourceId == s;
      assert OffersKey(cs, s, k) <==> OffersKey(Front(cs), s, k) || (last.sourceId == s && k in last.locator);
    }
  }

  /** The surface built by the code is the one stated source by source and key by key. */
  lemma CiteableExact(u: Unit)
    ensures forall s :: s in Citeable(u) <==> s in SurfaceSources(u)
    ensures forall s, k :: s in Citeable(u) ==> (k in Citeable(u)[s] <==> SurfaceKey(u, s, k))
  {
    var m := AddSource(map[], u.reference.sourceId, u.reference.locator);
    forall s
      ensures s in Citeable(u) <==> s in SurfaceSources(u)
    {
      CandidatesExact(m, u.candidates, s, "");
    }
    forall s, k
      ensures s in Citeable(u) ==> (k in Citeable(u)[s] <==> SurfaceKey(u, s, k))
    {
      CandidatesExact(m, u.candidates, s, k);
    }
  }

  lemma CitationOkExact(u: Unit, c: Citation)
    ensures CitationOk(Citeable(u), c) <==> ValidCitation(u, c)
  {
    CiteableExact(u);
    if CitationOk(Citeable(u), c) {
      forall k | SurfaceKey(u, c.sourceId, k)
        ensures k in c.locator
      {
        assert k in Citeable(u)[c.sourceId];
      }
    }
    if ValidCitation(u, c) {
      forall k | k in Citeable(u)[c.sourceId]
        ensures k in c.locator.Keys
      {
        assert SurfaceKey(u, c.sourceId, k);
      }
    }
  }

  lemma CitedExact(u: Unit, cs: seq<Citation>, c: Citation)
    ensures c in Cited(cs, Citeable(u)) <==> c in cs && ValidCitation(u, c)
  {
    FilterIn(cs, OkIn(Citeable(u)), c);
    CitationOkExact(u, c);
  }

  ghost predicate CitesValidly(u: Unit, cs: seq<Citation>) {
    exists c :: c in cs && ValidCitation(u, c)
  }

  ghost predicate CitesReferenceValidly(u: Unit, cs: seq<Citation>) {
    exists c :: c in cs && ValidCitation(u, c) && c.sourceId == u.reference.sourceId
  }

  ghost predicate CitesPrimaryValidly(u: Unit, cs: seq<Citation>) {
    exists c :: c in cs && ValidCitation(u, c) && c.sourceId != u.reference.sourceId
  }

  /** Cite or drop: the contract is met exactly when the valid citations cover what the policy demands. */
  lemma CiteOrDrop(u: Unit, cs: seq<Citation>)
    ensures CiteReason(cs, u).None? <==>
              && CitesValidly(u, cs)
              && (u.policy.requireReference ==> CitesReferenceValidly(u, cs))
              && (u.policy.requirePrimary ==> CitesPrimaryValidly(u, cs))
  {
    var kept := Cited(cs, Citeable(u));
    forall c
      ensures c in kept <==> c in cs && ValidCitation(u, c)
    {
      CitedExact(u, cs, c);
    }
    if kept != [] {
      assert kept[0] in kept;
      assert CitesValidly(u, cs);
    }
    assert CitesReference(kept, u.reference.sourceId) <==> CitesReferenceValidly(u, cs);
    assert CitesPrimary(kept, u.reference.sourceId) <==> CitesPrimaryValidly(u, cs);
  }

  // ---------------------------------------------------- exact keep-sets

  /** The record is the first one of its id to pass every rule. */
  ghost predicate EventKept(scope: Scope, es: seq<WireEvent>, i: nat)
    requires i < |es|
  {
    EventPasses(scope, es[i]) && forall j :: 0 <= j < i && EventPasses(scope, es[j]) ==> es[j].id != es[i].id
  }

  ghost predicate ClaimKept(payload: set<string>, scope: Scope, cs: seq<WireClaim>, i: nat)
    requires i < |cs|
  {
    ClaimPasses(payload, scope, cs[i]) && forall j :: 0 <= j < i && ClaimPasses(payload, scope, cs[j]) ==> cs[j].id != cs[i].id
  }

  ghost predicate EdgeKept(payload: set<string>, scope: Scope, rs: seq<WireRelationship>, i: nat)
    requires i < |rs|
  {
    && EdgePasses(payload, scope, rs[i])
    && forall j :: 0 <= j < i && EdgePasses(payload, scope, rs[j]) ==> EdgeOf(scope.unit)(rs[j]) != EdgeOf(scope.unit)(rs[i])
  }

  lemma {:induction false} EventRecordsAt(es: seq<WireEvent>, payload: set<string>, scope: Scope, targets: set<string>)
    ensures |LinkedEvents(es, payload, scope, targets)| == |es|
    ensures forall n :: 0 <= n < |es| ==> LinkedEvents(es, payload, scope, targets)[n] == Linked(EventOf(es[n], payload, scope), es[n], targets)
    decreases |es|
  {
    hide Linked, EventOf;
    if es != [] {
      EventRecordsAt(Front(es), payload, scope, targets);
      assert forall n :: 0 <= n < |es| - 1 ==> Front(es)[n] == es[n];
    }
  }

  lemma {:induction false} ClaimRecordsAt(cs: seq<WireClaim>, u: Unit)
    ensures |ClaimRecords(cs, u)| == |cs|
    ensures forall n :: 0 <= n < |cs| ==> ClaimRecords(cs, u)[n] == ClaimOf(cs[n], u)
    decreases |cs|
  {
    hide ClaimOf;
    if cs != [] {
      ClaimRecordsAt(Front(cs), u);
      assert forall n :: 0 <= n < |cs| - 1 ==> Front(cs)[n] == cs[n];
    }
  }

  lemma {:induction false} RelationshipRecordsAt(rs: seq<WireRelationship>, claims: set<string>, scope: Scope)
    ensures |RelationshipRecords(rs, claims, scope)| == |rs|
    ensures forall n :: 0 <= n < |rs| ==> RelationshipRecords(rs, claims, scope)[n] == RelationshipOf(rs[n], claims, scope)
    decreases |rs|
  {
    hide RelationshipOf;
    if rs != [] {
      RelationshipRecordsAt(Front(rs), claims, scope);
      assert forall n :: 0 <= n < |rs| - 1 ==> Front(rs)[n] == rs[n];
    }
  }

  lemma {:induction false} EntityRecordsAt(es: seq<WireEntity>)
    ensures |EntityRecords(es)| == |es|
    ensures forall n :: 0 <= n < |es| ==> EntityRecords(es)[n] == EntityOf(es[n])
    decreases |es|
  {
    hide EntityOf;
    if es != [] {
      EntityRecordsAt(Front(es));
      assert forall n :: 0 <= n < |es| - 1 ==> Front(es)[n] == es[n];
    }
  }

  /** Position i holds a kept event, claim or edge. */
  ghost function EventAt(w: WireExtraction, scope: Scope): nat -> bool {
    i => 0 <= i < |w.events| && EventKept(scope, w.events, i)
  }

  ghost function ClaimAt(w: WireExtraction, scope: Scope): nat -> bool {
    i => 0 <= i < |w.claims| && ClaimKept(PayloadIds(w.entities), scope, w.claims, i)
  }

  ghost function EdgeAt(w: WireExtraction, scope: Scope): nat -> bool {
    i => 0 <= i < |w.relationships| && EdgeKept(PayloadIds(w.entities), scope, w.relationships, i)
  }

  lemma EventPositions(w: WireExtraction, scope: Scope)
    ensures Lists(FirstIndices(w.events, EventId(), EventOk(scope)), |w.events|, EventAt(w, scope))
  {
    hide EventPasses, FirstIndices, Keep;
    var key, ok, es := EventId(), EventOk(scope), w.events;
    KeepExact(es, key, ok);
    forall i | 0 <= i < |es|
      ensures FirstOk(es, key, ok, i) <==> EventKept(scope, es, i)
    {
      assert forall j :: 0 <= j <= i ==> ok(es[j]) == EventPasses(scope, es[j]) && key(es[j]) == es[j].id;
    }
  }

  lemma ClaimPositions(w: WireExtraction, scope: Scope)
    ensures Lists(FirstIndices(w.claims, ClaimId(), ClaimOk(PayloadIds(w.entities), scope)), |w.claims|, ClaimAt(w, scope))
  {
    hide ClaimPasses, FirstIndices, Keep;
    var payload := PayloadIds(w.entities);
    var key, ok, cs := ClaimId(), ClaimOk(payload, scope), w.claims;
    KeepExact(cs, key, ok);
    forall i | 0 <= i < |cs|
      ensures FirstOk(cs, key, ok, i) <==> ClaimKept(payload, scope, cs, i)
    {
      assert forall j :: 0 <= j <= i ==> ok(cs[j]) == ClaimPasses(payload, scope, cs[j]) && key(cs[j]) == cs[j].id;
    }
  }

  lemma EdgePositions(w: WireExtraction, scope: Scope)
    ensures Lists(FirstIndices(w.relationships, EdgeOf(scope.unit), EdgeOk(PayloadIds(w.entities), scope)),
                  |w.relationships|, EdgeAt(w, scope))
  {
    hide EdgePasses, FirstIndices, Keep;
    var payload := PayloadIds(w.entities);
    var key, ok, rs := EdgeOf(scope.unit), EdgeOk(payload, scope), w.relationships;
    KeepExact(rs, key, ok);
    forall i | 0 <= i < |rs|
      ensures FirstOk(rs, key, ok, i) <==> EdgeKept(payload, scope, rs, i)
    {
      assert forall j :: 0 <= j <= i ==> ok(rs[j]) == EdgePasses(payload, scope, rs[j]);
    }
  }

  /** The first entity of its id with a slug for an id. */
  ghost predicate EntityKept(es: seq<WireEntity>, i: nat)
    requires i < |es|
  {
    IsSlug(es[i].id) && forall j :: 0 <= j < i && IsSlug(es[j].id) ==> es[j].id != es[i].id
  }

  ghost function EntityAt(w: WireExtraction): nat -> bool {
    i => 0 <= i < |w.entities| && EntityKept(w.entities, i)
  }

  lemma EntityPositions(w: WireExtraction)
    ensures Lists(FirstIndices(w.entities, EntityId(), EntityOk()), |w.entities|, EntityAt(w))
  {
    hide IsSlug, FirstIndices, Keep;
    var key, ok, es := EntityId(), EntityOk(), w.entities;
    KeepExact(es, key, ok);
    forall i | 0 <= i < |es|
      ensures FirstOk(es, key, ok, i) <==> EntityKept(es, i)
    {
      assert forall j :: 0 <= j <= i ==> ok(es[j]) == IsSlug(es[j].id) && key(es[j]) == es[j].id;
    }
  }

  /** The kept entities are exactly the first slug-named record of each id, in wire order. */
  lemma EntityKeepSet(w: WireExtraction) returns (at: seq<nat>)
    ensures Lists(at, |w.entities|, EntityAt(w))
    ensures |EntitiesIn(w)| == |at|
    ensures forall n :: 0 <= n < |at| ==> at[n] < |w.entities| && EntitiesIn(w)[n] == EntityOf(w.entities[at[n]])
  {
    hide Lists, EntityAt, EntityOk, FirstOk, FirstIndices, Keep, EntityOf, EntityRecords;
    at := FirstIndices(w.entities, EntityId(), EntityOk());
    EntityPositions(w);
    KeepExact(w.entities, EntityId(), EntityOk());
    EntityRecordsAt(KeptEntities(w.entities));
  }

  /** An entity's kept names are distinct, and are exactly its wire names that are neither empty nor canonical. */
  lemma NamesExact(e: WireEntity)
    ensures forall m, n :: 0 <= m < n < |KeptNames(e)| ==> KeptNames(e)[m].name != KeptNames(e)[n].name
    ensures forall x: WireName :: x in KeptNames(e) ==> x in e.names && x.name != "" && x.name != e.canonicalName
    ensures forall x :: x in e.names && x.name != "" && x.name != e.canonicalName ==>
              exists y :: y in KeptNames(e) && y.name == x.name
  {
    var key, ok := NameText(), NameOk(e.canonicalName);
    KeepKeys(e.names, key, ok);
    var kept := KeptNames(e);
    forall m, n | 0 <= m < n < |kept|
      ensures kept[m].name != kept[n].name
    {
      assert key(kept[m]) != key(kept[n]);
    }
    forall x | x in e.names && x.name != "" && x.name != e.canonicalName
      ensures exists y :: y in kept && y.name == x.name
    {
      var i :| 0 <= i < |e.names| && e.names[i] == x;
      assert ok(e.names[i]);
      var n :| 0 <= n < |kept| && key(kept[n]) == key(e.names[i]);
      assert kept[n] in kept;
    }
  }

  /** The kept events are exactly the first passing record of each id, in wire order. */
  lemma EventKeepSet(w: WireExtraction, scope: Scope) returns (at: seq<nat>)
    ensures Lists(at, |w.events|, EventAt(w, scope))
    ensures |EventsIn(w, scope)| == |at|
    ensures forall n :: 0 <= n < |at| ==>
              at[n] < |w.events| && EventsIn(w, scope)[n] ==
              Linked(EventOf(w.events[at[n]], PayloadIds(w.entities), scope), w.events[at[n]], LinkTargets(scope, w.events))
  {
    hide Lists, EventAt, EventOk, FirstOk, FirstIndices, Keep, Linked, EventOf, LinkTargets, LinkedEvents, PayloadIds;
    at := FirstIndices(w.events, EventId(), EventOk(scope));
    EventPositions(w, scope);
    KeepExact(w.events, EventId(), EventOk(scope));
    EventRecordsAt(KeptEvents(scope, w.events), PayloadIds(w.entities), scope, LinkTargets(scope, w.events));
  }

  /** The kept claims are exactly the first passing record of each id, in wire order. */
  lemma ClaimKeepSet(w: WireExtraction, scope: Scope) returns (at: seq<nat>)
    ensures Lists(at, |w.claims|, ClaimAt(w, scope))
    ensures |ClaimsIn(w, scope)| == |at|
    ensures forall n :: 0 <= n < |at| ==> at[n] < |w.claims| && ClaimsIn(w, scope)[n] == ClaimOf(w.claims[at[n]], scope.unit)
  {
    hide Lists, ClaimAt, ClaimOk, FirstOk, FirstIndices, Keep, ClaimOf, ClaimRecords, PayloadIds;
    var payload := PayloadIds(w.entities);
    at := FirstIndices(w.claims, ClaimId(), ClaimOk(payload, scope));
    ClaimPositions(w, scope);
    KeepExact(w.claims, ClaimId(), ClaimOk(payload, scope));
    ClaimRecordsAt(KeptClaims(payload, scope, w.claims), scope.unit);
  }

  ghost function EdgeOfRecord(r: RelationshipRecord): Edge {
    Edge(r.fromEntityId, r.toEntityId, r.relType)
  }

  /** The record made of a kept edge has the edge's triple. */
  lemma EdgeTriples(w: WireExtraction, scope: Scope)
    ensures var kept := KeptEdges(PayloadIds(w.entities), scope, w.relationships);
            && |EdgesIn(w, scope)| == |kept|
            && forall n :: 0 <= n < |kept| ==> EdgeOfRecord(EdgesIn(w, scope)[n]) == EdgeOf(scope.unit)(kept[n])
  {
    hide EdgePasses, Keep, RelationshipRecords, PayloadIds;
    var kept := KeptEdges(PayloadIds(w.entities), scope, w.relationships);
    RelationshipRecordsAt(kept, ClaimIds(ClaimsOf(w, scope)), scope);
  }

  /**
   * The kept edges are pairwise distinct and are exactly the alias-normalised triples
   * of the passing wire edges, each at its first occurrence.
   */
  lemma EdgeKeepSet(w: WireExtraction, scope: Scope) returns (at: seq<nat>)
    ensures Lists(at, |w.relationships|, EdgeAt(w, scope))
    ensures |EdgesIn(w, scope)| == |at|
    ensures forall n :: 0 <= n < |at| ==>
              at[n] < |w.relationships| && EdgeOfRecord(EdgesIn(w, scope)[n]) == EdgeOf(scope.unit)(w.relationships[at[n]])
    ensures forall m, n :: 0 <= m < n < |at| ==>
              EdgeOfRecord(EdgesIn(w, scope)[m]) != EdgeOfRecord(EdgesIn(w, scope)[n])
    ensures forall i :: 0 <= i < |w.relationships| && EdgePasses(PayloadIds(w.entities), scope, w.relationships[i]) ==>
              exists n :: 0 <= n < |at| && EdgeOfRecord(EdgesIn(w, scope)[n]) == EdgeOf(scope.unit)(w.relationships[i])
  {
    hide Lists, EdgeAt, EdgePasses, FirstOk, FirstIndices, Keep, EdgeOfRecord, EdgeOf, EdgesIn, PayloadIds;
    var payload := PayloadIds(w.entities);
    var key, ok, rs := EdgeOf(scope.unit), EdgeOk(payload, scope), w.relationships;
    at := FirstIndices(rs, key, ok);
    EdgePositions(w, scope);
    KeepExact(rs, key, ok);
    KeepKeys(rs, key, ok);
    EdgeTriples(w, scope);
    var kept, records := KeptEdges(payload, scope, rs), EdgesIn(w, scope);
    forall i | 0 <= i < |rs| && EdgePasses(payload, scope, rs[i])
      ensures exists n :: 0 <= n < |at| && EdgeOfRecord(records[n]) == key(rs[i])
    {
      assert ok(rs[i]);
      var n :| 0 <= n < |kept| && key(kept[n]) == key(rs[i]);
      assert EdgeOfRecord(records[n]) == key(rs[i]);
    }
  }
}

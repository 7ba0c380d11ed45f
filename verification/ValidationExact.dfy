/**
 * Validation, said of the wire records, the kept records and the graph's ids alone: the
 * predicates of this module appear in no function or method that computes the result.
 */
module ValidationExact {
  import opened Basics
  import opened Units
  import opened Wire
  import opened Validation
  import opened ValidationTheorems
  import opened LoadsExactly
  import SortedKeys

  // ------------------------------------------------------------------- slugs

  const SLUG_HEADS := "abcdefghijklmnopqrstuvwxyz0123456789"
  const SLUG_TAILS := "abcdefghijklmnopqrstuvwxyz0123456789_-"

  /** Written in the slug alphabet, with a letter or digit first. */
  ghost predicate SlugWritten(s: string) {
    s != "" && s[0] in SLUG_HEADS && forall i :: 0 <= i < |s| ==> s[i] in SLUG_TAILS
  }

  lemma LetterIn(c: char)
    ensures 'a' <= c <= 'z' <==> c in "abcdefghijklmnopqrstuvwxyz"
  {
    LowLetterIn(c);
    HighLetterIn(c);
    assert "abcdefghijklmnopqrstuvwxyz" == "abcdefghijklm" + "nopqrstuvwxyz";
  }

  lemma LowLetterIn(c: char)
    ensures 'a' <= c <= 'm' <==> c in "abcdefghijklm"
  {
    if 'a' <= c <= 'm' {
      assert "abcdefghijklm"[(c as int) - ('a' as int)] == c;
    }
  }

  lemma HighLetterIn(c: char)
    ensures 'n' <= c <= 'z' <==> c in "nopqrstuvwxyz"
  {
    if 'n' <= c <= 'z' {
      assert "nopqrstuvwxyz"[(c as int) - ('n' as int)] == c;
    }
  }

  lemma DigitIn(c: char)
    ensures '0' <= c <= '9' <==> c in "0123456789"
  {
    if '0' <= c <= '9' {
      assert "0123456789"[(c as int) - ('0' as int)] == c;
    }
  }

  lemma SlugHeadIn(c: char)
    ensures SlugHead(c) <==> c in SLUG_HEADS
    ensures SlugTail(c) <==> c in SLUG_TAILS
  {
    LetterIn(c);
    DigitIn(c);
    var letters, digits := "abcdefghijklmnopqrstuvwxyz", "0123456789";
    assert SLUG_HEADS == letters + digits;
    assert SLUG_TAILS == SLUG_HEADS + "_-";
    assert c in "_-" <==> c == '_' || c == '-';
  }

  lemma SlugExact(s: string)
    ensures IsSlug(s) <==> SlugWritten(s)
  {
    forall c
      ensures SlugHead(c) <==> c in SLUG_HEADS
      ensures SlugTail(c) <==> c in SLUG_TAILS
    {
      SlugHeadIn(c);
    }
  }

  // --------------------------------------------------------------- references

  /** An empty reference, an entity kept from this payload, or one of the graph. */
  ghost predicate NamesEntity(v: Validated, scope: Scope, id: string) {
    id == "" || (exists e :: e in v.entities && e.id == id) || id in scope.dbEntities
  }

  lemma ResolvesExactly(w: WireExtraction, scope: Scope, id: string)
    ensures Resolves(id, PayloadIds(w.entities), scope) <==> NamesEntity(Validate(w, scope), scope, id)
  {
    hide EntitiesIn, PayloadIds;
    EntityIdsAre(w);
    assert id in (set e | e in EntitiesIn(w) :: e.id) <==> exists e :: e in EntitiesIn(w) && e.id == id;
  }

  /** The citations are valid ones of the unit, and as many kinds of them as the policy demands. */
  ghost predicate Cites(u: Unit, cs: seq<Citation>) {
    && CitesValidly(u, cs)
    && (u.policy.requireReference ==> CitesReferenceValidly(u, cs))
    && (u.policy.requirePrimary ==> CitesPrimaryValidly(u, cs))
  }

  ghost function ValidIn(u: Unit): Citation -> bool {
    (c: Citation) => ValidCitation(u, c)
  }

  lemma {:induction false} FilterSame<T>(s: seq<T>, p: T -> bool, q: T -> bool)
    requires forall x :: x in s ==> p(x) == q(x)
    ensures Filter(s, p) == Filter(s, q)
  {
    if s != [] {
      assert s == Front(s) + [Last(s)];
      FilterSame(Front(s), p, q);
    }
  }

  lemma CitedAre(u: Unit, cs: seq<Citation>)
    ensures Cited(cs, Citeable(u)) == Filter(cs, ValidIn(u))
  {
    forall c
      ensures OkIn(Citeable(u))(c) == ValidIn(u)(c)
    {
      CitationOkExact(u, c);
    }
    FilterSame(cs, OkIn(Citeable(u)), ValidIn(u));
  }

  // ----------------------------------------------------------------- entities

  /** A name worth keeping: neither empty nor the canonical one, nor one listed before. */
  ghost predicate NameWanted(e: WireEntity, i: nat)
    requires i < |e.names|
  {
    && e.names[i].name != "" && e.names[i].name != e.canonicalName
    && forall j :: 0 <= j < i && e.names[j].name != "" && e.names[j].name != e.canonicalName ==>
         e.names[j].name != e.names[i].name
  }

  ghost predicate NameIs(n: WireName, r: EntityName) {
    && r.name == n.name && r.language == n.language
    && r.nameKind == if n.nameKind in ["variant", "alias", "translation", "other"] then n.nameKind else "other"
  }

  /** at lists the positions of the wanted names, ascending, and the records are theirs. */
  ghost predicate NamesAre(e: WireEntity, rs: seq<EntityName>, at: seq<nat>) {
    && |rs| == |at|
    && (forall n :: 0 <= n < |at| ==> at[n] < |e.names| && NameWanted(e, at[n]) && NameIs(e.names[at[n]], rs[n]))
    && (forall m, n :: 0 <= m < n < |at| ==> at[m] < at[n])
    && (forall i :: 0 <= i < |e.names| && NameWanted(e, i) ==> i in at)
  }

  ghost predicate EntityIs(e: WireEntity, r: EntityRecord) {
    && r.id == e.id && r.kind == e.kind && r.canonicalName == e.canonicalName && r.attributes == e.attributes
    && exists at :: NamesAre(e, r.names, at)
  }

  lemma {:induction false} NameRecordsAt(ns: seq<WireName>)
    ensures |NameRecords(ns)| == |ns| && forall n :: 0 <= n < |ns| ==> NameRecords(ns)[n] == NameRecord(ns[n])
  {
    if ns != [] { NameRecordsAt(Front(ns)); }
  }

  lemma WantedNames(e: WireEntity, i: nat)
    requires i < |e.names|
    ensures FirstOk(e.names, NameText(), NameOk(e.canonicalName), i) <==> NameWanted(e, i)
  {
    var key, ok := NameText(), NameOk(e.canonicalName);
    assert forall j :: 0 <= j <= i ==>
      key(e.names[j]) == e.names[j].name && ok(e.names[j]) == (e.names[j].name != "" && e.names[j].name != e.canonicalName);
  }

  lemma NameExact(n: WireName)
    ensures NameIs(n, NameRecord(n))
  {
  }

  lemma EntityExact(e: WireEntity)
    ensures EntityIs(e, EntityOf(e))
  {
    var key, ok := NameText(), NameOk(e.canonicalName);
    var at := FirstIndices(e.names, key, ok);
    KeepExact(e.names, key, ok);
    NameRecordsAt(KeptNames(e));
    hide Keep, FirstIndices, NameRecords, NameIs, NameRecord;
    forall i | 0 <= i < |e.names|
      ensures FirstOk(e.names, key, ok, i) <==> NameWanted(e, i)
    {
      WantedNames(e, i);
    }
    hide FirstOk, NameWanted, FirstIndices, NameIs, NameRecord, NameText, NameOk, Keep, NameRecords;
    forall n | 0 <= n < |at|
      ensures NameIs(e.names[at[n]], EntityOf(e).names[n])
    {
      NameExact(e.names[at[n]]);
    }
    assert NamesAre(e, EntityOf(e).names, at);
  }

  // ------------------------------------------------------------------- events

  ghost predicate EventGood(scope: Scope, e: WireEvent) {
    SlugWritten(e.id) && e.id !in scope.dbEvents && Cites(scope.unit, e.sources)
  }

  lemma EventPassesExactly(scope: Scope, e: WireEvent)
    ensures EventPasses(scope, e) <==> EventGood(scope, e)
  {
    hide CiteReason, CitesValidly, CitesReferenceValidly, CitesPrimaryValidly, IsSlug, SlugWritten;
    SlugExact(e.id);
    CiteOrDrop(scope.unit, e.sources);
  }

  /** An event kept from this payload, or one of the graph. */
  ghost predicate NamesEvent(v: Validated, scope: Scope, id: string) {
    (exists e :: e in v.events && e.id == id) || id in scope.dbEvents
  }

  ghost function EventNamed(v: Validated, scope: Scope): string -> bool {
    (id: string) => NamesEvent(v, scope, id)
  }

  /** Exactly the wire participants that name an entity, each with its role, by ascending key. */
  ghost predicate ParticipantsExact(v: Validated, scope: Scope, e: WireEvent, ps: seq<Participant>) {
    && (forall p :: p in ps ==> p.entityId in e.participants && p.role == e.participants[p.entityId])
    && (forall id :: id in e.participants ==> (NamesEntity(v, scope, id) <==> exists p :: p in ps && p.entityId == id))
    && ByKey(ps)
  }

  ghost predicate ByKey(ps: seq<Participant>) {
    forall m, n :: 0 <= m < n < |ps| ==> SortedKeys.Less(ps[m].entityId, ps[n].entityId)
  }

  ghost predicate EventIs(v: Validated, scope: Scope, e: WireEvent, r: EventRecord) {
    && r.id == e.id && r.kind == e.kind && r.summary == e.summary && r.description == e.description && r.dating == e.dating
    && r.locationEntityId == (if NamesEntity(v, scope, e.locationEntityId) then e.locationEntityId else "")
    && ParticipantsExact(v, scope, e, r.participants)
    && r.causes == Filter(e.causes, EventNamed(v, scope)) && r.consequences == Filter(e.consequences, EventNamed(v, scope))
    && r.sources == Filter(e.sources, ValidIn(scope.unit))
  }

  lemma {:induction false} ResolvedInOrder(ids: seq<string>, roles: map<string, string>, payload: set<string>, scope: Scope)
    requires (forall id :: id in ids ==> id in roles) && SortedKeys.Ascending(ids)
    ensures var ps := ResolvedParticipants(ids, roles, payload, scope);
            (forall p :: p in ps ==> p.entityId in ids) && ByKey(ps)
  {
    if ids != [] {
      ResolvedInOrder(Front(ids), roles, payload, scope);
      var before := ResolvedParticipants(Front(ids), roles, payload, scope);
      forall p | p in before
        ensures SortedKeys.Less(p.entityId, Last(ids)) && p.entityId in ids
      {
        assert p.entityId in Front(ids);
        var i :| 0 <= i < |Front(ids)| && Front(ids)[i] == p.entityId;
        assert ids[i] == p.entityId;
      }
    }
  }

  lemma ParticipantsAreExact(w: WireExtraction, scope: Scope, e: WireEvent)
    ensures ParticipantsExact(Validate(w, scope), scope, e, EventOf(e, PayloadIds(w.entities), scope).participants)
  {
    hide EntitiesIn, PayloadIds, NamesEntity, Resolves, Cited, ByKey;
    var payload, ids := PayloadIds(w.entities), SortedKeys.Sorted(e.participants.Keys);
    var ps := ResolvedParticipants(ids, e.participants, payload, scope);
    ParticipantsAre(ids, e.participants, payload, scope);
    ResolvedInOrder(ids, e.participants, payload, scope);
    assert EventOf(e, payload, scope).participants == ps;
    forall p | p in ps
      ensures p.entityId in e.participants && p.role == e.participants[p.entityId]
    {
      assert p.entityId in ids;
    }
    forall id | id in e.participants
      ensures NamesEntity(Validate(w, scope), scope, id) <==> exists p :: p in ps && p.entityId == id
    {
      assert id in ids;
      ResolvesExactly(w, scope, id);
      if Resolves(id, payload, scope) { assert Participant(id, e.participants[id]) in ps; }
    }
  }

  lemma TargetsAre(w: WireExtraction, scope: Scope, id: string)
    ensures InTargets(LinkTargets(scope, w.events))(id) == EventNamed(Validate(w, scope), scope)(id)
  {
    hide EventsIn, KeptEvents;
    EventIdsAre(w, scope);
    assert id in KnownEventIds(w, scope) <==> NamesEvent(Validate(w, scope), scope, id);
  }

  lemma EventExact(w: WireExtraction, scope: Scope, e: WireEvent)
    ensures EventIs(Validate(w, scope), scope, e, Linked(EventOf(e, PayloadIds(w.entities), scope), e, LinkTargets(scope, w.events)))
  {
    hide EventsIn, LinkTargets, PayloadIds, NamesEntity, NamesEvent, Resolves, ParticipantsExact, ValidCitation, CitationOk, Citeable, Cited;
    ResolvesExactly(w, scope, e.locationEntityId);
    ParticipantsAreExact(w, scope, e);
    CitedAre(scope.unit, e.sources);
    forall id
      ensures InTargets(LinkTargets(scope, w.events))(id) == EventNamed(Validate(w, scope), scope)(id)
    {
      TargetsAre(w, scope, id);
    }
    FilterSame(e.causes, InTargets(LinkTargets(scope, w.events)), EventNamed(Validate(w, scope), scope));
    FilterSame(e.consequences, InTargets(LinkTargets(scope, w.events)), EventNamed(Validate(w, scope), scope));
    NoReference(PayloadIds(w.entities), scope);
  }

  lemma NoReference(payload: set<string>, scope: Scope)
    ensures Resolves("", payload, scope)
  {
  }

  // ------------------------------------------------------------------- claims

  /** The traditions diverge on the claim, or it was abandoned. */
  ghost predicate Disputed(confidence: string) {
    confidence in ["contested", "abandoned_version"]
  }

  ghost function VersionCites(u: Unit): WireVersion -> bool {
    (v: WireVersion) => Cites(u, v.sources)
  }

  ghost predicate ClaimGood(v: Validated, scope: Scope, c: WireClaim) {
    && SlugWritten(c.id) && c.id !in scope.dbClaims
    && NamesEntity(v, scope, c.subjectEntityId) && NamesEntity(v, scope, c.objectEntityId)
    && Cites(scope.unit, c.sources)
    && (Disputed(c.confidence) ==> exists v :: v in c.versions && Cites(scope.unit, v.sources))
  }

  /** The versions that cite, in order, each with its valid citations. */
  ghost predicate VersionsExact(u: Unit, vs: seq<WireVersion>, rs: seq<ClaimVersionRecord>) {
    var kept := Filter(vs, VersionCites(u));
    && |rs| == |kept|
    && forall n :: 0 <= n < |kept| ==>
         rs[n] == ClaimVersionRecord(kept[n].tradition, kept[n].statement, Filter(kept[n].sources, ValidIn(u)))
  }

  ghost predicate ClaimIs(scope: Scope, c: WireClaim, r: ClaimRecord) {
    && r.id == c.id && r.statement == c.statement && r.confidence == c.confidence
    && r.subjectEntityId == c.subjectEntityId && r.predicate_ == c.predicate_ && r.objectEntityId == c.objectEntityId
    && r.objectValue == (if c.objectEntityId == "" then c.objectValue else "")
    && VersionsExact(scope.unit, c.versions, r.versions)
    && r.sources == Filter(c.sources, ValidIn(scope.unit))
  }

  lemma CitesExactly(u: Unit, cs: seq<Citation>)
    ensures CiteReason(cs, u).None? <==> Cites(u, cs)
  {
    CiteOrDrop(u, cs);
  }

  lemma {:induction false} VersionsAre(u: Unit, vs: seq<WireVersion>)
    ensures VersionsExact(u, vs, Versions(vs, u))
    ensures Versions(vs, u) == [] <==> !exists v :: v in vs && Cites(u, v.sources)
  {
    hide Cites, CiteReason, Cited, ValidIn, Citeable;
    if vs != [] {
      VersionsAre(u, Front(vs));
      CitesExactly(u, Last(vs).sources);
      CitedAre(u, Last(vs).sources);
      assert vs == Front(vs) + [Last(vs)];
    }
  }

  lemma ClaimPassesExactly(w: WireExtraction, scope: Scope, c: WireClaim)
    ensures ClaimPasses(PayloadIds(w.entities), scope, c) <==> ClaimGood(Validate(w, scope), scope, c)
  {
    hide Cites, CiteReason, IsSlug, SlugWritten, Resolves, NamesEntity, PayloadIds, EntitiesIn, Versions, VersionsExact;
    SlugExact(c.id);
    ResolvesExactly(w, scope, c.subjectEntityId);
    ResolvesExactly(w, scope, c.objectEntityId);
    CitesExactly(scope.unit, c.sources);
    VersionsAre(scope.unit, c.versions);
  }

  lemma ClaimExact(scope: Scope, c: WireClaim)
    ensures ClaimIs(scope, c, ClaimOf(c, scope.unit))
  {
    hide VersionsExact, Versions, Cited, ValidIn, Citeable;
    VersionsAre(scope.unit, c.versions);
    CitedAre(scope.unit, c.sources);
  }

  // ------------------------------------------------------------ relationships

  /** The authored spelling when there is one. */
  ghost function TypeOf(u: Unit, r: WireRelationship): string {
    if r.relType in u.relAliases then u.relAliases[r.relType] else r.relType
  }

  ghost predicate EdgeGood(v: Validated, scope: Scope, r: WireRelationship) {
    && TypeOf(scope.unit, r) in scope.unit.relTypes
    && NamesEntity(v, scope, r.fromEntityId) && NamesEntity(v, scope, r.toEntityId) && r.fromEntityId != r.toEntityId
  }

  /** Two wire edges say the same thing. */
  ghost predicate SameEdge(u: Unit, r: WireRelationship, q: WireRelationship) {
    r.fromEntityId == q.fromEntityId && r.toEntityId == q.toEntityId && TypeOf(u, r) == TypeOf(u, q)
  }

  /** A claim kept from this payload, or one of the graph. */
  ghost predicate NamesClaim(v: Validated, scope: Scope, id: string) {
    (exists c :: c in v.claims && c.id == id) || id in scope.dbClaims
  }

  ghost predicate EdgeIs(v: Validated, scope: Scope, r: WireRelationship, k: RelationshipRecord) {
    && k.fromEntityId == r.fromEntityId && k.toEntityId == r.toEntityId && k.relType == TypeOf(scope.unit, r)
    && k.claimId == if r.claimId != "" && NamesClaim(v, scope, r.claimId) then r.claimId else ""
  }

  lemma EdgePassesExactly(w: WireExtraction, scope: Scope, r: WireRelationship)
    ensures EdgePasses(PayloadIds(w.entities), scope, r) <==> EdgeGood(Validate(w, scope), scope, r)
  {
    hide Resolves, NamesEntity, PayloadIds, EntitiesIn;
    ResolvesExactly(w, scope, r.fromEntityId);
    ResolvesExactly(w, scope, r.toEntityId);
  }

  lemma EdgeExact(w: WireExtraction, scope: Scope, r: WireRelationship)
    ensures EdgeIs(Validate(w, scope), scope, r, RelationshipOf(r, ClaimIds(ClaimsOf(w, scope)), scope))
  {
    hide ClaimsIn, ClaimsOf;
    ClaimIdsAre(w, scope);
    assert r.claimId in (set c | c in ClaimsIn(w, scope) :: c.id) <==> exists c :: c in ClaimsIn(w, scope) && c.id == r.claimId;
  }

  // -------------------------------------------------------- the register

  ghost predicate RegisterIs(c: ClaimRecord, k: ContradictionEntry) {
    && k.id == c.id + "-tradition" && k.claimId == c.id
    && k.title == (if |c.statement| > 120 then c.statement[..120] else c.statement)
    && k.description == "Auto-registered at extraction: traditions diverge on this claim; per-tradition versions preserved, never auto-resolved."
  }

  ghost function IsDisputed(): ClaimRecord -> bool {
    (c: ClaimRecord) => Disputed(c.confidence)
  }

  /** One register entry for each disputed claim, in order. */
  lemma {:induction false} RegisterExact(cs: seq<ClaimRecord>)
    ensures var kept := Filter(cs, IsDisputed());
            && |Contradictions(cs)| == |kept|
            && forall n :: 0 <= n < |kept| ==> RegisterIs(kept[n], Contradictions(cs)[n])
  {
    if cs != [] { RegisterExact(Front(cs)); }
  }

  // ----------------------------------------------------------------- the whole

  ghost function FirstEntity(w: WireExtraction): nat -> bool {
    i => 0 <= i < |w.entities| && SlugWritten(w.entities[i].id)
         && forall j :: 0 <= j < i && SlugWritten(w.entities[j].id) ==> w.entities[j].id != w.entities[i].id
  }

  ghost function FirstEvent(w: WireExtraction, scope: Scope): nat -> bool {
    i => 0 <= i < |w.events| && EventGood(scope, w.events[i])
         && forall j :: 0 <= j < i && EventGood(scope, w.events[j]) ==> w.events[j].id != w.events[i].id
  }

  ghost function FirstClaim(w: WireExtraction, scope: Scope, v: Validated): nat -> bool {
    i => 0 <= i < |w.claims| && ClaimGood(v, scope, w.claims[i])
         && forall j :: 0 <= j < i && ClaimGood(v, scope, w.claims[j]) ==> w.claims[j].id != w.claims[i].id
  }

  ghost function FirstEdge(w: WireExtraction, scope: Scope, v: Validated): nat -> bool {
    i => 0 <= i < |w.relationships| && EdgeGood(v, scope, w.relationships[i])
         && forall j :: 0 <= j < i && EdgeGood(v, scope, w.relationships[j]) ==>
              !SameEdge(scope.unit, w.relationships[j], w.relationships[i])
  }

  ghost predicate EntitiesKept(w: WireExtraction, v: Validated, at: seq<nat>) {
    && Lists(at, |w.entities|, FirstEntity(w)) && |v.entities| == |at|
    && forall n :: 0 <= n < |at| ==> at[n] < |w.entities| && EntityIs(w.entities[at[n]], v.entities[n])
  }

  ghost predicate EventsKept(w: WireExtraction, scope: Scope, v: Validated, at: seq<nat>) {
    && Lists(at, |w.events|, FirstEvent(w, scope)) && |v.events| == |at|
    && forall n :: 0 <= n < |at| ==> at[n] < |w.events| && EventIs(v, scope, w.events[at[n]], v.events[n])
  }

  ghost predicate ClaimsKept(w: WireExtraction, scope: Scope, v: Validated, at: seq<nat>) {
    && Lists(at, |w.claims|, FirstClaim(w, scope, v)) && |v.claims| == |at|
    && forall n :: 0 <= n < |at| ==> at[n] < |w.claims| && ClaimIs(scope, w.claims[at[n]], v.claims[n])
  }

  ghost predicate EdgesKept(w: WireExtraction, scope: Scope, v: Validated, at: seq<nat>) {
    && Lists(at, |w.relationships|, FirstEdge(w, scope, v)) && |v.relationships| == |at|
    && forall n :: 0 <= n < |at| ==> at[n] < |w.relationships| && EdgeIs(v, scope, w.relationships[at[n]], v.relationships[n])
  }

  ghost predicate Registered(v: Validated) {
    var disputed := Filter(v.claims, IsDisputed());
    && |v.contradictions| == |disputed|
    && forall n :: 0 <= n < |disputed| ==> RegisterIs(disputed[n], v.contradictions[n])
  }

  /** v holds the first good record of each id, or triple, in wire order, with exactly the content it should have. */
  ghost predicate KeptExactly(w: WireExtraction, scope: Scope, v: Validated) {
    && (exists at :: EntitiesKept(w, v, at)) && (exists at :: EventsKept(w, scope, v, at))
    && (exists at :: ClaimsKept(w, scope, v, at)) && (exists at :: EdgesKept(w, scope, v, at))
    && Registered(v)
  }

  lemma ListsSame(at: seq<nat>, n: nat, p: nat -> bool, q: nat -> bool)
    requires Lists(at, n, p) && forall i :: 0 <= i < n ==> (p(i) <==> q(i))
    ensures Lists(at, n, q)
  {
  }

  lemma EntitiesAreKept(w: WireExtraction, scope: Scope)
    ensures exists at :: EntitiesKept(w, Validate(w, scope), at)
  {
    hide IsSlug, SlugWritten, EntityOf, EntityIs, EntitiesIn, Lists;
    var v := Validate(w, scope);
    var at := EntityKeepSet(w);
    forall i | 0 <= i < |w.entities|
      ensures EntityAt(w)(i) <==> FirstEntity(w)(i)
    {
      forall j | 0 <= j <= i
        ensures IsSlug(w.entities[j].id) <==> SlugWritten(w.entities[j].id)
      {
        SlugExact(w.entities[j].id);
      }
    }
    ListsSame(at, |w.entities|, EntityAt(w), FirstEntity(w));
    forall n | 0 <= n < |at|
      ensures EntityIs(w.entities[at[n]], v.entities[n])
    {
      EntityExact(w.entities[at[n]]);
    }
    assert EntitiesKept(w, v, at);
  }

  lemma EventsAreKept(w: WireExtraction, scope: Scope)
    ensures exists at :: EventsKept(w, scope, Validate(w, scope), at)
  {
    hide EventPasses, EventGood, EventOf, Linked, LinkTargets, EventIs, EventsIn, Lists, PayloadIds;
    var v := Validate(w, scope);
    var at := EventKeepSet(w, scope);
    forall i | 0 <= i < |w.events|
      ensures EventAt(w, scope)(i) <==> FirstEvent(w, scope)(i)
    {
      forall j | 0 <= j <= i
        ensures EventPasses(scope, w.events[j]) <==> EventGood(scope, w.events[j])
      {
        EventPassesExactly(scope, w.events[j]);
      }
    }
    ListsSame(at, |w.events|, EventAt(w, scope), FirstEvent(w, scope));
    forall n | 0 <= n < |at|
      ensures EventIs(v, scope, w.events[at[n]], v.events[n])
    {
      EventExact(w, scope, w.events[at[n]]);
    }
    assert EventsKept(w, scope, v, at);
  }

  lemma ClaimsAreKept(w: WireExtraction, scope: Scope)
    ensures exists at :: ClaimsKept(w, scope, Validate(w, scope), at)
  {
    hide ClaimPasses, ClaimGood, ClaimOf, ClaimIs, ClaimsIn, Lists, PayloadIds;
    var v := Validate(w, scope);
    var at := ClaimKeepSet(w, scope);
    forall i | 0 <= i < |w.claims|
      ensures ClaimAt(w, scope)(i) <==> FirstClaim(w, scope, v)(i)
    {
      forall j | 0 <= j <= i
        ensures ClaimPasses(PayloadIds(w.entities), scope, w.claims[j]) <==> ClaimGood(v, scope, w.claims[j])
      {
        ClaimPassesExactly(w, scope, w.claims[j]);
      }
    }
    ListsSame(at, |w.claims|, ClaimAt(w, scope), FirstClaim(w, scope, v));
    forall n | 0 <= n < |at|
      ensures ClaimIs(scope, w.claims[at[n]], v.claims[n])
    {
      ClaimExact(scope, w.claims[at[n]]);
    }
    assert ClaimsKept(w, scope, v, at);
  }

  /** The kept edges are made of the first passing wire edges. */
  lemma EdgesAt(w: WireExtraction, scope: Scope) returns (at: seq<nat>)
    ensures Lists(at, |w.relationships|, EdgeAt(w, scope)) && |EdgesIn(w, scope)| == |at|
    ensures forall n :: 0 <= n < |at| ==>
              at[n] < |w.relationships| && EdgesIn(w, scope)[n] == RelationshipOf(w.relationships[at[n]], ClaimIds(ClaimsOf(w, scope)), scope)
  {
    hide Lists, EdgeAt, EdgePasses, FirstOk, FirstIndices, Keep, EdgeOf, ClaimsOf, ClaimIds, RelationshipOf, RelationshipRecords, PayloadIds;
    var key, ok := EdgeOf(scope.unit), EdgeOk(PayloadIds(w.entities), scope);
    at := FirstIndices(w.relationships, key, ok);
    EdgePositions(w, scope);
    KeepExact(w.relationships, key, ok);
    RelationshipRecordsAt(KeptEdges(PayloadIds(w.entities), scope, w.relationships), ClaimIds(ClaimsOf(w, scope)), scope);
  }

  lemma EdgesAreKept(w: WireExtraction, scope: Scope)
    ensures exists at :: EdgesKept(w, scope, Validate(w, scope), at)
  {
    hide EdgePasses, EdgeGood, RelationshipOf, EdgeIs, EdgesIn, ClaimsOf, Lists, PayloadIds;
    var v := Validate(w, scope);
    var at := EdgesAt(w, scope);
    forall i | 0 <= i < |w.relationships|
      ensures EdgeAt(w, scope)(i) <==> FirstEdge(w, scope, v)(i)
    {
      forall j | 0 <= j <= i
        ensures EdgePasses(PayloadIds(w.entities), scope, w.relationships[j]) <==> EdgeGood(v, scope, w.relationships[j])
      {
        EdgePassesExactly(w, scope, w.relationships[j]);
      }
    }
    ListsSame(at, |w.relationships|, EdgeAt(w, scope), FirstEdge(w, scope, v));
    forall n | 0 <= n < |at|
      ensures EdgeIs(v, scope, w.relationships[at[n]], v.relationships[n])
    {
      EdgeExact(w, scope, w.relationships[at[n]]);
    }
    assert EdgesKept(w, scope, v, at);
  }

  /** Validation keeps exactly that. */
  lemma ValidatesExactly(w: WireExtraction, scope: Scope)
    ensures KeptExactly(w, scope, Validate(w, scope))
  {
    hide EntitiesKept, EventsKept, ClaimsKept, EdgesKept, RegisterIs;
    EntitiesAreKept(w, scope);
    EventsAreKept(w, scope);
    ClaimsAreKept(w, scope);
    EdgesAreKept(w, scope);
    RegisterExact(ClaimsIn(w, scope));
  }
}

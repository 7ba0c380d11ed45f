/** Loading validated records: the statement batch, and the methods that issue it against mutable tables. */
module Loader {
  import opened Basics
  import opened Units
  import opened Validation
  import opened Tables

  function Nullable(s: string): Option<string> {
    if s == "" then None else Some(s)
  }

  // ------------------------------------------------------------ the batch

  function EntityRowOf(e: EntityRecord): EntityRow {
    EntityRow(e.kind, e.canonicalName, e.attributes)
  }

  function NameStmts(entityId: string, names: seq<EntityName>): seq<Stmt> {
    if names == [] then []
    else [InsName(entityId, names[0].name, NameRow(names[0].nameKind, Nullable(names[0].language)))] +
         NameStmts(entityId, names[1..])
  }

  function EntityStmts(e: EntityRecord): seq<Stmt> {
    [InsEntity(e.id, EntityRowOf(e))] + NameStmts(e.id, e.names)
  }

  function EventRowOf(e: EventRecord): EventRow {
    EventRow(Nullable(e.kind), e.summary, Nullable(e.description), Nullable(e.locationEntityId), e.dating)
  }

  function EventStmts(e: EventRecord): seq<Stmt> {
    [InsEvent(e.id, EventRowOf(e))]
  }

  function ParticipantStmts(eventId: string, ps: seq<Participant>): seq<Stmt> {
    if ps == [] then [] else [InsParticipant(eventId, ps[0].entityId, ps[0].role)] + ParticipantStmts(eventId, ps[1..])
  }

  function CauseStmts(eventId: string, ids: seq<string>): seq<Stmt> {
    if ids == [] then [] else [InsLink(LinkKey(ids[0], eventId, "cause"))] + CauseStmts(eventId, ids[1..])
  }

  function ConsequenceStmts(eventId: string, ids: seq<string>): seq<Stmt> {
    if ids == [] then [] else [InsLink(LinkKey(eventId, ids[0], "cause"))] + ConsequenceStmts(eventId, ids[1..])
  }

  function EventCiteStmts(eventId: string, cs: seq<Citation>): seq<Stmt> {
    if cs == [] then [] else [InsEventSource(eventId, cs[0])] + EventCiteStmts(eventId, cs[1..])
  }

  function EventDetailStmts(e: EventRecord): seq<Stmt> {
    ParticipantStmts(e.id, e.participants) + CauseStmts(e.id, e.causes) +
    ConsequenceStmts(e.id, e.consequences) + EventCiteStmts(e.id, e.sources)
  }

  function ClaimRowOf(c: ClaimRecord): ClaimRow {
    ClaimRow(c.statement, Nullable(c.subjectEntityId), Nullable(c.predicate_), Nullable(c.objectEntityId),
             Nullable(c.objectValue), c.confidence)
  }

  function VersionStmts(claimId: string, vs: seq<ClaimVersionRecord>): seq<Stmt> {
    if vs == [] then []
    else [InsVersion(VersionKey(claimId, vs[0].tradition), vs[0].statement)] + VersionStmts(claimId, vs[1..])
  }

  function ClaimCiteStmts(claimId: string, pin: Option<string>, cs: seq<Citation>): seq<Stmt> {
    if cs == [] then [] else [InsClaimSource(claimId, pin, cs[0])] + ClaimCiteStmts(claimId, pin, cs[1..])
  }

  function VersionCiteStmts(claimId: string, vs: seq<ClaimVersionRecord>): seq<Stmt> {
    if vs == [] then []
    else ClaimCiteStmts(claimId, Some(vs[0].tradition), vs[0].sources) + VersionCiteStmts(claimId, vs[1..])
  }

  function ClaimStmts(c: ClaimRecord): seq<Stmt> {
    [InsClaim(c.id, ClaimRowOf(c))] + VersionStmts(c.id, c.versions) +
    ClaimCiteStmts(c.id, None, c.sources) + VersionCiteStmts(c.id, c.versions)
  }

  function RelationshipStmts(r: RelationshipRecord): seq<Stmt> {
    [InsRelationship(RelationshipKey(r.fromEntityId, r.toEntityId, r.relType), Nullable(r.claimId))]
  }

  const AUTO_REGISTERED := "auto-registered at extraction"

  function ContradictionStmts(k: ContradictionEntry): seq<Stmt> {
    [InsContradiction(k.id, ContradictionRow(k.title, k.description)),
     InsContradictionClaim(k.id, k.claimId, AUTO_REGISTERED)]
  }

  /** Everything LoadRecords issues, in its order. */
  function Plan(v: Validated): seq<Stmt> {
    FlatMap(v.entities, EntityStmts) +
    (FlatMap(v.events, EventStmts) +
     (FlatMap(v.events, EventDetailStmts) +
      (FlatMap(v.claims, ClaimStmts) +
       (FlatMap(v.relationships, RelationshipStmts) + FlatMap(v.contradictions, ContradictionStmts)))))
  }

  /** Loading one unit's records: the new state, or none when a constraint fails. */
  function Load(db: Db, v: Validated): Option<Db> {
    ExecAll(db, Plan(v))
  }

  // ------------------------------------------------------- mutable tables

  lemma ExecStep(db: Db, s: Stmt, rest: seq<Stmt>)
    ensures ExecAll(db, [s] + rest) == (match Exec(db, s) case None => None case Some(next) => ExecAll(next, rest))
  {
    assert ([s] + rest)[1..] == rest;
  }

  /** The tables inside one open transaction. A method answers false when a constraint failed. */
  class Transaction {
    const sources: map<string, Option<set<string>>>
    const relTypes: set<string>
    var entities: map<string, EntityRow>
    var names: map<(string, string), NameRow>
    var events: map<string, EventRow>
    var participants: map<(string, string), string>
    var links: set<LinkKey>
    var eventSources: map<(string, string), CiteRow>
    var claims: map<string, ClaimRow>
    var versions: map<VersionKey, VersionRow>
    var nextVersion: nat
    var claimSources: map<ClaimSourceKey, CiteRow>
    var relationships: map<RelationshipKey, Option<string>>
    var contradictions: map<string, ContradictionRow>
    var contradictionClaims: map<ContradictionClaimKey, string>

    /** Begin: the transaction sees the committed state. */
    constructor (db: Db)
      ensures View() == db
    {
      sources, relTypes, entities, names, events := db.sources, db.relTypes, db.entities, db.names, db.events;
      participants, links, eventSources := db.participants, db.links, db.eventSources;
      claims, versions, nextVersion, claimSources := db.claims, db.versions, db.nextVersion, db.claimSources;
      relationships, contradictions, contradictionClaims := db.relationships, db.contradictions, db.contradictionClaims;
    }

    function View(): Db
      reads this
    {
      Db(sources, relTypes, entities, names, events, participants, links, eventSources, claims,
         versions, nextVersion, claimSources, relationships, contradictions, contradictionClaims)
    }

    method InsertEntity(id: string, row: EntityRow) returns (ok: bool)
      modifies this
      ensures (if ok then Some(View()) else None) == Exec(old(View()), InsEntity(id, row))
    {
      if id !in entities {
        entities := entities[id := row];
      }
      return true;
    }

    method InsertName(e: string, n: string, row: NameRow) returns (ok: bool)
      modifies this
      ensures (if ok then Some(View()) else None) == Exec(old(View()), InsName(e, n, row))
    {
      if !NameKindCheck(row.nameKind) { return false; }
      if (e, n) in names { return true; }
      assert forall r :: r in Refs(InsName(e, n, row)) ==> r == EntityRef(e);
      if e !in entities {
        assert EntityRef(e) in Refs(InsName(e, n, row));
        return false;
      }
      names := names[(e, n) := row];
      return true;
    }

    method InsertEvent(id: string, row: EventRow) returns (ok: bool)
      modifies this
      ensures (if ok then Some(View()) else None) == Exec(old(View()), InsEvent(id, row))
    {
      if id in events { return true; }
      if row.location.Some? && row.location.value !in entities {
        assert EntityRef(row.location.value) in Refs(InsEvent(id, row));
        return false;
      }
      events := events[id := row];
      return true;
    }

    method InsertParticipant(e: string, p: string, role: string) returns (ok: bool)
      modifies this
      ensures (if ok then Some(View()) else None) == Exec(old(View()), InsParticipant(e, p, role))
    {
      if (e, p) in participants { return true; }
      if e !in events || p !in entities {
        assert EventRef(e) in Refs(InsParticipant(e, p, role)) && EntityRef(p) in Refs(InsParticipant(e, p, role));
        return false;
      }
      participants := participants[(e, p) := role];
      return true;
    }

    method InsertLink(k: LinkKey) returns (ok: bool)
      modifies this
      ensures (if ok then Some(View()) else None) == Exec(old(View()), InsLink(k))
    {
      if k.from == k.to { return false; }
      if k in links { return true; }
      if k.from !in events || k.to !in events {
        assert EventRef(k.from) in Refs(InsLink(k)) && EventRef(k.to) in Refs(InsLink(k));
        return false;
      }
      links := links + {k};
      return true;
    }

    method InsertEventSource(e: string, c: Citation) returns (ok: bool)
      modifies this
      ensures (if ok then Some(View()) else None) == Exec(old(View()), InsEventSource(e, c))
    {
      if (e, c.sourceId) in eventSources { return true; }
      if e !in events || c.sourceId !in sources {
        assert EventRef(e) in Refs(InsEventSource(e, c)) && SourceRef(c.sourceId) in Refs(InsEventSource(e, c));
        return false;
      }
      eventSources := eventSources[(e, c.sourceId) := CiteRowOf(c)];
      return true;
    }

    method InsertClaim(id: string, row: ClaimRow) returns (ok: bool)
      modifies this
      ensures (if ok then Some(View()) else None) == Exec(old(View()), InsClaim(id, row))
    {
      if !ConfidenceCheck(row.confidence) || (row.object_.Some? && row.objectValue.Some?) { return false; }
      if id in claims { return true; }
      if row.subject.Some? && row.subject.value !in entities {
        assert EntityRef(row.subject.value) in Refs(InsClaim(id, row));
        return false;
      }
      if row.object_.Some? && row.object_.value !in entities {
        assert EntityRef(row.object_.value) in Refs(InsClaim(id, row));
        return false;
      }
      claims := claims[id := row];
      return true;
    }

    /** Inserts a version or gives an existing one the new statement; answers its id either way. */
    method InsertVersion(v: VersionKey, statement: string) returns (ok: bool, id: nat)
      modifies this
      ensures (if ok then Some(View()) else None) == Exec(old(View()), InsVersion(v, statement))
      ensures ok ==> v in versions && id == versions[v].id
    {
      if v in versions {
        id := versions[v].id;
        versions := versions[v := versions[v].(statement := statement)];
        return true, id;
      }
      if v.claim !in claims {
        assert ClaimRef(v.claim) in Refs(InsVersion(v, statement));
        return false, 0;
      }
      id := nextVersion;
      versions := versions[v := VersionRow(id, statement)];
      nextVersion := nextVersion + 1;
      return true, id;
    }

    /** The version id is the one the pinned tradition was given. */
    method InsertClaimSource(c: string, ghost pin: Option<string>, version: Option<nat>, cite: Citation) returns (ok: bool)
      requires pin.Some? ==> VersionKey(c, pin.value) in versions
      requires version == PinId(View(), c, pin)
      modifies this
      ensures (if ok then Some(View()) else None) == Exec(old(View()), InsClaimSource(c, pin, cite))
    {
      var k := ClaimSourceKey(c, version, cite.sourceId);
      if k in claimSources { return true; }
      if c !in claims || cite.sourceId !in sources {
        assert ClaimRef(c) in Refs(InsClaimSource(c, pin, cite)) && SourceRef(cite.sourceId) in Refs(InsClaimSource(c, pin, cite));
        return false;
      }
      claimSources := claimSources[k := CiteRowOf(cite)];
      return true;
    }

    method InsertRelationship(k: RelationshipKey, justification: Option<string>) returns (ok: bool)
      modifies this
      ensures (if ok then Some(View()) else None) == Exec(old(View()), InsRelationship(k, justification))
    {
      if k.from == k.to { return false; }
      if k in relationships { return true; }
      ghost var refs := Refs(InsRelationship(k, justification));
      if k.from !in entities || k.to !in entities || k.relType !in relTypes {
        assert EntityRef(k.from) in refs && EntityRef(k.to) in refs && RelTypeRef(k.relType) in refs;
        return false;
      }
      if justification.Some? && justification.value !in claims {
        assert ClaimRef(justification.value) in refs;
        return false;
      }
      relationships := relationships[k := justification];
      return true;
    }

    method InsertContradiction(id: string, row: ContradictionRow) returns (ok: bool)
      modifies this
      ensures (if ok then Some(View()) else None) == Exec(old(View()), InsContradiction(id, row))
    {
      if id !in contradictions {
        contradictions := contradictions[id := row];
      }
      return true;
    }

    method InsertContradictionClaim(k: string, c: string, tradition: string) returns (ok: bool)
      modifies this
      ensures (if ok then Some(View()) else None) == Exec(old(View()), InsContradictionClaim(k, c, tradition))
    {
      var key := ContradictionClaimKey(k, c, None);
      if key in contradictionClaims { return true; }
      if k !in contradictions || c !in claims {
        assert ContradictionRef(k) in Refs(InsContradictionClaim(k, c, tradition));
        assert ClaimRef(c) in Refs(InsContradictionClaim(k, c, tradition));
        return false;
      }
      contradictionClaims := contradictionClaims[key := tradition];
      return true;
    }

    // ---------------------------------------------------- the load loops

    method LoadEntity(entity: EntityRecord) returns (ok: bool)
      modifies this
      ensures (if ok then Some(View()) else None) == ExecAll(old(View()), EntityStmts(entity))
    {
      hide Exec;
      ExecStep(View(), InsEntity(entity.id, EntityRowOf(entity)), NameStmts(entity.id, entity.names));
      ok := InsertEntity(entity.id, EntityRowOf(entity));
      if !ok { return; }
      for i := 0 to |entity.names|
        invariant ok
        invariant ExecAll(View(), NameStmts(entity.id, entity.names[i..])) == ExecAll(old(View()), EntityStmts(entity))
      {
        var name := entity.names[i];
        var row := NameRow(name.nameKind, Nullable(name.language));
        assert entity.names[i..][1..] == entity.names[i + 1..];
        ExecStep(View(), InsName(entity.id, name.name, row), NameStmts(entity.id, entity.names[i + 1..]));
        ok := InsertName(entity.id, name.name, row);
        if !ok { return; }
      }
      assert entity.names[|entity.names|..] == [];
    }

    method InsertEventCitations(eventId: string, citations: seq<Citation>) returns (ok: bool)
      modifies this
      ensures (if ok then Some(View()) else None) == ExecAll(old(View()), EventCiteStmts(eventId, citations))
    {
      hide Exec;
      ok := true;
      assert citations[0..] == citations;
      for i := 0 to |citations|
        invariant ok
        invariant ExecAll(View(), EventCiteStmts(eventId, citations[i..])) == ExecAll(old(View()), EventCiteStmts(eventId, citations))
      {
        assert citations[i..][1..] == citations[i + 1..];
        ExecStep(View(), InsEventSource(eventId, citations[i]), EventCiteStmts(eventId, citations[i + 1..]));
        ok := InsertEventSource(eventId, citations[i]);
        if !ok { return; }
      }
      assert citations[|citations|..] == [];
    }

    method InsertClaimCitations(claimId: string, ghost pin: Option<string>, version: Option<nat>, citations: seq<Citation>) returns (ok: bool)
      requires pin.Some? ==> VersionKey(claimId, pin.value) in versions
      requires version == PinId(View(), claimId, pin)
      modifies this
      ensures (if ok then Some(View()) else None) == ExecAll(old(View()), ClaimCiteStmts(claimId, pin, citations))
      ensures ok ==> versions == old(versions)
    {
      hide Exec;
      ok := true;
      assert citations[0..] == citations;
      for i := 0 to |citations|
        invariant ok && versions == old(versions)
        invariant ExecAll(View(), ClaimCiteStmts(claimId, pin, citations[i..])) == ExecAll(old(View()), ClaimCiteStmts(claimId, pin, citations))
      {
        assert citations[i..][1..] == citations[i + 1..];
        ghost var before := View();
        ExecStep(before, InsClaimSource(claimId, pin, citations[i]), ClaimCiteStmts(claimId, pin, citations[i + 1..]));
        ok := InsertClaimSource(claimId, pin, version, citations[i]);
        if !ok { return; }
        ClaimSourceKeepsVersions(before, claimId, pin, citations[i]);
      }
      assert citations[|citations|..] == [];
    }

    method LoadLinks(event: EventRecord) returns (ok: bool)
      modifies this
      ensures (if ok then Some(View()) else None) ==
              ExecAll(old(View()), CauseStmts(event.id, event.causes) + ConsequenceStmts(event.id, event.consequences))
    {
      hide Exec;
      ghost var start, tail := View(), ConsequenceStmts(event.id, event.consequences);
      ok := true;
      assert event.causes[0..] == event.causes;
      for i := 0 to |event.causes|
        invariant ok
        invariant ExecAll(View(), CauseStmts(event.id, event.causes[i..]) + tail) ==
                  ExecAll(start, CauseStmts(event.id, event.causes) + tail)
      {
        ghost var rest := CauseStmts(event.id, event.causes[i + 1..]);
        var k := LinkKey(event.causes[i], event.id, "cause");
        assert event.causes[i..][1..] == event.causes[i + 1..];
        assert CauseStmts(event.id, event.causes[i..]) + tail == [InsLink(k)] + (rest + tail);
        ExecStep(View(), InsLink(k), rest + tail);
        ok := InsertLink(k);
        if !ok { return; }
      }
      assert event.causes[|event.causes|..] == [] && [] + tail == tail;
      assert event.consequences[0..] == event.consequences;
      for i := 0 to |event.consequences|
        invariant ok
        invariant ExecAll(View(), ConsequenceStmts(event.id, event.consequences[i..])) ==
                  ExecAll(start, CauseStmts(event.id, event.causes) + tail)
      {
        var k := LinkKey(event.id, event.consequences[i], "cause");
        assert event.consequences[i..][1..] == event.consequences[i + 1..];
        ExecStep(View(), InsLink(k), ConsequenceStmts(event.id, event.consequences[i + 1..]));
        ok := InsertLink(k);
        if !ok { return; }
      }
      assert event.consequences[|event.consequences|..] == [];
    }

    method LoadParticipants(event: EventRecord) returns (ok: bool)
      modifies this
      ensures (if ok then Some(View()) else None) == ExecAll(old(View()), ParticipantStmts(event.id, event.participants))
    {
      hide Exec;
      ok := true;
      assert event.participants[0..] == event.participants;
      for i := 0 to |event.participants|
        invariant ok
        invariant ExecAll(View(), ParticipantStmts(event.id, event.participants[i..])) ==
                  ExecAll(old(View()), ParticipantStmts(event.id, event.participants))
      {
        var p := event.participants[i];
        assert event.participants[i..][1..] == event.participants[i + 1..];
        ExecStep(View(), InsParticipant(event.id, p.entityId, p.role), ParticipantStmts(event.id, event.participants[i + 1..]));
        ok := InsertParticipant(event.id, p.entityId, p.role);
        if !ok { return; }
      }
      assert event.participants[|event.participants|..] == [];
    }

    method LoadEventDetails(event: EventRecord) returns (ok: bool)
      modifies this
      ensures (if ok then Some(View()) else None) == ExecAll(old(View()), EventDetailStmts(event))
    {
      hide Exec, ExecAll;
      ghost var a, b := ParticipantStmts(event.id, event.participants), CauseStmts(event.id, event.causes);
      ghost var c, d := ConsequenceStmts(event.id, event.consequences), EventCiteStmts(event.id, event.sources);
      ghost var start := View();
      assert EventDetailStmts(event) == a + ((b + c) + d);
      ExecConcat(start, a, (b + c) + d);
      ok := LoadParticipants(event);
      if !ok { return; }
      ExecConcat(View(), b + c, d);
      ok := LoadLinks(event);
      if !ok { return; }
      ok := InsertEventCitations(event.id, event.sources);
    }

    /** Writes the versions, remembering each tradition's id. */
    method LoadVersions(claim: ClaimRecord) returns (ok: bool, versionIds: map<string, nat>)
      modifies this
      ensures (if ok then Some(View()) else None) == ExecAll(old(View()), VersionStmts(claim.id, claim.versions))
      ensures ok ==> KnowsIds(versionIds, claim.id, claim.versions)
    {
      hide Exec;
      ok, versionIds := true, map[];
      assert claim.versions[0..] == claim.versions;
      for i := 0 to |claim.versions|
        invariant ok
        invariant ExecAll(View(), VersionStmts(claim.id, claim.versions[i..])) ==
                  ExecAll(old(View()), VersionStmts(claim.id, claim.versions))
        invariant KnowsIds(versionIds, claim.id, claim.versions[..i])
      {
        var version := claim.versions[i];
        var v := VersionKey(claim.id, version.tradition);
        assert claim.versions[i..][1..] == claim.versions[i + 1..];
        assert claim.versions[..i + 1] == claim.versions[..i] + [version];
        ghost var before := View();
        ExecStep(before, InsVersion(v, version.statement), VersionStmts(claim.id, claim.versions[i + 1..]));
        var id: nat;
        ok, id := InsertVersion(v, version.statement);
        if !ok { return; }
        ExecGrows(before, InsVersion(v, version.statement));
        versionIds := versionIds[version.tradition := id];
      }
      assert claim.versions[|claim.versions|..] == [];
      assert claim.versions[..|claim.versions|] == claim.versions;
    }

    /** Every tradition's remembered id is the id of its row. */
    ghost predicate KnowsIds(ids: map<string, nat>, claimId: string, vs: seq<ClaimVersionRecord>)
      reads this
    {
      && (forall i :: 0 <= i < |vs| ==> vs[i].tradition in ids)
      && (forall t :: t in ids ==> VersionKey(claimId, t) in versions && versions[VersionKey(claimId, t)].id == ids[t])
    }

    method LoadVersionCitations(claim: ClaimRecord, versionIds: map<string, nat>) returns (ok: bool)
      requires KnowsIds(versionIds, claim.id, claim.versions)
      modifies this
      ensures (if ok then Some(View()) else None) == ExecAll(old(View()), VersionCiteStmts(claim.id, claim.versions))
    {
      hide Exec;
      ok := true;
      assert claim.versions[0..] == claim.versions;
      for i := 0 to |claim.versions|
        invariant ok && versions == old(versions)
        invariant ExecAll(View(), VersionCiteStmts(claim.id, claim.versions[i..])) ==
                  ExecAll(old(View()), VersionCiteStmts(claim.id, claim.versions))
      {
        var version := claim.versions[i];
        assert claim.versions[i..][1..] == claim.versions[i + 1..];
        ghost var pin := Some(version.tradition);
        ExecConcat(View(), ClaimCiteStmts(claim.id, pin, version.sources), VersionCiteStmts(claim.id, claim.versions[i + 1..]));
        ok := InsertClaimCitations(claim.id, pin, Some(versionIds[version.tradition]), version.sources);
        if !ok { return; }
      }
      assert claim.versions[|claim.versions|..] == [];
    }

    method LoadClaim(claim: ClaimRecord) returns (ok: bool)
      modifies this
      ensures (if ok then Some(View()) else None) == ExecAll(old(View()), ClaimStmts(claim))
    {
      hide Exec, ExecAll;
      ghost var s := InsClaim(claim.id, ClaimRowOf(claim));
      ghost var b, c := VersionStmts(claim.id, claim.versions), ClaimCiteStmts(claim.id, None, claim.sources);
      ghost var d := VersionCiteStmts(claim.id, claim.versions);
      ghost var start := View();
      assert ClaimStmts(claim) == [s] + (b + (c + d));
      ExecStep(start, s, b + (c + d));
      ok := InsertClaim(claim.id, ClaimRowOf(claim));
      if !ok { return; }
      ExecConcat(View(), b, c + d);
      var versionIds: map<string, nat>;
      ok, versionIds := LoadVersions(claim);
      if !ok { return; }
      ExecConcat(View(), c, d);
      ok := InsertClaimCitations(claim.id, None, None, claim.sources);
      if !ok { return; }
      ok := LoadVersionCitations(claim, versionIds);
    }

    /** The whole load; on false the caller rolls back. */
    method LoadRecords(records: Validated) returns (ok: bool)
      modifies this
      ensures (if ok then Some(View()) else None) == Load(old(View()), records)
    {
      hide Exec, ExecAll;
      ghost var a, b := FlatMap(records.entities, EntityStmts), FlatMap(records.events, EventStmts);
      ghost var c, d := FlatMap(records.events, EventDetailStmts), FlatMap(records.claims, ClaimStmts);
      ghost var e, f := FlatMap(records.relationships, RelationshipStmts), FlatMap(records.contradictions, ContradictionStmts);
      ghost var start := View();
      ExecConcat(start, a, b + (c + (d + (e + f))));
      ok := LoadEntities(records.entities);
      if !ok { return; }
      ExecConcat(View(), b, c + (d + (e + f)));
      ok := LoadEventRows(records.events);
      if !ok { return; }
      ExecConcat(View(), c, d + (e + f));
      ok := LoadEvents(records.events);
      if !ok { return; }
      ExecConcat(View(), d, e + f);
      ok := LoadClaims(records.claims);
      if !ok { return; }
      ExecConcat(View(), e, f);
      ok := LoadRelationships(records.relationships);
      if !ok { return; }
      ok := LoadContradictions(records.contradictions);
    }

    method LoadEntities(es: seq<EntityRecord>) returns (ok: bool)
      modifies this
      ensures (if ok then Some(View()) else None) == ExecAll(old(View()), FlatMap(es, EntityStmts))
    {
      ok := true;
      assert es[0..] == es;
      for i := 0 to |es|
        invariant ok
        invariant ExecAll(View(), FlatMap(es[i..], EntityStmts)) == ExecAll(old(View()), FlatMap(es, EntityStmts))
      {
        assert es[i..][1..] == es[i + 1..];
        ExecConcat(View(), EntityStmts(es[i]), FlatMap(es[i + 1..], EntityStmts));
        ok := LoadEntity(es[i]);
        if !ok { return; }
      }
      assert es[|es|..] == [];
    }

    method LoadEventRows(es: seq<EventRecord>) returns (ok: bool)
      modifies this
      ensures (if ok then Some(View()) else None) == ExecAll(old(View()), FlatMap(es, EventStmts))
    {
      hide Exec;
      ok := true;
      assert es[0..] == es;
      for i := 0 to |es|
        invariant ok
        invariant ExecAll(View(), FlatMap(es[i..], EventStmts)) == ExecAll(old(View()), FlatMap(es, EventStmts))
      {
        assert es[i..][1..] == es[i + 1..];
        ExecStep(View(), InsEvent(es[i].id, EventRowOf(es[i])), FlatMap(es[i + 1..], EventStmts));
        ok := InsertEvent(es[i].id, EventRowOf(es[i]));
        if !ok { return; }
      }
      assert es[|es|..] == [];
    }

    method LoadEvents(es: seq<EventRecord>) returns (ok: bool)
      modifies this
      ensures (if ok then Some(View()) else None) == ExecAll(old(View()), FlatMap(es, EventDetailStmts))
    {
      ok := true;
      assert es[0..] == es;
      for i := 0 to |es|
        invariant ok
        invariant ExecAll(View(), FlatMap(es[i..], EventDetailStmts)) == ExecAll(old(View()), FlatMap(es, EventDetailStmts))
      {
        assert es[i..][1..] == es[i + 1..];
        ExecConcat(View(), EventDetailStmts(es[i]), FlatMap(es[i + 1..], EventDetailStmts));
        ok := LoadEventDetails(es[i]);
        if !ok { return; }
      }
      assert es[|es|..] == [];
    }

    method LoadClaims(cs: seq<ClaimRecord>) returns (ok: bool)
      modifies this
      ensures (if ok then Some(View()) else None) == ExecAll(old(View()), FlatMap(cs, ClaimStmts))
    {
      ok := true;
      assert cs[0..] == cs;
      for i := 0 to |cs|
        invariant ok
        invariant ExecAll(View(), FlatMap(cs[i..], ClaimStmts)) == ExecAll(old(View()), FlatMap(cs, ClaimStmts))
      {
        assert cs[i..][1..] == cs[i + 1..];
        ExecConcat(View(), ClaimStmts(cs[i]), FlatMap(cs[i + 1..], ClaimStmts));
        ok := LoadClaim(cs[i]);
        if !ok { return; }
      }
      assert cs[|cs|..] == [];
    }

    method LoadRelationships(rs: seq<RelationshipRecord>) returns (ok: bool)
      modifies this
      ensures (if ok then Some(View()) else None) == ExecAll(old(View()), FlatMap(rs, RelationshipStmts))
    {
      hide Exec;
      ok := true;
      assert rs[0..] == rs;
      for i := 0 to |rs|
        invariant ok
        invariant ExecAll(View(), FlatMap(rs[i..], RelationshipStmts)) == ExecAll(old(View()), FlatMap(rs, RelationshipStmts))
      {
        assert rs[i..][1..] == rs[i + 1..];
        var k := RelationshipKey(rs[i].fromEntityId, rs[i].toEntityId, rs[i].relType);
        ExecStep(View(), InsRelationship(k, Nullable(rs[i].claimId)), FlatMap(rs[i + 1..], RelationshipStmts));
        ok := InsertRelationship(k, Nullable(rs[i].claimId));
        if !ok { return; }
      }
      assert rs[|rs|..] == [];
    }

    method LoadContradictions(ks: seq<ContradictionEntry>) returns (ok: bool)
      modifies this
      ensures (if ok then Some(View()) else None) == ExecAll(old(View()), FlatMap(ks, ContradictionStmts))
    {
      hide Exec;
      ok := true;
      assert ks[0..] == ks;
      for i := 0 to |ks|
        invariant ok
        invariant ExecAll(View(), FlatMap(ks[i..], ContradictionStmts)) == ExecAll(old(View()), FlatMap(ks, ContradictionStmts))
      {
        assert ks[i..][1..] == ks[i + 1..];
        ExecConcat(View(), ContradictionStmts(ks[i]), FlatMap(ks[i + 1..], ContradictionStmts));
        ok := LoadContradiction(ks[i]);
        if !ok { return; }
      }
      assert ks[|ks|..] == [];
    }

    method LoadContradiction(entry: ContradictionEntry) returns (ok: bool)
      modifies this
      ensures (if ok then Some(View()) else None) == ExecAll(old(View()), ContradictionStmts(entry))
    {
      hide Exec;
      var row := ContradictionRow(entry.title, entry.description);
      ghost var first := InsContradiction(entry.id, row);
      ghost var second := InsContradictionClaim(entry.id, entry.claimId, AUTO_REGISTERED);
      assert ContradictionStmts(entry) == [first] + [second];
      ExecStep(View(), first, [second]);
      ok := InsertContradiction(entry.id, row);
      if !ok { return; }
      assert [second] == [second] + [];
      ExecStep(View(), second, []);
      ok := InsertContradictionClaim(entry.id, entry.claimId, AUTO_REGISTERED);
    }
  }

  lemma ClaimSourceKeepsVersions(db: Db, c: string, pin: Option<string>, cite: Citation)
    requires Exec(db, InsClaimSource(c, pin, cite)).Some?
    ensures Exec(db, InsClaimSource(c, pin, cite)).value.versions == db.versions
  {
  }
}

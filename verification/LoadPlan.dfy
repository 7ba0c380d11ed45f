/** Exactly which statements a load issues, told from the records' fields. */
module LoadPlan {
  import opened Basics
  import opened Units
  import opened Validation
  import opened Tables
  import opened Loader

  /** NULL for an empty text. */
  ghost predicate NullIfEmpty(column: Option<string>, text: string) {
    if text == "" then column.None? else column == Some(text)
  }

  ghost predicate NameColumns(row: NameRow, n: EntityName) {
    row.nameKind == n.nameKind && NullIfEmpty(row.language, n.language)
  }

  ghost predicate EventColumns(row: EventRow, e: EventRecord) {
    && NullIfEmpty(row.kind, e.kind) && row.summary == e.summary && NullIfEmpty(row.description, e.description)
    && NullIfEmpty(row.location, e.locationEntityId) && row.dating == e.dating
  }

  ghost predicate ClaimColumns(row: ClaimRow, c: ClaimRecord) {
    && row.statement == c.statement && NullIfEmpty(row.subject, c.subjectEntityId)
    && NullIfEmpty(row.predicate_, c.predicate_) && NullIfEmpty(row.object_, c.objectEntityId)
    && NullIfEmpty(row.objectValue, c.objectValue) && row.confidence == c.confidence
  }

  ghost predicate CiteColumns(row: CiteRow, c: Citation) {
    row.locator == Some(c.locator) && NullIfEmpty(row.note, c.note)
  }

  /** A statement for an entity record: its row, or a row of one of its names. */
  ghost predicate OfEntity(e: EntityRecord, s: Stmt) {
    match s
    case InsEntity(id, row) => id == e.id && row == EntityRow(e.kind, e.canonicalName, e.attributes)
    case InsName(id, name, row) => id == e.id && exists n :: n in e.names && n.name == name && NameColumns(row, n)
    case _ => false
  }

  ghost predicate OfEvent(e: EventRecord, s: Stmt) {
    s.InsEvent? && s.id == e.id && EventColumns(s.event, e)
  }

  /** A cause points at the event, the event points at a consequence. */
  ghost predicate OfDetail(e: EventRecord, s: Stmt) {
    match s
    case InsParticipant(id, entity, role) => id == e.id && Participant(entity, role) in e.participants
    case InsLink(k) => LinkOf(e, k)
    case InsEventSource(id, cite) => id == e.id && cite in e.sources
    case _ => false
  }

  ghost predicate LinkOf(e: EventRecord, k: LinkKey) {
    k.kind == "cause" && ((k.from in e.causes && k.to == e.id) || (k.from == e.id && k.to in e.consequences))
  }

  ghost predicate OfClaim(c: ClaimRecord, s: Stmt) {
    match s
    case InsClaim(id, row) => id == c.id && ClaimColumns(row, c)
    case InsVersion(v, text) =>
      v.claim == c.id && exists x :: x in c.versions && x.tradition == v.tradition && x.statement == text
    case InsClaimSource(id, pin, cite) =>
      id == c.id && (if pin.None? then cite in c.sources
                     else exists x :: x in c.versions && x.tradition == pin.value && cite in x.sources)
    case _ => false
  }

  ghost predicate OfEdge(r: RelationshipRecord, s: Stmt) {
    s.InsRelationship? && s.edge == RelationshipKey(r.fromEntityId, r.toEntityId, r.relType)
    && NullIfEmpty(s.justification, r.claimId)
  }

  ghost predicate OfContradiction(k: ContradictionEntry, s: Stmt) {
    match s
    case InsContradiction(id, row) => id == k.id && row == ContradictionRow(k.title, k.description)
    case InsContradictionClaim(id, claim, tradition) =>
      id == k.id && claim == k.claimId && tradition == "auto-registered at extraction"
    case _ => false
  }

  ghost predicate Planned(v: Validated, s: Stmt) {
    || (exists e :: e in v.entities && OfEntity(e, s))
    || (exists e :: e in v.events && OfEvent(e, s))
    || (exists e :: e in v.events && OfDetail(e, s))
    || (exists c :: c in v.claims && OfClaim(c, s))
    || (exists r :: r in v.relationships && OfEdge(r, s))
    || (exists k :: k in v.contradictions && OfContradiction(k, s))
  }

  lemma {:induction false} NameStmtsAre(id: string, ns: seq<EntityName>, s: Stmt)
    ensures s in NameStmts(id, ns) <==>
              s.InsName? && s.entityId == id && exists n :: n in ns && n.name == s.name && NameColumns(s.nameRow, n)
  {
    if ns != [] {
      NameStmtsAre(id, ns[1..], s);
      assert ns == [ns[0]] + ns[1..];
    }
  }

  lemma {:induction false} ParticipantStmtsAre(id: string, ps: seq<Participant>, s: Stmt)
    ensures s in ParticipantStmts(id, ps) <==>
              s.InsParticipant? && s.eventId == id && Participant(s.entityId, s.role) in ps
  {
    if ps != [] {
      ParticipantStmtsAre(id, ps[1..], s);
      assert ps == [ps[0]] + ps[1..];
    }
  }

  lemma {:induction false} LinkStmtsAre(id: string, ids: seq<string>, s: Stmt)
    ensures s in CauseStmts(id, ids) <==> s.InsLink? && s.link.kind == "cause" && s.link.from in ids && s.link.to == id
    ensures s in ConsequenceStmts(id, ids) <==> s.InsLink? && s.link.kind == "cause" && s.link.from == id && s.link.to in ids
  {
    if ids != [] {
      LinkStmtsAre(id, ids[1..], s);
      assert ids == [ids[0]] + ids[1..];
    }
  }

  lemma {:induction false} EventCiteStmtsAre(id: string, cs: seq<Citation>, s: Stmt)
    ensures s in EventCiteStmts(id, cs) <==> s.InsEventSource? && s.eventId == id && s.cite in cs
  {
    if cs != [] {
      EventCiteStmtsAre(id, cs[1..], s);
      assert cs == [cs[0]] + cs[1..];
    }
  }

  lemma {:induction false} ClaimCiteStmtsAre(id: string, pin: Option<string>, cs: seq<Citation>, s: Stmt)
    ensures s in ClaimCiteStmts(id, pin, cs) <==> s.InsClaimSource? && s.claimId == id && s.pin == pin && s.cite in cs
  {
    if cs != [] {
      ClaimCiteStmtsAre(id, pin, cs[1..], s);
      assert cs == [cs[0]] + cs[1..];
    }
  }

  lemma {:induction false} VersionStmtsAre(id: string, vs: seq<ClaimVersionRecord>, s: Stmt)
    ensures s in VersionStmts(id, vs) <==>
              s.InsVersion? && s.version.claim == id
              && exists x :: x in vs && x.tradition == s.version.tradition && x.statement == s.statement
    ensures s in VersionCiteStmts(id, vs) <==>
              s.InsClaimSource? && s.claimId == id && s.pin.Some?
              && exists x :: x in vs && x.tradition == s.pin.value && s.cite in x.sources
  {
    if vs != [] {
      VersionStmtsAre(id, vs[1..], s);
      ClaimCiteStmtsAre(id, Some(vs[0].tradition), vs[0].sources, s);
      assert vs == [vs[0]] + vs[1..];
    }
  }

  lemma EntityStmtsAre(e: EntityRecord, s: Stmt)
    ensures s in EntityStmts(e) <==> OfEntity(e, s)
  {
    NameStmtsAre(e.id, e.names, s);
  }

  lemma DetailStmtsAre(e: EventRecord, s: Stmt)
    ensures s in EventDetailStmts(e) <==> OfDetail(e, s)
  {
    ParticipantStmtsAre(e.id, e.participants, s);
    LinkStmtsAre(e.id, e.causes, s);
    LinkStmtsAre(e.id, e.consequences, s);
    EventCiteStmtsAre(e.id, e.sources, s);
  }

  lemma ClaimStmtsAre(c: ClaimRecord, s: Stmt)
    ensures s in ClaimStmts(c) <==> OfClaim(c, s)
  {
    VersionStmtsAre(c.id, c.versions, s);
    ClaimCiteStmtsAre(c.id, None, c.sources, s);
  }

  lemma EventStmtsAre(e: EventRecord, s: Stmt)
    ensures s in EventStmts(e) <==> OfEvent(e, s)
  {
  }

  lemma EdgeStmtsAre(r: RelationshipRecord, s: Stmt)
    ensures s in RelationshipStmts(r) <==> OfEdge(r, s)
  {
  }

  lemma ContradictionStmtsAre(k: ContradictionEntry, s: Stmt)
    ensures s in ContradictionStmts(k) <==> OfContradiction(k, s)
  {
  }

  /** The statements of a load are exactly those its records call for. */
  lemma PlannedExactly(v: Validated, s: Stmt)
    ensures s in Plan(v) <==> Planned(v, s)
  {
    FlatMapIn(v.entities, EntityStmts, s);
    FlatMapIn(v.events, EventStmts, s);
    FlatMapIn(v.events, EventDetailStmts, s);
    FlatMapIn(v.claims, ClaimStmts, s);
    FlatMapIn(v.relationships, RelationshipStmts, s);
    FlatMapIn(v.contradictions, ContradictionStmts, s);
    hide EntityStmts, EventStmts, EventDetailStmts, ClaimStmts, RelationshipStmts, ContradictionStmts,
      OfEntity, OfEvent, OfDetail, OfClaim, OfEdge, OfContradiction;
    forall e ensures s in EntityStmts(e) <==> OfEntity(e, s) { EntityStmtsAre(e, s); }
    forall e ensures s in EventStmts(e) <==> OfEvent(e, s) { EventStmtsAre(e, s); }
    forall e ensures s in EventDetailStmts(e) <==> OfDetail(e, s) { DetailStmtsAre(e, s); }
    forall c ensures s in ClaimStmts(c) <==> OfClaim(c, s) { ClaimStmtsAre(c, s); }
    forall r ensures s in RelationshipStmts(r) <==> OfEdge(r, s) { EdgeStmtsAre(r, s); }
    forall k ensures s in ContradictionStmts(k) <==> OfContradiction(k, s) { ContradictionStmtsAre(k, s); }
  }

  lemma ClaimRowPlanned(v: Validated, c: ClaimRecord)
    requires c in v.claims
    ensures InsClaim(c.id, ClaimRowOf(c)) in Plan(v)
  {
    assert OfClaim(c, InsClaim(c.id, ClaimRowOf(c)));
    PlannedExactly(v, InsClaim(c.id, ClaimRowOf(c)));
  }
}

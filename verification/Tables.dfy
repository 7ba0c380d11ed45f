/**
 * The knowledge-graph tables with their keys, foreign keys and CHECKs, and the effect
 * of each statement the loader issues against them.
 */
module Tables {
  import opened Basics
  import opened Units

  // ----------------------------------------------------------------- rows

  datatype EntityRow = EntityRow(kind: string, canonicalName: string, attributes: Json)
  datatype NameRow = NameRow(nameKind: string, language: Option<string>)
  datatype EventRow = EventRow(
    kind: Option<string>, summary: string, description: Option<string>,
    location: Option<string>, dating: Option<Json>)
  datatype CiteRow = CiteRow(locator: Option<Locator>, note: Option<string>)
  datatype ClaimRow = ClaimRow(
    statement: string, subject: Option<string>, predicate_: Option<string>,
    object_: Option<string>, objectValue: Option<string>, confidence: string)
  datatype VersionRow = VersionRow(id: nat, statement: string)
  datatype ContradictionRow = ContradictionRow(title: string, description: string)

  /** A link's key: from, to, kind. */
  datatype LinkKey = LinkKey(from: string, to: string, kind: string)
  /** A claim version's unique key. */
  datatype VersionKey = VersionKey(claim: string, tradition: string)
  /** A claim citation's unique key: a missing version counts as one value (NULLS NOT DISTINCT). */
  datatype ClaimSourceKey = ClaimSourceKey(claim: string, version: Option<nat>, source: string)
  datatype RelationshipKey = RelationshipKey(from: string, to: string, relType: string)
  datatype ContradictionClaimKey = ContradictionClaimKey(contradiction: string, claim: string, version: Option<nat>)

  /**
   * One database state. sources maps a source to its scheme's required keys, if the
   * scheme names any; nextVersion is the identity sequence of claim_versions.
   */
  datatype Db = Db(
    sources: map<string, Option<set<string>>>,
    relTypes: set<string>,
    entities: map<string, EntityRow>,
    names: map<(string, string), NameRow>,
    events: map<string, EventRow>,
    participants: map<(string, string), string>,
    links: set<LinkKey>,
    eventSources: map<(string, string), CiteRow>,
    claims: map<string, ClaimRow>,
    versions: map<VersionKey, VersionRow>,
    nextVersion: nat,
    claimSources: map<ClaimSourceKey, CiteRow>,
    relationships: map<RelationshipKey, Option<string>>,
    contradictions: map<string, ContradictionRow>,
    contradictionClaims: map<ContradictionClaimKey, string>)

  // ----------------------------------------------------------- statements

  /** A statement of the loader. A citation pins a version by its tradition. */
  datatype Stmt =
    | InsEntity(id: string, entity: EntityRow)
    | InsName(entityId: string, name: string, nameRow: NameRow)
    | InsEvent(id: string, event: EventRow)
    | InsParticipant(eventId: string, entityId: string, role: string)
    | InsLink(link: LinkKey)
    | InsEventSource(eventId: string, cite: Citation)
    | InsClaim(id: string, claim: ClaimRow)
    | InsVersion(version: VersionKey, statement: string)
    | InsClaimSource(claimId: string, pin: Option<string>, cite: Citation)
    | InsRelationship(edge: RelationshipKey, justification: Option<string>)
    | InsContradiction(id: string, contradiction: ContradictionRow)
    | InsContradictionClaim(contradictionId: string, claimId: string, tradition: string)

  /** A row some statement refers to or creates. */
  datatype Ref =
    | EntityRef(id: string) | EventRef(id: string) | ClaimRef(id: string) | VersionRef(version: VersionKey)
    | SourceRef(id: string) | RelTypeRef(id: string) | ContradictionRef(id: string)

  predicate Has(db: Db, r: Ref) {
    match r
    case EntityRef(id) => id in db.entities
    case EventRef(id) => id in db.events
    case ClaimRef(id) => id in db.claims
    case VersionRef(v) => v in db.versions
    case SourceRef(id) => id in db.sources
    case RelTypeRef(id) => id in db.relTypes
    case ContradictionRef(id) => id in db.contradictions
  }

  function OptRef(id: Option<string>): set<Ref> {
    if id.Some? then {EntityRef(id.value)} else {}
  }

  /** The rows a new row's foreign keys name. */
  function Refs(s: Stmt): set<Ref> {
    match s
    case InsEntity(_, _) => {}
    case InsName(e, _, _) => {EntityRef(e)}
    case InsEvent(_, row) => OptRef(row.location)
    case InsParticipant(e, p, _) => {EventRef(e), EntityRef(p)}
    case InsLink(k) => {EventRef(k.from), EventRef(k.to)}
    case InsEventSource(e, c) => {EventRef(e), SourceRef(c.sourceId)}
    case InsClaim(_, row) => OptRef(row.subject) + OptRef(row.object_)
    case InsVersion(v, _) => {ClaimRef(v.claim)}
    case InsClaimSource(c, pin, cite) =>
      {ClaimRef(c), SourceRef(cite.sourceId)} + if pin.Some? then {VersionRef(VersionKey(c, pin.value))} else {}
    case InsRelationship(k, j) =>
      {EntityRef(k.from), EntityRef(k.to), RelTypeRef(k.relType)} + if j.Some? then {ClaimRef(j.value)} else {}
    case InsContradiction(_, _) => {}
    case InsContradictionClaim(k, c, _) => {ContradictionRef(k), ClaimRef(c)}
  }

  /** The row that exists once the statement has succeeded. */
  function Gives(s: Stmt): Option<Ref> {
    match s
    case InsEntity(id, _) => Some(EntityRef(id))
    case InsEvent(id, _) => Some(EventRef(id))
    case InsClaim(id, _) => Some(ClaimRef(id))
    case InsVersion(v, _) => Some(VersionRef(v))
    case InsContradiction(id, _) => Some(ContradictionRef(id))
    case _ => None
  }

  predicate NameKindCheck(kind: string) {
    kind == "variant" || kind == "alias" || kind == "translation" || kind == "other"
  }

  predicate ConfidenceCheck(c: string) {
    c == "established" || c == "derived_probable" || c == "contested" || c == "abandoned_version"
  }

  /** The CHECK constraints of the target table, evaluated whether or not the row conflicts. */
  predicate CheckOk(s: Stmt) {
    match s
    case InsName(_, _, row) => NameKindCheck(row.nameKind)
    case InsLink(k) => k.from != k.to
    case InsClaim(_, row) => ConfidenceCheck(row.confidence) && (row.object_.None? || row.objectValue.None?)
    case InsRelationship(k, _) => k.from != k.to
    case _ => true
  }

  /** The version id a pinned citation carries. */
  function PinId(db: Db, claim: string, pin: Option<string>): Option<nat>
    requires pin.Some? ==> VersionKey(claim, pin.value) in db.versions
  {
    if pin.Some? then Some(db.versions[VersionKey(claim, pin.value)].id) else None
  }

  predicate Pinned(db: Db, s: Stmt) {
    s.InsClaimSource? && s.pin.Some? ==> VersionKey(s.claimId, s.pin.value) in db.versions
  }

  /** A row with the same unique key is already there. */
  predicate Conflicts(db: Db, s: Stmt)
    requires Pinned(db, s)
  {
    match s
    case InsEntity(id, _) => id in db.entities
    case InsName(e, n, _) => (e, n) in db.names
    case InsEvent(id, _) => id in db.events
    case InsParticipant(e, p, _) => (e, p) in db.participants
    case InsLink(k) => k in db.links
    case InsEventSource(e, c) => (e, c.sourceId) in db.eventSources
    case InsClaim(id, _) => id in db.claims
    case InsVersion(v, _) => v in db.versions
    case InsClaimSource(c, pin, cite) => ClaimSourceKey(c, PinId(db, c, pin), cite.sourceId) in db.claimSources
    case InsRelationship(k, _) => k in db.relationships
    case InsContradiction(id, _) => id in db.contradictions
    case InsContradictionClaim(k, c, _) => ContradictionClaimKey(k, c, None) in db.contradictionClaims
  }

  function NoteOf(note: string): Option<string> {
    if note == "" then None else Some(note)
  }

  function CiteRowOf(c: Citation): CiteRow {
    CiteRow(Some(c.locator), NoteOf(c.note))
  }

  function Insert(db: Db, s: Stmt): Db
    requires Pinned(db, s)
  {
    match s
    case InsEntity(id, row) => db.(entities := db.entities[id := row])
    case InsName(e, n, row) => db.(names := db.names[(e, n) := row])
    case InsEvent(id, row) => db.(events := db.events[id := row])
    case InsParticipant(e, p, role) => db.(participants := db.participants[(e, p) := role])
    case InsLink(k) => db.(links := db.links + {k})
    case InsEventSource(e, c) => db.(eventSources := db.eventSources[(e, c.sourceId) := CiteRowOf(c)])
    case InsClaim(id, row) => db.(claims := db.claims[id := row])
    case InsVersion(v, text) =>
      db.(versions := db.versions[v := VersionRow(db.nextVersion, text)], nextVersion := db.nextVersion + 1)
    case InsClaimSource(c, pin, cite) =>
      db.(claimSources := db.claimSources[ClaimSourceKey(c, PinId(db, c, pin), cite.sourceId) := CiteRowOf(cite)])
    case InsRelationship(k, j) => db.(relationships := db.relationships[k := j])
    case InsContradiction(id, row) => db.(contradictions := db.contradictions[id := row])
    case InsContradictionClaim(k, c, label_) =>
      db.(contradictionClaims := db.contradictionClaims[ContradictionClaimKey(k, c, None) := label_])
  }

  /** What ON CONFLICT does: nothing, except that a version takes the new statement. */
  function OnConflict(db: Db, s: Stmt): Db {
    if s.InsVersion? && s.version in db.versions then
      db.(versions := db.versions[s.version := db.versions[s.version].(statement := s.statement)])
    else db
  }

  /**
   * One statement: none when a CHECK or, for a row actually inserted, a foreign key fails.
   */
  function Exec(db: Db, s: Stmt): Option<Db> {
    if !CheckOk(s) || !Pinned(db, s) then None
    else if Conflicts(db, s) then Some(OnConflict(db, s))
    else if forall r :: r in Refs(s) ==> Has(db, r) then Some(Insert(db, s))
    else None
  }

  /** A transaction body: the first failing statement fails the whole. */
  function ExecAll(db: Db, stmts: seq<Stmt>): Option<Db>
    decreases |stmts|
  {
    if stmts == [] then Some(db)
    else match Exec(db, stmts[0])
      case None => None
      case Some(next) => ExecAll(next, stmts[1..])
  }

  lemma {:induction false} ExecConcat(db: Db, a: seq<Stmt>, b: seq<Stmt>)
    ensures ExecAll(db, a + b) ==
            match ExecAll(db, a) { case None => None case Some(mid) => ExecAll(mid, b) }
    decreases |a|
  {
    if a == [] {
      assert a + b == b;
    } else {
      assert (a + b)[0] == a[0] && (a + b)[1..] == a[1..] + b;
      if Exec(db, a[0]).Some? { ExecConcat(Exec(db, a[0]).value, a[1..], b); }
    }
  }

  // ------------------------------------------------------ sound databases

  ghost predicate EntityIdIn(db: Db, id: Option<string>) {
    id.Some? ==> id.value in db.entities
  }

  ghost predicate NamesSound(db: Db) {
    forall k :: k in db.names ==> k.0 in db.entities && NameKindCheck(db.names[k].nameKind)
  }

  ghost predicate EventsSound(db: Db) {
    forall id :: id in db.events ==> EntityIdIn(db, db.events[id].location)
  }

  ghost predicate ParticipantsSound(db: Db) {
    forall k :: k in db.participants ==> k.0 in db.events && k.1 in db.entities
  }

  ghost predicate LinksSound(db: Db) {
    forall k :: k in db.links ==> k.from in db.events && k.to in db.events && k.from != k.to
  }

  ghost predicate EventSourcesSound(db: Db) {
    forall k :: k in db.eventSources ==> k.0 in db.events && k.1 in db.sources
  }

  ghost predicate ClaimsSound(db: Db) {
    forall id :: id in db.claims ==>
      && EntityIdIn(db, db.claims[id].subject) && EntityIdIn(db, db.claims[id].object_)
      && ConfidenceCheck(db.claims[id].confidence)
      && (db.claims[id].object_.None? || db.claims[id].objectValue.None?)
  }

  /** Version ids are a primary key below the identity sequence. */
  ghost predicate VersionsSound(db: Db) {
    && (forall v :: v in db.versions ==> v.claim in db.claims && db.versions[v].id < db.nextVersion)
    && (forall v, w :: v in db.versions && w in db.versions && db.versions[v].id == db.versions[w].id ==> v == w)
  }

  ghost predicate VersionIdOf(db: Db, claim: string, id: nat) {
    exists v :: v in db.versions && v.claim == claim && db.versions[v].id == id
  }

  ghost predicate ClaimSourcesSound(db: Db) {
    forall k :: k in db.claimSources ==>
      k.claim in db.claims && k.source in db.sources && (k.version.Some? ==> VersionIdOf(db, k.claim, k.version.value))
  }

  ghost predicate RelationshipsSound(db: Db) {
    forall k :: k in db.relationships ==>
      && k.from in db.entities && k.to in db.entities && k.relType in db.relTypes && k.from != k.to
      && (db.relationships[k].Some? ==> db.relationships[k].value in db.claims)
  }

  ghost predicate ContradictionClaimsSound(db: Db) {
    forall k :: k in db.contradictionClaims ==>
      k.contradiction in db.contradictions && k.claim in db.claims
      && (k.version.Some? ==> VersionIdOf(db, k.claim, k.version.value))
  }

  /** Every declared constraint holds. */
  ghost predicate Sound(db: Db) {
    && NamesSound(db) && EventsSound(db) && ParticipantsSound(db) && LinksSound(db) && EventSourcesSound(db)
    && ClaimsSound(db) && VersionsSound(db) && ClaimSourcesSound(db) && RelationshipsSound(db)
    && ContradictionClaimsSound(db)
  }

  // --------------------------------------------------------- growth

  /** No key of m is lost or changed in n. */
  ghost predicate SubMap<K, V>(m: map<K, V>, n: map<K, V>) {
    forall k :: k in m ==> k in n && n[k] == m[k]
  }

  /** Versions keep their identity; only a statement may change. */
  ghost predicate VersionsKept(m: map<VersionKey, VersionRow>, n: map<VersionKey, VersionRow>) {
    forall v :: v in m ==> v in n && n[v].id == m[v].id
  }

  ghost predicate GraphGrows(a: Db, b: Db) {
    && a.sources == b.sources && a.relTypes == b.relTypes
    && SubMap(a.entities, b.entities) && SubMap(a.names, b.names) && SubMap(a.events, b.events)
    && SubMap(a.participants, b.participants) && a.links <= b.links && SubMap(a.eventSources, b.eventSources)
  }

  ghost predicate ClaimsGrow(a: Db, b: Db) {
    && SubMap(a.claims, b.claims) && VersionsKept(a.versions, b.versions) && a.nextVersion <= b.nextVersion
    && SubMap(a.claimSources, b.claimSources) && SubMap(a.relationships, b.relationships)
    && SubMap(a.contradictions, b.contradictions) && SubMap(a.contradictionClaims, b.contradictionClaims)
  }

  /** Rows are only added: every old row is still there, unchanged but for version statements. */
  ghost predicate Grows(a: Db, b: Db) {
    GraphGrows(a, b) && ClaimsGrow(a, b)
  }

  lemma InsertGrowsGraph(db: Db, s: Stmt)
    requires Pinned(db, s) && !Conflicts(db, s)
    ensures GraphGrows(db, Insert(db, s))
  {
  }

  lemma InsertGrowsClaims(db: Db, s: Stmt)
    requires Pinned(db, s) && !Conflicts(db, s)
    ensures ClaimsGrow(db, Insert(db, s))
  {
  }

  lemma VersionsChanged(db: Db, updated: map<VersionKey, VersionRow>)
    requires VersionsKept(db.versions, updated)
    ensures GraphGrows(db, db.(versions := updated)) && ClaimsGrow(db, db.(versions := updated))
  {
  }

  lemma OnConflictGrows(db: Db, s: Stmt)
    ensures Grows(db, OnConflict(db, s))
  {
    if s.InsVersion? && s.version in db.versions {
      hide GraphGrows, ClaimsGrow;
      var updated := db.versions[s.version := db.versions[s.version].(statement := s.statement)];
      assert OnConflict(db, s) == db.(versions := updated);
      VersionsChanged(db, updated);
    }
  }

  lemma ExecGrows(db: Db, s: Stmt)
    requires Exec(db, s).Some?
    ensures Grows(db, Exec(db, s).value)
  {
    hide Insert, OnConflict, Conflicts, GraphGrows, ClaimsGrow, Refs, Has, CheckOk, Pinned;
    if Conflicts(db, s) {
      OnConflictGrows(db, s);
    } else {
      InsertGrowsGraph(db, s);
      InsertGrowsClaims(db, s);
    }
  }

  /** The citation tables change only under their own statement, and only by a fresh row. */
  lemma ExecCitations(db: Db, s: Stmt)
    requires Exec(db, s).Some?
    ensures var next := Exec(db, s).value;
            && next.eventSources == (if s.InsEventSource? && (s.eventId, s.cite.sourceId) !in db.eventSources
                                     then db.eventSources[(s.eventId, s.cite.sourceId) := CiteRowOf(s.cite)] else db.eventSources)
            && (next.claimSources == db.claimSources ||
                (s.InsClaimSource? && exists k :: k !in db.claimSources && k.claim == s.claimId && k.source == s.cite.sourceId
                                                  && next.claimSources == db.claimSources[k := CiteRowOf(s.cite)]))
  {
    hide CheckOk, Refs, Has, CiteRowOf, Insert, OnConflict, PinId;
    if Conflicts(db, s) {
      OnConflictCitations(db, s);
    } else {
      InsertCitations(db, s);
      if s.InsClaimSource? {
        var k := ClaimSourceKey(s.claimId, PinId(db, s.claimId, s.pin), s.cite.sourceId);
        assert k !in db.claimSources;
      }
    }
  }

  lemma OnConflictCitations(db: Db, s: Stmt)
    ensures OnConflict(db, s).eventSources == db.eventSources && OnConflict(db, s).claimSources == db.claimSources
  {
  }

  lemma InsertCitations(db: Db, s: Stmt)
    requires Pinned(db, s)
    ensures Insert(db, s).eventSources ==
            if s.InsEventSource? then db.eventSources[(s.eventId, s.cite.sourceId) := CiteRowOf(s.cite)] else db.eventSources
    ensures Insert(db, s).claimSources ==
            if s.InsClaimSource? then
              db.claimSources[ClaimSourceKey(s.claimId, PinId(db, s.claimId, s.pin), s.cite.sourceId) := CiteRowOf(s.cite)]
            else db.claimSources
  {
    hide CiteRowOf, PinId;
  }

  /** A version changes only under its own statement. */
  lemma ExecVersions(db: Db, s: Stmt, v: VersionKey)
    requires Exec(db, s).Some? && v in db.versions && (s.InsVersion? ==> s.version != v)
    ensures v in Exec(db, s).value.versions && Exec(db, s).value.versions[v] == db.versions[v]
  {
    hide CheckOk, Refs, Has, Insert, OnConflict, Conflicts, Pinned;
    if s.InsVersion? {
      VersionUpdates(db, s.version, s.statement);
      assert s == InsVersion(s.version, s.statement);
    } else {
      InsertElsewhere(db, s);
      OnConflictElsewhere(db, s);
    }
  }

  lemma VersionUpdates(db: Db, w: VersionKey, text: string)
    ensures Insert(db, InsVersion(w, text)).versions == db.versions[w := VersionRow(db.nextVersion, text)]
    ensures OnConflict(db, InsVersion(w, text)).versions ==
            if w in db.versions then db.versions[w := db.versions[w].(statement := text)] else db.versions
  {
  }

  lemma OnConflictElsewhere(db: Db, s: Stmt)
    requires !s.InsVersion?
    ensures OnConflict(db, s) == db
  {
  }

  lemma GrowsTrans(a: Db, b: Db, c: Db)
    requires Grows(a, b) && Grows(b, c)
    ensures Grows(a, c)
  {
  }

  /** The unchanged tables stay sound when others grow. */
  lemma SoundFrame(a: Db, b: Db)
    requires Sound(a) && Grows(a, b)
    ensures b.names == a.names ==> NamesSound(b)
    ensures b.events == a.events ==> EventsSound(b)
    ensures b.participants == a.participants ==> ParticipantsSound(b)
    ensures b.links == a.links ==> LinksSound(b)
    ensures b.eventSources == a.eventSources ==> EventSourcesSound(b)
    ensures b.claims == a.claims ==> ClaimsSound(b)
    ensures b.versions == a.versions && a.nextVersion <= b.nextVersion ==> VersionsSound(b)
    ensures b.relationships == a.relationships ==> RelationshipsSound(b)
  {
  }

  lemma VersionIdsKept(a: Db, b: Db)
    requires VersionsKept(a.versions, b.versions)
    ensures forall c, id :: VersionIdOf(a, c, id) ==> VersionIdOf(b, c, id)
  {
    forall c, id | VersionIdOf(a, c, id)
      ensures VersionIdOf(b, c, id)
    {
      var v :| v in a.versions && v.claim == c && a.versions[v].id == id;
      assert v in b.versions;
    }
  }

  lemma SoundPinFrame(a: Db, b: Db)
    requires Sound(a) && Grows(a, b)
    ensures b.claimSources == a.claimSources ==> ClaimSourcesSound(b)
    ensures b.contradictionClaims == a.contradictionClaims ==> ContradictionClaimsSound(b)
  {
    VersionIdsKept(a, b);
  }

  // One fresh row whose references exist keeps its table sound.

  lemma NameRowSound(db: Db, e: string, n: string, row: NameRow)
    requires NamesSound(db) && e in db.entities && NameKindCheck(row.nameKind)
    ensures NamesSound(Insert(db, InsName(e, n, row)))
  {
  }

  lemma EventRowSound(db: Db, id: string, row: EventRow)
    requires EventsSound(db) && EntityIdIn(db, row.location)
    ensures EventsSound(Insert(db, InsEvent(id, row)))
  {
  }

  lemma ParticipantRowSound(db: Db, e: string, p: string, role: string)
    requires ParticipantsSound(db) && e in db.events && p in db.entities
    ensures ParticipantsSound(Insert(db, InsParticipant(e, p, role)))
  {
  }

  lemma LinkRowSound(db: Db, k: LinkKey)
    requires LinksSound(db) && k.from in db.events && k.to in db.events && k.from != k.to
    ensures LinksSound(Insert(db, InsLink(k)))
  {
  }

  lemma EventSourceRowSound(db: Db, e: string, c: Citation)
    requires EventSourcesSound(db) && e in db.events && c.sourceId in db.sources
    ensures EventSourcesSound(Insert(db, InsEventSource(e, c)))
  {
  }

  lemma ClaimRowSound(db: Db, id: string, row: ClaimRow)
    requires ClaimsSound(db) && EntityIdIn(db, row.subject) && EntityIdIn(db, row.object_)
    requires ConfidenceCheck(row.confidence) && (row.object_.None? || row.objectValue.None?)
    ensures ClaimsSound(Insert(db, InsClaim(id, row)))
  {
  }

  lemma VersionRowSound(db: Db, v: VersionKey, text: string)
    requires VersionsSound(db) && v.claim in db.claims && v !in db.versions
    ensures VersionsSound(Insert(db, InsVersion(v, text)))
  {
  }

  lemma ClaimSourceRowSound(db: Db, c: string, pin: Option<string>, cite: Citation)
    requires ClaimSourcesSound(db) && c in db.claims && cite.sourceId in db.sources
    requires pin.Some? ==> VersionKey(c, pin.value) in db.versions
    ensures ClaimSourcesSound(Insert(db, InsClaimSource(c, pin, cite)))
  {
    var b := Insert(db, InsClaimSource(c, pin, cite));
    VersionIdsKept(db, b);
    if pin.Some? {
      var v := VersionKey(c, pin.value);
      assert v in b.versions && VersionIdOf(b, c, b.versions[v].id);
    }
  }

  lemma RelationshipRowSound(db: Db, k: RelationshipKey, j: Option<string>)
    requires RelationshipsSound(db) && k.from in db.entities && k.to in db.entities && k.relType in db.relTypes
    requires k.from != k.to && (j.Some? ==> j.value in db.claims)
    ensures RelationshipsSound(Insert(db, InsRelationship(k, j)))
  {
  }

  lemma ContradictionClaimRowSound(db: Db, k: string, c: string, tradition: string)
    requires ContradictionClaimsSound(db) && k in db.contradictions && c in db.claims
    ensures ContradictionClaimsSound(Insert(db, InsContradictionClaim(k, c, tradition)))
  {
    VersionIdsKept(db, Insert(db, InsContradictionClaim(k, c, tradition)));
  }

  /** The table a statement inserts into stays sound. */
  ghost predicate TargetSound(db: Db, s: Stmt) {
    && (s.InsName? ==> NamesSound(db)) && (s.InsEvent? ==> EventsSound(db))
    && (s.InsParticipant? ==> ParticipantsSound(db)) && (s.InsLink? ==> LinksSound(db))
    && (s.InsEventSource? ==> EventSourcesSound(db)) && (s.InsClaim? ==> ClaimsSound(db))
    && (s.InsVersion? ==> VersionsSound(db)) && (s.InsClaimSource? ==> ClaimSourcesSound(db))
    && (s.InsRelationship? ==> RelationshipsSound(db)) && (s.InsContradictionClaim? ==> ContradictionClaimsSound(db))
  }

  lemma InsertTargetSound(db: Db, s: Stmt)
    requires Sound(db) && CheckOk(s) && Pinned(db, s) && !Conflicts(db, s)
    requires forall r :: r in Refs(s) ==> Has(db, r)
    ensures TargetSound(Insert(db, s), s)
  {
    hide NamesSound, EventsSound, ParticipantsSound, LinksSound, EventSourcesSound, ClaimsSound, ClaimSourcesSound,
      RelationshipsSound, ContradictionClaimsSound, VersionsSound, CiteRowOf, Insert, PinId, NameKindCheck, ConfidenceCheck;
    match s
    case InsName(e, n, row) =>
      assert Has(db, EntityRef(e));
      NameRowSound(db, e, n, row);
    case InsEvent(id, row) =>
      assert row.location.Some? ==> Has(db, EntityRef(row.location.value));
      EventRowSound(db, id, row);
    case InsParticipant(e, p, role) =>
      assert Has(db, EventRef(e)) && Has(db, EntityRef(p));
      ParticipantRowSound(db, e, p, role);
    case InsLink(k) =>
      assert Has(db, EventRef(k.from)) && Has(db, EventRef(k.to));
      LinkRowSound(db, k);
    case InsEventSource(e, c) =>
      assert Has(db, EventRef(e)) && Has(db, SourceRef(c.sourceId));
      EventSourceRowSound(db, e, c);
    case InsClaim(id, row) =>
      assert row.subject.Some? ==> Has(db, EntityRef(row.subject.value));
      assert row.object_.Some? ==> Has(db, EntityRef(row.object_.value));
      ClaimRowSound(db, id, row);
    case InsVersion(v, text) =>
      assert Has(db, ClaimRef(v.claim));
      VersionRowSound(db, v, text);
    case InsClaimSource(c, pin, cite) =>
      assert Has(db, ClaimRef(c)) && Has(db, SourceRef(cite.sourceId));
      ClaimSourceRowSound(db, c, pin, cite);
    case InsRelationship(k, j) =>
      assert Has(db, EntityRef(k.from)) && Has(db, EntityRef(k.to)) && Has(db, RelTypeRef(k.relType));
      assert j.Some? ==> Has(db, ClaimRef(j.value));
      RelationshipRowSound(db, k, j);
    case InsContradictionClaim(k, c, tradition) =>
      assert Has(db, ContradictionRef(k)) && Has(db, ClaimRef(c));
      ContradictionClaimRowSound(db, k, c, tradition);
    case _ =>
  }

  /** An insert touches one table. */
  lemma InsertElsewhere(db: Db, s: Stmt)
    requires Pinned(db, s)
    ensures var b := Insert(db, s);
            && (!s.InsName? ==> b.names == db.names) && (!s.InsEvent? ==> b.events == db.events)
            && (!s.InsParticipant? ==> b.participants == db.participants) && (!s.InsLink? ==> b.links == db.links)
            && (!s.InsEventSource? ==> b.eventSources == db.eventSources) && (!s.InsClaim? ==> b.claims == db.claims)
            && (!s.InsVersion? ==> b.versions == db.versions) && (!s.InsClaimSource? ==> b.claimSources == db.claimSources)
            && (!s.InsRelationship? ==> b.relationships == db.relationships)
            && (!s.InsContradictionClaim? ==> b.contradictionClaims == db.contradictionClaims)
            && db.nextVersion <= b.nextVersion
  {
    hide CiteRowOf, PinId;
  }

  lemma InsertSound(db: Db, s: Stmt)
    requires Sound(db) && CheckOk(s) && Pinned(db, s) && !Conflicts(db, s)
    requires forall r :: r in Refs(s) ==> Has(db, r)
    ensures Sound(Insert(db, s))
  {
    InsertTargetSound(db, s);
    InsertElsewhere(db, s);
    InsertGrowsGraph(db, s);
    InsertGrowsClaims(db, s);
    hide NamesSound, EventsSound, ParticipantsSound, LinksSound, EventSourcesSound, ClaimsSound, ClaimSourcesSound,
      RelationshipsSound, ContradictionClaimsSound, VersionsSound, Refs, Has, GraphGrows, ClaimsGrow, CiteRowOf,
      Insert, Conflicts, CheckOk;
    SoundFrame(db, Insert(db, s));
    SoundPinFrame(db, Insert(db, s));
  }

  lemma OnConflictSound(db: Db, s: Stmt)
    requires Sound(db)
    ensures Sound(OnConflict(db, s))
  {
    OnConflictGrows(db, s);
    VersionIdsKept(db, OnConflict(db, s));
  }

  /** No statement, whatever it carries, leaves a constraint violated. */
  lemma ExecSound(db: Db, s: Stmt)
    requires Sound(db) && Exec(db, s).Some?
    ensures Sound(Exec(db, s).value)
  {
    hide Sound, Insert, OnConflict, Conflicts, Has, CheckOk, Refs, Pinned;
    if Conflicts(db, s) { OnConflictSound(db, s); } else { InsertSound(db, s); }
  }

  // ------------------------------------------------------ whole batches

  lemma {:induction false} ExecAllGrows(db: Db, stmts: seq<Stmt>)
    requires ExecAll(db, stmts).Some?
    ensures Grows(db, ExecAll(db, stmts).value)
    decreases |stmts|
  {
    if stmts != [] {
      var next := Exec(db, stmts[0]).value;
      ExecGrows(db, stmts[0]);
      ExecAllGrows(next, stmts[1..]);
      GrowsTrans(db, next, ExecAll(db, stmts).value);
    }
  }

  lemma {:induction false} ExecAllSound(db: Db, stmts: seq<Stmt>)
    requires Sound(db) && ExecAll(db, stmts).Some?
    ensures Sound(ExecAll(db, stmts).value)
    decreases |stmts|
  {
    if stmts != [] {
      ExecSound(db, stmts[0]);
      ExecAllSound(Exec(db, stmts[0]).value, stmts[1..]);
    }
  }

  /** The trace a successful statement leaves: a row under its key. */
  ghost predicate Present(db: Db, s: Stmt) {
    Pinned(db, s) && Conflicts(db, s)
  }

  lemma InsertPresent(db: Db, s: Stmt)
    requires Pinned(db, s)
    ensures Present(Insert(db, s), s)
  {
    hide CiteRowOf;
  }

  lemma OnConflictPresent(db: Db, s: Stmt)
    requires Pinned(db, s) && Conflicts(db, s)
    ensures Present(OnConflict(db, s), s)
  {
  }

  lemma ExecPresent(db: Db, s: Stmt)
    requires Exec(db, s).Some?
    ensures Present(Exec(db, s).value, s)
  {
    hide CheckOk, Refs, Has, Insert, OnConflict, Conflicts, Present;
    if Conflicts(db, s) { OnConflictPresent(db, s); } else { InsertPresent(db, s); }
  }

  lemma PresentKept(a: Db, b: Db, s: Stmt)
    requires Present(a, s) && Grows(a, b)
    ensures Present(b, s)
  {
  }

  /** After the batch every statement's row is there. */
  lemma {:induction false} ExecAllPresent(db: Db, stmts: seq<Stmt>, s: Stmt)
    requires ExecAll(db, stmts).Some? && s in stmts
    ensures Present(ExecAll(db, stmts).value, s)
    decreases |stmts|
  {
    hide Grows, Present, Exec;
    var next := Exec(db, stmts[0]).value;
    if s == stmts[0] {
      ExecPresent(db, s);
      ExecAllGrows(next, stmts[1..]);
      PresentKept(next, ExecAll(db, stmts).value, s);
    } else {
      assert s in stmts[1..];
      ExecAllPresent(next, stmts[1..], s);
    }
  }

  ghost predicate GivenBy(stmts: seq<Stmt>, r: Ref) {
    exists s :: s in stmts && Gives(s) == Some(r)
  }

  lemma InsertRefs(db: Db, s: Stmt, r: Ref)
    requires Pinned(db, s)
    ensures Has(Insert(db, s), r) <==> Has(db, r) || Gives(s) == Some(r)
  {
    hide CiteRowOf, PinId;
  }

  lemma OnConflictRefs(db: Db, s: Stmt, r: Ref)
    requires Pinned(db, s) && Conflicts(db, s)
    ensures Has(OnConflict(db, s), r) <==> Has(db, r)
    ensures Gives(s) == Some(r) ==> Has(db, r)
  {
    hide PinId;
  }

  lemma ExecRefs(db: Db, s: Stmt, r: Ref)
    requires Exec(db, s).Some?
    ensures Has(Exec(db, s).value, r) <==> Has(db, r) || Gives(s) == Some(r)
  {
    hide CheckOk, Refs, Has, Gives, Insert, OnConflict, Conflicts;
    if Conflicts(db, s) { OnConflictRefs(db, s, r); } else { InsertRefs(db, s, r); }
  }

  lemma GivenByFirstOrRest(stmts: seq<Stmt>, r: Ref)
    requires stmts != []
    ensures GivenBy(stmts, r) <==> Gives(stmts[0]) == Some(r) || GivenBy(stmts[1..], r)
  {
    hide Gives;
    assert stmts == [stmts[0]] + stmts[1..];
  }

  /** The rows that can be referred to afterwards are the old ones and those the batch gives. */
  lemma {:induction false} ExecAllRefs(db: Db, stmts: seq<Stmt>, r: Ref)
    requires ExecAll(db, stmts).Some?
    ensures Has(ExecAll(db, stmts).value, r) <==> Has(db, r) || GivenBy(stmts, r)
    decreases |stmts|
  {
    if stmts != [] {
      hide Has, Gives, Exec, GivenBy;
      ExecRefs(db, stmts[0], r);
      ExecAllRefs(Exec(db, stmts[0]).value, stmts[1..], r);
      GivenByFirstOrRest(stmts, r);
    }
  }

  ghost predicate WroteEventCite(stmts: seq<Stmt>, k: (string, string), row: CiteRow) {
    exists s :: s in stmts && s.InsEventSource? && (s.eventId, s.cite.sourceId) == k && row == CiteRowOf(s.cite)
  }

  ghost predicate WroteClaimCite(stmts: seq<Stmt>, k: ClaimSourceKey, row: CiteRow) {
    exists s :: s in stmts && s.InsClaimSource? && s.claimId == k.claim && s.cite.sourceId == k.source && row == CiteRowOf(s.cite)
  }

  /** A cited event row is an old one or was written by a citation of the batch. */
  lemma {:induction false} EventSourceOrigin(db: Db, stmts: seq<Stmt>, k: (string, string))
    requires ExecAll(db, stmts).Some? && k in ExecAll(db, stmts).value.eventSources && k !in db.eventSources
    ensures WroteEventCite(stmts, k, ExecAll(db, stmts).value.eventSources[k])
    decreases |stmts|
  {
    hide Exec, CiteRowOf;
    var s, next := stmts[0], Exec(db, stmts[0]).value;
    ExecCitations(db, s);
    assert s in stmts && forall x :: x in stmts[1..] ==> x in stmts;
    if k in next.eventSources {
      ExecAllGrows(next, stmts[1..]);
      assert ExecAll(db, stmts).value.eventSources[k] == CiteRowOf(s.cite);
    } else {
      EventSourceOrigin(next, stmts[1..], k);
    }
  }

  /** A claim citation row is an old one or was written by a citation of the batch. */
  lemma {:induction false} ClaimSourceOrigin(db: Db, stmts: seq<Stmt>, k: ClaimSourceKey)
    requires ExecAll(db, stmts).Some? && k in ExecAll(db, stmts).value.claimSources && k !in db.claimSources
    ensures WroteClaimCite(stmts, k, ExecAll(db, stmts).value.claimSources[k])
    decreases |stmts|
  {
    hide Exec, CiteRowOf;
    var s, next := stmts[0], Exec(db, stmts[0]).value;
    ExecCitations(db, s);
    assert s in stmts && forall x :: x in stmts[1..] ==> x in stmts;
    if k in next.claimSources {
      ExecAllGrows(next, stmts[1..]);
      assert ExecAll(db, stmts).value.claimSources[k] == CiteRowOf(s.cite);
    } else {
      ClaimSourceOrigin(next, stmts[1..], k);
    }
  }

  /** b holds the row that s inserts, and a holds none under its key. */
  ghost predicate NewRow(a: Db, b: Db, s: Stmt) {
    match s
    case InsEntity(id, row) => id !in a.entities && id in b.entities && b.entities[id] == row
    case InsName(e, n, row) => (e, n) !in a.names && (e, n) in b.names && b.names[(e, n)] == row
    case InsEvent(id, row) => id !in a.events && id in b.events && b.events[id] == row
    case InsParticipant(e, p, role) => (e, p) !in a.participants && (e, p) in b.participants && b.participants[(e, p)] == role
    case InsLink(k) => k !in a.links && k in b.links
    case InsClaim(id, row) => id !in a.claims && id in b.claims && b.claims[id] == row
    case InsRelationship(k, j) => k !in a.relationships && k in b.relationships && b.relationships[k] == j
    case InsContradiction(id, row) => id !in a.contradictions && id in b.contradictions && b.contradictions[id] == row
    case InsContradictionClaim(k, c, tradition) =>
      var key := ContradictionClaimKey(k, c, None);
      key !in a.contradictionClaims && key in b.contradictionClaims && b.contradictionClaims[key] == tradition
    case _ => false
  }

  lemma InsertNewRow(db: Db, t: Stmt, s: Stmt)
    requires Pinned(db, t) && NewRow(db, Insert(db, t), s)
    ensures s == t
  {
    hide CiteRowOf, PinId;
  }

  lemma OnConflictNewRow(db: Db, t: Stmt, s: Stmt)
    ensures !NewRow(db, OnConflict(db, t), s)
  {
  }

  lemma ExecNewRow(db: Db, t: Stmt, s: Stmt)
    requires Exec(db, t).Some? && NewRow(db, Exec(db, t).value, s)
    ensures s == t
  {
    hide CheckOk, Refs, Has, Insert, OnConflict, Conflicts, NewRow;
    if Conflicts(db, t) { OnConflictNewRow(db, t, s); } else { InsertNewRow(db, t, s); }
  }

  /** A row new at the end is new in the first step or in the rest. */
  lemma NewRowSplit(a: Db, b: Db, c: Db, s: Stmt)
    requires NewRow(a, c, s) && Grows(b, c)
    ensures NewRow(a, b, s) || NewRow(b, c, s)
  {
  }

  /** A row that a batch adds is the row of one of its statements. */
  lemma {:induction false} RowOrigin(db: Db, stmts: seq<Stmt>, s: Stmt)
    requires ExecAll(db, stmts).Some? && NewRow(db, ExecAll(db, stmts).value, s)
    ensures s in stmts
    decreases |stmts|
  {
    hide Exec, Grows, NewRow;
    if stmts == [] {
      NotNewInItself(db, s);
    } else {
      var next, after := Exec(db, stmts[0]).value, ExecAll(db, stmts).value;
      ExecAllGrows(next, stmts[1..]);
      NewRowSplit(db, next, after, s);
      assert stmts == [stmts[0]] + stmts[1..];
      if NewRow(db, next, s) { ExecNewRow(db, stmts[0], s); } else { RowOrigin(next, stmts[1..], s); }
    }
  }

  lemma NotNewInItself(db: Db, s: Stmt)
    ensures !NewRow(db, db, s)
  {
  }

  /** An old version keeps its statement unless the batch writes that very version. */
  lemma {:induction false} VersionStatementKept(db: Db, stmts: seq<Stmt>, v: VersionKey)
    requires ExecAll(db, stmts).Some? && v in db.versions
    requires forall s :: s in stmts && s.InsVersion? ==> s.version != v
    ensures v in ExecAll(db, stmts).value.versions && ExecAll(db, stmts).value.versions[v] == db.versions[v]
    decreases |stmts|
  {
    if stmts != [] {
      hide Exec;
      assert stmts[0] in stmts;
      ExecVersions(db, stmts[0], v);
      VersionStatementKept(Exec(db, stmts[0]).value, stmts[1..], v);
    }
  }

  // ------------------------------------------------- when a batch succeeds

  /** Each statement passes its CHECKs and refers only to given rows. */
  ghost predicate Closed(given: iset<Ref>, stmts: seq<Stmt>)
    decreases |stmts|
  {
    stmts == [] ||
    (&& CheckOk(stmts[0]) && (forall r :: r in Refs(stmts[0]) ==> r in given)
     && Closed(given + GivenSet(stmts[0]), stmts[1..]))
  }

  ghost function GivenSet(s: Stmt): iset<Ref> {
    if Gives(s).Some? then iset{Gives(s).value} else iset{}
  }

  ghost function AllGiven(stmts: seq<Stmt>): iset<Ref> {
    iset r | GivenBy(stmts, r)
  }

  lemma {:induction false} ClosedMonotone(g: iset<Ref>, h: iset<Ref>, stmts: seq<Stmt>)
    requires Closed(g, stmts) && g <= h
    ensures Closed(h, stmts)
    decreases |stmts|
  {
    if stmts != [] { ClosedMonotone(g + GivenSet(stmts[0]), h + GivenSet(stmts[0]), stmts[1..]); }
  }

  lemma {:induction false} ClosedConcat(g: iset<Ref>, a: seq<Stmt>, b: seq<Stmt>)
    requires Closed(g, a) && Closed(g + AllGiven(a), b)
    ensures Closed(g, a + b)
    decreases |a|
  {
    if a == [] {
      assert a + b == b;
      assert g + AllGiven(a) == g;
    } else {
      assert (a + b)[0] == a[0] && (a + b)[1..] == a[1..] + b;
      assert AllGiven(a) == GivenSet(a[0]) + AllGiven(a[1..]) by {
        forall r
          ensures r in AllGiven(a) <==> r in GivenSet(a[0]) + AllGiven(a[1..])
        {
          GivenByFirstOrRest(a, r);
        }
      }
      assert g + AllGiven(a) == g + GivenSet(a[0]) + AllGiven(a[1..]);
      ClosedConcat(g + GivenSet(a[0]), a[1..], b);
    }
  }

  /** A closed batch breaks no foreign key, CHECK or NOT NULL constraint. */
  lemma {:induction false} ClosedSucceeds(db: Db, given: iset<Ref>, stmts: seq<Stmt>)
    requires Closed(given, stmts) && forall r :: r in given ==> Has(db, r)
    ensures ExecAll(db, stmts).Some?
    decreases |stmts|
  {
    if stmts != [] {
      var s := stmts[0];
      if s.InsClaimSource? && s.pin.Some? {
        assert VersionRef(VersionKey(s.claimId, s.pin.value)) in Refs(s);
        assert Has(db, VersionRef(VersionKey(s.claimId, s.pin.value)));
      }
      var next := Exec(db, s).value;
      forall r | r in given + GivenSet(s)
        ensures Has(next, r)
      {
        ExecRefs(db, s, r);
      }
      ClosedSucceeds(next, given + GivenSet(s), stmts[1..]);
    }
  }
}

/**
 * What deterministic validation keeps and drops, stated record by record.
 * The loops that compute it are in ValidationLoops; the theorems in ValidationTheorems.
 */
module Validation {
  import opened Basics
  import opened Units
  import opened Wire
  import SortedKeys

  // ------------------------------------------------------------ records

  datatype EntityName = EntityName(name: string, nameKind: string, language: string)

  datatype EntityRecord = EntityRecord(
    id: string, kind: string, canonicalName: string, names: seq<EntityName>, attributes: Json)

  datatype Participant = Participant(entityId: string, role: string)

  datatype EventRecord = EventRecord(
    id: string, kind: string, summary: string, description: string, dating: Option<Json>,
    locationEntityId: string, participants: seq<Participant>,
    causes: seq<string>, consequences: seq<string>, sources: seq<Citation>)

  datatype ClaimVersionRecord = ClaimVersionRecord(tradition: string, statement: string, sources: seq<Citation>)

  datatype ClaimRecord = ClaimRecord(
    id: string, statement: string, confidence: string, subjectEntityId: string,
    predicate_: string, objectEntityId: string, objectValue: string,
    versions: seq<ClaimVersionRecord>, sources: seq<Citation>)

  datatype RelationshipRecord = RelationshipRecord(
    fromEntityId: string, toEntityId: string, relType: string, claimId: string)

  datatype ContradictionEntry = ContradictionEntry(id: string, title: string, description: string, claimId: string)

  datatype DropKind =
    | EntityDrop | NameKindDrop | CitationDrop | EventDrop | ParticipantDrop | LocationDrop
    | EventLinkDrop | ClaimFieldDrop | ClaimDrop | VersionDrop | RelationshipDrop

  /** A structured reason; its rendering as text is not modelled. */
  datatype Reason =
    | InvalidId | DuplicateEntity | DuplicateEvent | DuplicateClaim
    | NameKindToOther(nameKind: string)
    | UnknownSource(sourceId: string) | BadLocator(sourceId: string, missing: set<string>)
    | Uncited | MissingReference | MissingPrimary | ContestedWithoutVersions
    | DanglingEntity | DanglingLocation(id: string) | DanglingCause | DanglingConsequence
    | BothObjectsKeptEntity | DanglingSubject(id: string) | DanglingObject(id: string)
    | UnknownRelType(relType: string) | DanglingEndpoint | SelfRelationship
    | KeptWithoutJustification(id: string) | DuplicateRelationship

  datatype Drop = Drop(kind: DropKind, ref: string, reason: Reason)

  datatype Validated = Validated(
    entities: seq<EntityRecord>, events: seq<EventRecord>, claims: seq<ClaimRecord>,
    relationships: seq<RelationshipRecord>, contradictions: seq<ContradictionEntry>, drops: seq<Drop>)

  datatype Counts = Counts(entities: nat, events: nat, claims: nat, relationships: nat, contradictions: nat)

  const ZERO_COUNTS := Counts(0, 0, 0, 0, 0)

  function CountsOf(v: Validated): Counts {
    Counts(|v.entities|, |v.events|, |v.claims|, |v.relationships|, |v.contradictions|)
  }

  /** The unit and the graph ids that exist so far. */
  datatype Scope = Scope(unit: Unit, dbEntities: set<string>, dbEvents: set<string>, dbClaims: set<string>)

  // -------------------------------------------------------------- slugs

  predicate SlugHead(c: char) {
    'a' <= c <= 'z' || '0' <= c <= '9'
  }

  predicate SlugTail(c: char) {
    SlugHead(c) || c == '_' || c == '-'
  }

  /** ^[a-z0-9][a-z0-9_-]*$ */
  predicate IsSlug(s: string) {
    s != "" && SlugHead(s[0]) && forall i :: 0 <= i < |s| ==> SlugTail(s[i])
  }

  // ---------------------------------------------------------- citations

  /** The sources a unit may cite: its reference and its candidates. */
  ghost function SurfaceSources(u: Unit): set<string> {
    {u.reference.sourceId} + set c | c in u.candidates :: c.sourceId
  }

  /** Key k is required of citations to source s: some surface locator of s carries it. */
  ghost predicate SurfaceKey(u: Unit, s: string, k: string) {
    || (s == u.reference.sourceId && k in u.reference.locator)
    || exists c :: c in u.candidates && c.sourceId == s && k in c.locator
  }

  /** The citation surface: each allowed source with the locator keys it requires. */
  type Surface = map<string, set<string>>

  function AddSource(m: Surface, sourceId: string, locator: Locator): Surface {
    m[sourceId := (if sourceId in m then m[sourceId] else {}) + locator.Keys]
  }

  ghost function AddCandidates(m: Surface, cs: seq<Candidate>): Surface {
    if cs == [] then m else AddSource(AddCandidates(m, Front(cs)), Last(cs).sourceId, Last(cs).locator)
  }

  ghost function Citeable(u: Unit): Surface {
    AddCandidates(AddSource(map[], u.reference.sourceId, u.reference.locator), u.candidates)
  }

  predicate CitationOk(allowed: Surface, c: Citation) {
    c.sourceId in allowed && allowed[c.sourceId] <= c.locator.Keys
  }

  ghost function OkIn(allowed: Surface): Citation -> bool {
    (c: Citation) => CitationOk(allowed, c)
  }

  ghost function Cited(cs: seq<Citation>, allowed: Surface): seq<Citation> {
    Filter(cs, OkIn(allowed))
  }

  function CitationEntry(c: Citation, allowed: Surface, owner: string): seq<Drop> {
    if c.sourceId !in allowed then [Drop(CitationDrop, owner, UnknownSource(c.sourceId))]
    else if allowed[c.sourceId] <= c.locator.Keys then []
    else [Drop(CitationDrop, owner, BadLocator(c.sourceId, allowed[c.sourceId] - c.locator.Keys))]
  }

  ghost function CitationLog(cs: seq<Citation>, allowed: Surface, owner: string): seq<Drop> {
    if cs == [] then [] else CitationLog(Front(cs), allowed, owner) + CitationEntry(Last(cs), allowed, owner)
  }

  predicate CitesReference(cs: seq<Citation>, ref: string) {
    exists c :: c in cs && c.sourceId == ref
  }

  predicate CitesPrimary(cs: seq<Citation>, ref: string) {
    exists c :: c in cs && c.sourceId != ref
  }

  /** The citation contract over the surviving citations: none when it is met. */
  function PolicyReason(cs: seq<Citation>, policy: CitationPolicy, ref: string): Option<Reason> {
    if cs == [] then Some(Uncited)
    else if policy.requireReference && !CitesReference(cs, ref) then Some(MissingReference)
    else if policy.requirePrimary && !CitesPrimary(cs, ref) then Some(MissingPrimary)
    else None
  }

  /** The contract applied to raw citations. */
  ghost function CiteReason(cs: seq<Citation>, u: Unit): Option<Reason> {
    PolicyReason(Cited(cs, Citeable(u)), u.policy, u.reference.sourceId)
  }

  // ----------------------------------------------------------- entities

  /** An empty reference always resolves: it stands for "no reference". */
  predicate Resolves(id: string, payload: set<string>, scope: Scope) {
    id == "" || id in payload || id in scope.dbEntities
  }

  predicate NameKindOk(kind: string) {
    kind == "variant" || kind == "alias" || kind == "translation" || kind == "other"
  }

  ghost function NameText(): WireName -> string { (n: WireName) => n.name }

  ghost function NameOk(canonical: string): WireName -> bool {
    (n: WireName) => n.name != "" && n.name != canonical
  }

  ghost function KeptNames(e: WireEntity): seq<WireName> {
    Keep(e.names, NameText(), NameOk(e.canonicalName))
  }

  function NameRecord(n: WireName): EntityName {
    EntityName(n.name, if NameKindOk(n.nameKind) then n.nameKind else "other", n.language)
  }

  function NameEntry(entityId: string, n: WireName): seq<Drop> {
    if NameKindOk(n.nameKind) then [] else [Drop(NameKindDrop, entityId + "/" + n.name, NameKindToOther(n.nameKind))]
  }

  ghost function NameRecords(ns: seq<WireName>): seq<EntityName> {
    if ns == [] then [] else NameRecords(Front(ns)) + [NameRecord(Last(ns))]
  }

  ghost function NameLog(entityId: string, ns: seq<WireName>): seq<Drop> {
    if ns == [] then [] else NameLog(entityId, Front(ns)) + NameEntry(entityId, Last(ns))
  }

  ghost function EntityId(): WireEntity -> string { (e: WireEntity) => e.id }

  ghost function EntityOk(): WireEntity -> bool { (e: WireEntity) => IsSlug(e.id) }

  ghost function KeptEntities(es: seq<WireEntity>): seq<WireEntity> {
    Keep(es, EntityId(), EntityOk())
  }

  ghost function EntityOf(e: WireEntity): EntityRecord {
    EntityRecord(e.id, e.kind, e.canonicalName, NameRecords(KeptNames(e)), e.attributes)
  }

  ghost function EntityEntry(e: WireEntity, dup: bool): seq<Drop> {
    if !IsSlug(e.id) then [Drop(EntityDrop, e.id, InvalidId)]
    else if dup then [Drop(EntityDrop, e.id, DuplicateEntity)]
    else NameLog(e.id, KeptNames(e))
  }

  ghost function EntityLog(es: seq<WireEntity>): seq<Drop> {
    if es == [] then [] else
    EntityLog(Front(es)) + EntityEntry(Last(es), Taken(Front(es), EntityId(), EntityOk(), Last(es).id))
  }

  ghost function EntityRecords(es: seq<WireEntity>): seq<EntityRecord> {
    if es == [] then [] else EntityRecords(Front(es)) + [EntityOf(Last(es))]
  }

  ghost function PayloadIds(es: seq<WireEntity>): set<string> {
    set e | e in KeptEntities(es) :: e.id
  }

  // ------------------------------------------------------------- events

  ghost predicate EventPasses(scope: Scope, e: WireEvent) {
    IsSlug(e.id) && e.id !in scope.dbEvents && CiteReason(e.sources, scope.unit).None?
  }

  ghost function EventId(): WireEvent -> string { (e: WireEvent) => e.id }

  ghost function EventOk(scope: Scope): WireEvent -> bool { (e: WireEvent) => EventPasses(scope, e) }

  ghost function KeptEvents(scope: Scope, es: seq<WireEvent>): seq<WireEvent> {
    Keep(es, EventId(), EventOk(scope))
  }

  ghost function ResolvedParticipants(ids: seq<string>, roles: map<string, string>, payload: set<string>, scope: Scope): seq<Participant>
    requires forall id :: id in ids ==> id in roles
  {
    if ids == [] then [] else
    ResolvedParticipants(Front(ids), roles, payload, scope) +
    if Resolves(Last(ids), payload, scope) then [Participant(Last(ids), roles[Last(ids)])] else []
  }

  ghost function ParticipantLog(ids: seq<string>, eventId: string, payload: set<string>, scope: Scope): seq<Drop> {
    if ids == [] then [] else
    ParticipantLog(Front(ids), eventId, payload, scope) +
    if Resolves(Last(ids), payload, scope) then [] else [Drop(ParticipantDrop, eventId + "/" + Last(ids), DanglingEntity)]
  }

  /** The event as stored before its links are resolved. */
  ghost function EventOf(e: WireEvent, payload: set<string>, scope: Scope): EventRecord {
    EventRecord(e.id, e.kind, e.summary, e.description, e.dating,
                if Resolves(e.locationEntityId, payload, scope) then e.locationEntityId else "",
                ResolvedParticipants(SortedKeys.Sorted(e.participants.Keys), e.participants, payload, scope),
                [], [], Cited(e.sources, Citeable(scope.unit)))
  }

  ghost function EventRecords(es: seq<WireEvent>, payload: set<string>, scope: Scope): seq<EventRecord> {
    if es == [] then [] else EventRecords(Front(es), payload, scope) + [EventOf(Last(es), payload, scope)]
  }

  ghost function EventBodyLog(e: WireEvent, payload: set<string>, scope: Scope): seq<Drop> {
    ParticipantLog(SortedKeys.Sorted(e.participants.Keys), e.id, payload, scope) +
    if Resolves(e.locationEntityId, payload, scope) then [] else [Drop(LocationDrop, e.id, DanglingLocation(e.locationEntityId))]
  }

  ghost function EventEntry(e: WireEvent, dup: bool, payload: set<string>, scope: Scope): seq<Drop> {
    if !IsSlug(e.id) then [Drop(EventDrop, e.id, InvalidId)]
    else if dup || e.id in scope.dbEvents then [Drop(EventDrop, e.id, DuplicateEvent)]
    else
      CitationLog(e.sources, Citeable(scope.unit), "event:" + e.id) +
      match CiteReason(e.sources, scope.unit)
      case Some(reason) => [Drop(EventDrop, e.id, reason)]
      case None => EventBodyLog(e, payload, scope)
  }

  ghost function EventLog(es: seq<WireEvent>, payload: set<string>, scope: Scope): seq<Drop> {
    if es == [] then [] else
    EventLog(Front(es), payload, scope) +
    EventEntry(Last(es), Taken(Front(es), EventId(), EventOk(scope), Last(es).id), payload, scope)
  }

  // Links resolve against the surviving events plus the already-known ones.

  ghost function LinkTargets(scope: Scope, es: seq<WireEvent>): set<string> {
    (set e | e in KeptEvents(scope, es) :: e.id) + scope.dbEvents
  }

  ghost function InTargets(targets: set<string>): string -> bool { (id: string) => id in targets }

  ghost function LinkLog(ids: seq<string>, eventId: string, targets: set<string>, reason: Reason): seq<Drop> {
    if ids == [] then [] else
    LinkLog(Front(ids), eventId, targets, reason) +
    if Last(ids) in targets then [] else [Drop(EventLinkDrop, eventId + "->" + Last(ids), reason)]
  }

  ghost function Linked(r: EventRecord, e: WireEvent, targets: set<string>): EventRecord {
    r.(causes := Filter(e.causes, InTargets(targets)), consequences := Filter(e.consequences, InTargets(targets)))
  }

  ghost function LinkedEvents(es: seq<WireEvent>, payload: set<string>, scope: Scope, targets: set<string>): seq<EventRecord> {
    if es == [] then [] else
    LinkedEvents(Front(es), payload, scope, targets) + [Linked(EventOf(Last(es), payload, scope), Last(es), targets)]
  }

  ghost function LinksLog(es: seq<WireEvent>, targets: set<string>): seq<Drop> {
    if es == [] then [] else
    LinksLog(Front(es), targets) +
    LinkLog(Last(es).causes, Last(es).id, targets, DanglingCause) +
    LinkLog(Last(es).consequences, Last(es).id, targets, DanglingConsequence)
  }

  // ------------------------------------------------------------- claims

  predicate Contested(confidence: string) {
    confidence == CONTESTED || confidence == ABANDONED_VERSION
  }

  ghost function VersionOf(v: WireVersion, u: Unit): ClaimVersionRecord {
    ClaimVersionRecord(v.tradition, v.statement, Cited(v.sources, Citeable(u)))
  }

  ghost function Versions(vs: seq<WireVersion>, u: Unit): seq<ClaimVersionRecord> {
    if vs == [] then [] else
    Versions(Front(vs), u) + if CiteReason(Last(vs).sources, u).None? then [VersionOf(Last(vs), u)] else []
  }

  ghost function VersionLog(vs: seq<WireVersion>, claimId: string, u: Unit): seq<Drop> {
    if vs == [] then [] else
    VersionLog(Front(vs), claimId, u) +
    CitationLog(Last(vs).sources, Citeable(u), "claim:" + claimId + "#" + Last(vs).tradition) +
    match CiteReason(Last(vs).sources, u)
    case Some(reason) => [Drop(VersionDrop, claimId + "#" + Last(vs).tradition, reason)]
    case None => []
  }

  /** The first of subject and object that does not resolve. */
  function Dangling(c: WireClaim, payload: set<string>, scope: Scope): Option<Reason> {
    if !Resolves(c.subjectEntityId, payload, scope) then Some(DanglingSubject(c.subjectEntityId))
    else if !Resolves(c.objectEntityId, payload, scope) then Some(DanglingObject(c.objectEntityId))
    else None
  }

  /** Why the claim's citations or versions reject it, if they do. */
  ghost function ClaimReason(c: WireClaim, u: Unit): Option<Reason> {
    if CiteReason(c.sources, u).Some? then CiteReason(c.sources, u)
    else if Contested(c.confidence) && Versions(c.versions, u) == [] then Some(ContestedWithoutVersions)
    else None
  }

  ghost predicate ClaimPasses(payload: set<string>, scope: Scope, c: WireClaim) {
    && IsSlug(c.id) && c.id !in scope.dbClaims
    && Dangling(c, payload, scope).None?
    && ClaimReason(c, scope.unit).None?
  }

  ghost function ClaimId(): WireClaim -> string { (c: WireClaim) => c.id }

  ghost function ClaimOk(payload: set<string>, scope: Scope): WireClaim -> bool {
    (c: WireClaim) => ClaimPasses(payload, scope, c)
  }

  ghost function KeptClaims(payload: set<string>, scope: Scope, cs: seq<WireClaim>): seq<WireClaim> {
    Keep(cs, ClaimId(), ClaimOk(payload, scope))
  }

  function KeptObjectValue(c: WireClaim): string {
    if c.objectEntityId != "" then "" else c.objectValue
  }

  ghost function ClaimOf(c: WireClaim, u: Unit): ClaimRecord {
    ClaimRecord(c.id, c.statement, c.confidence, c.subjectEntityId, c.predicate_, c.objectEntityId,
                KeptObjectValue(c), Versions(c.versions, u), Cited(c.sources, Citeable(u)))
  }

  function FieldEntry(c: WireClaim): seq<Drop> {
    if c.objectEntityId != "" && c.objectValue != "" then [Drop(ClaimFieldDrop, c.id, BothObjectsKeptEntity)] else []
  }

  ghost function ClaimEntry(c: WireClaim, dup: bool, payload: set<string>, scope: Scope): seq<Drop> {
    if !IsSlug(c.id) then [Drop(ClaimDrop, c.id, InvalidId)]
    else if dup || c.id in scope.dbClaims then [Drop(ClaimDrop, c.id, DuplicateClaim)]
    else if Dangling(c, payload, scope).Some? then
      FieldEntry(c) + [Drop(ClaimDrop, c.id, Dangling(c, payload, scope).value)]
    else
      FieldEntry(c) + CitationLog(c.sources, Citeable(scope.unit), "claim:" + c.id) +
      (if CiteReason(c.sources, scope.unit).None? then VersionLog(c.versions, c.id, scope.unit) else []) +
      match ClaimReason(c, scope.unit)
      case Some(reason) => [Drop(ClaimDrop, c.id, reason)]
      case None => []
  }

  ghost function ClaimLog(cs: seq<WireClaim>, payload: set<string>, scope: Scope): seq<Drop> {
    if cs == [] then [] else
    ClaimLog(Front(cs), payload, scope) +
    ClaimEntry(Last(cs), Taken(Front(cs), ClaimId(), ClaimOk(payload, scope), Last(cs).id), payload, scope)
  }

  ghost function ClaimRecords(cs: seq<WireClaim>, u: Unit): seq<ClaimRecord> {
    if cs == [] then [] else ClaimRecords(Front(cs), u) + [ClaimOf(Last(cs), u)]
  }

  const CONTRADICTION_NOTE :=
    "Auto-registered at extraction: traditions diverge on this claim; per-tradition versions preserved, never auto-resolved."

  function Title(statement: string): string {
    if |statement| > 120 then statement[..120] else statement
  }

  function EntryOf(c: ClaimRecord): ContradictionEntry {
    ContradictionEntry(c.id + "-tradition", Title(c.statement), CONTRADICTION_NOTE, c.id)
  }

  ghost function Contradictions(cs: seq<ClaimRecord>): seq<ContradictionEntry> {
    if cs == [] then [] else
    Contradictions(Front(cs)) + if Contested(Last(cs).confidence) then [EntryOf(Last(cs))] else []
  }

  ghost function ClaimIds(cs: seq<WireClaim>): set<string> {
    set c | c in cs :: c.id
  }

  // ------------------------------------------------------ relationships

  /** An alias normalises to its canonical type; anything else stays as spelt. */
  function Canonical(u: Unit, relType: string): string {
    if relType in u.relAliases then u.relAliases[relType] else relType
  }

  predicate EdgePasses(payload: set<string>, scope: Scope, r: WireRelationship) {
    && Canonical(scope.unit, r.relType) in scope.unit.relTypes
    && Resolves(r.fromEntityId, payload, scope)
    && Resolves(r.toEntityId, payload, scope)
    && r.fromEntityId != r.toEntityId
  }

  datatype Edge = Edge(fromEntityId: string, toEntityId: string, relType: string)

  ghost function EdgeOf(u: Unit): WireRelationship -> Edge {
    (r: WireRelationship) => Edge(r.fromEntityId, r.toEntityId, Canonical(u, r.relType))
  }

  ghost function EdgeOk(payload: set<string>, scope: Scope): WireRelationship -> bool {
    (r: WireRelationship) => EdgePasses(payload, scope, r)
  }

  ghost function KeptEdges(payload: set<string>, scope: Scope, rs: seq<WireRelationship>): seq<WireRelationship> {
    Keep(rs, EdgeOf(scope.unit), EdgeOk(payload, scope))
  }

  function EdgeRef(r: WireRelationship): string {
    r.fromEntityId + "-" + r.relType + "-" + r.toEntityId
  }

  /** The justifying claim survives only if it is in the payload or the graph. */
  predicate Justified(r: WireRelationship, claims: set<string>, scope: Scope) {
    r.claimId == "" || r.claimId in claims || r.claimId in scope.dbClaims
  }

  function RelationshipOf(r: WireRelationship, claims: set<string>, scope: Scope): RelationshipRecord {
    RelationshipRecord(r.fromEntityId, r.toEntityId, Canonical(scope.unit, r.relType),
                       if Justified(r, claims, scope) then r.claimId else "")
  }

  function EdgeEntry(r: WireRelationship, dup: bool, payload: set<string>, claims: set<string>, scope: Scope): seq<Drop> {
    if Canonical(scope.unit, r.relType) !in scope.unit.relTypes then
      [Drop(RelationshipDrop, EdgeRef(r), UnknownRelType(r.relType))]
    else if !Resolves(r.fromEntityId, payload, scope) || !Resolves(r.toEntityId, payload, scope) then
      [Drop(RelationshipDrop, EdgeRef(r), DanglingEndpoint)]
    else if r.fromEntityId == r.toEntityId then
      [Drop(RelationshipDrop, EdgeRef(r), SelfRelationship)]
    else
      (if Justified(r, claims, scope) then [] else [Drop(RelationshipDrop, EdgeRef(r), KeptWithoutJustification(r.claimId))]) +
      if dup then [Drop(RelationshipDrop, EdgeRef(r), DuplicateRelationship)] else []
  }

  ghost function EdgeLog(rs: seq<WireRelationship>, payload: set<string>, claims: set<string>, scope: Scope): seq<Drop> {
    if rs == [] then [] else
    EdgeLog(Front(rs), payload, claims, scope) +
    EdgeEntry(Last(rs), Taken(Front(rs), EdgeOf(scope.unit), EdgeOk(payload, scope), EdgeOf(scope.unit)(Last(rs))),
              payload, claims, scope)
  }

  ghost function RelationshipRecords(rs: seq<WireRelationship>, claims: set<string>, scope: Scope): seq<RelationshipRecord> {
    if rs == [] then [] else RelationshipRecords(Front(rs), claims, scope) + [RelationshipOf(Last(rs), claims, scope)]
  }

  // ---------------------------------------------------------- the whole

  ghost function ClaimsOf(w: WireExtraction, scope: Scope): seq<WireClaim> {
    KeptClaims(PayloadIds(w.entities), scope, w.claims)
  }

  ghost function EntitiesIn(w: WireExtraction): seq<EntityRecord> {
    EntityRecords(KeptEntities(w.entities))
  }

  ghost function EventsIn(w: WireExtraction, scope: Scope): seq<EventRecord> {
    LinkedEvents(KeptEvents(scope, w.events), PayloadIds(w.entities), scope, LinkTargets(scope, w.events))
  }

  ghost function ClaimsIn(w: WireExtraction, scope: Scope): seq<ClaimRecord> {
    ClaimRecords(ClaimsOf(w, scope), scope.unit)
  }

  ghost function EdgesIn(w: WireExtraction, scope: Scope): seq<RelationshipRecord> {
    RelationshipRecords(KeptEdges(PayloadIds(w.entities), scope, w.relationships), ClaimIds(ClaimsOf(w, scope)), scope)
  }

  ghost function DropsOf(w: WireExtraction, scope: Scope): seq<Drop> {
    var payload := PayloadIds(w.entities);
    EntityLog(w.entities) +
    EventLog(w.events, payload, scope) +
    LinksLog(KeptEvents(scope, w.events), LinkTargets(scope, w.events)) +
    ClaimLog(w.claims, payload, scope) +
    EdgeLog(w.relationships, payload, ClaimIds(ClaimsOf(w, scope)), scope)
  }

  /** Every drop rule applied: the loadable records and the drop log. */
  ghost function Validate(w: WireExtraction, scope: Scope): Validated {
    Validated(EntitiesIn(w), EventsIn(w, scope), ClaimsIn(w, scope), EdgesIn(w, scope),
              Contradictions(ClaimsIn(w, scope)), DropsOf(w, scope))
  }
}

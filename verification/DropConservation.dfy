/** Every wire record is accounted for: kept, or dropped exactly once under its own kind. */
module DropConservation {
  import opened Basics
  import opened Units
  import opened Wire
  import opened Validation
  import opened ValidationTheorems
  import SortedKeys

  ghost function OfKind(k: DropKind): Drop -> bool {
    (d: Drop) => d.kind == k
  }

  /** An edge that survived while losing its dangling justification. */
  ghost function Unjustified(): Drop -> bool {
    (d: Drop) => d.kind.RelationshipDrop? && d.reason.KeptWithoutJustification?
  }

  /** A drop that the run counts as a lost record. */
  ghost function Counted(): Drop -> bool {
    (d: Drop) => d.kind.ClaimDrop? || d.kind.EventDrop? || d.kind.RelationshipDrop?
  }

  ghost predicate Only(log: seq<Drop>, kinds: set<DropKind>) {
    forall d :: d in log ==> d.kind in kinds
  }

  lemma NoneOfKind(log: seq<Drop>, kinds: set<DropKind>, k: DropKind)
    requires Only(log, kinds) && k !in kinds
    ensures Count(log, OfKind(k)) == 0
    ensures k.RelationshipDrop? ==> Count(log, Unjustified()) == 0
  {
    CountZero(log, OfKind(k));
    if k.RelationshipDrop? { CountZero(log, Unjustified()); }
  }

  // ------------------------------------------ which kinds a loop can log

  lemma {:induction false} CitationLogKinds(cs: seq<Citation>, allowed: Surface, owner: string)
    ensures Only(CitationLog(cs, allowed, owner), {CitationDrop})
  {
    if cs != [] { CitationLogKinds(Front(cs), allowed, owner); }
  }

  lemma {:induction false} NameLogKinds(id: string, ns: seq<WireName>)
    ensures Only(NameLog(id, ns), {NameKindDrop})
  {
    if ns != [] { NameLogKinds(id, Front(ns)); }
  }

  lemma {:induction false} ParticipantLogKinds(ids: seq<string>, e: string, payload: set<string>, scope: Scope)
    ensures Only(ParticipantLog(ids, e, payload, scope), {ParticipantDrop})
  {
    if ids != [] { ParticipantLogKinds(Front(ids), e, payload, scope); }
  }

  lemma {:induction false} LinkLogKinds(ids: seq<string>, e: string, targets: set<string>, reason: Reason)
    ensures Only(LinkLog(ids, e, targets, reason), {EventLinkDrop})
  {
    if ids != [] { LinkLogKinds(Front(ids), e, targets, reason); }
  }

  lemma {:induction false} LinksLogKinds(es: seq<WireEvent>, targets: set<string>)
    ensures Only(LinksLog(es, targets), {EventLinkDrop})
  {
    if es != [] {
      LinksLogKinds(Front(es), targets);
      LinkLogKinds(Last(es).causes, Last(es).id, targets, DanglingCause);
      LinkLogKinds(Last(es).consequences, Last(es).id, targets, DanglingConsequence);
    }
  }

  lemma {:induction false} VersionLogKinds(vs: seq<WireVersion>, claimId: string, u: Unit)
    ensures Only(VersionLog(vs, claimId, u), {CitationDrop, VersionDrop})
  {
    if vs != [] {
      VersionLogKinds(Front(vs), claimId, u);
      CitationLogKinds(Last(vs).sources, Citeable(u), "claim:" + claimId + "#" + Last(vs).tradition);
    }
  }

  lemma {:induction false} EntityLogKinds(es: seq<WireEntity>)
    ensures Only(EntityLog(es), {EntityDrop, NameKindDrop})
  {
    if es != [] {
      EntityLogKinds(Front(es));
      NameLogKinds(Last(es).id, KeptNames(Last(es)));
    }
  }

  // -------------------------------------------- one drop per rejection

  lemma CountOne(d: Drop, p: Drop -> bool)
    ensures Count([d], p) == if p(d) then 1 else 0
  {
    assert Front([d]) == [];
  }

  /** A rejected event logs one event drop; a kept one logs none. */
  lemma EventDropsOnce(e: WireEvent, dup: bool, payload: set<string>, scope: Scope)
    ensures Only(EventEntry(e, dup, payload, scope), {EventDrop, CitationDrop, ParticipantDrop, LocationDrop})
    ensures Count(EventEntry(e, dup, payload, scope), OfKind(EventDrop)) == if EventPasses(scope, e) && !dup then 0 else 1
  {
    hide Citeable, CitationLog, ParticipantLog, Only;
    var p := OfKind(EventDrop);
    var cites := CitationLog(e.sources, Citeable(scope.unit), "event:" + e.id);
    CitationLogKinds(e.sources, Citeable(scope.unit), "event:" + e.id);
    NoneOfKind(cites, {CitationDrop}, EventDrop);
    EventBodyKinds(e, payload, scope);
    NoneOfKind(EventBodyLog(e, payload, scope), {ParticipantDrop, LocationDrop}, EventDrop);
    EventEntryKinds(e, dup, payload, scope);
    CountOne(Drop(EventDrop, e.id, InvalidId), p);
    CountOne(Drop(EventDrop, e.id, DuplicateEvent), p);
    match CiteReason(e.sources, scope.unit) {
      case Some(reason) =>
        CountOne(Drop(EventDrop, e.id, reason), p);
        CountConcat(cites, [Drop(EventDrop, e.id, reason)], p);
      case None =>
        CountConcat(cites, EventBodyLog(e, payload, scope), p);
    }
  }

  lemma EventBodyKinds(e: WireEvent, payload: set<string>, scope: Scope)
    ensures Only(EventBodyLog(e, payload, scope), {ParticipantDrop, LocationDrop})
  {
    ParticipantLogKinds(SortedKeys.Sorted(e.participants.Keys), e.id, payload, scope);
  }

  lemma EventEntryKinds(e: WireEvent, dup: bool, payload: set<string>, scope: Scope)
    ensures Only(EventEntry(e, dup, payload, scope), {EventDrop, CitationDrop, ParticipantDrop, LocationDrop})
  {
    hide EventBodyLog, CitationLog, Citeable;
    CitationLogKinds(e.sources, Citeable(scope.unit), "event:" + e.id);
    EventBodyKinds(e, payload, scope);
  }

  /** One more item under first-wins: the kept list grows exactly when the item passes untaken. */
  lemma KeepGrows<T, K>(s: seq<T>, key: T -> K, ok: T -> bool)
    requires s != []
    ensures |Keep(s, key, ok)| == |Keep(Front(s), key, ok)| + if ok(Last(s)) && !Taken(Front(s), key, ok, key(Last(s))) then 1 else 0
  {
    var f, n := Front(s), |s| - 1;
    assert forall j :: 0 <= j < n ==> f[j] == s[j];
    if ok(s[n]) && !FirstOk(s, key, ok, n) {
      var j :| 0 <= j < n && ok(s[j]) && key(s[j]) == key(s[n]);
      assert ok(f[j]) && key(f[j]) == key(s[n]);
    }
    if Taken(f, key, ok, key(s[n])) {
      var j :| 0 <= j < |f| && ok(f[j]) && key(f[j]) == key(s[n]);
      assert ok(s[j]) && key(s[j]) == key(s[n]);
    }
  }

  lemma {:induction false} EventLogCounts(es: seq<WireEvent>, payload: set<string>, scope: Scope)
    ensures Only(EventLog(es, payload, scope), {EventDrop, CitationDrop, ParticipantDrop, LocationDrop})
    ensures Count(EventLog(es, payload, scope), OfKind(EventDrop)) + |KeptEvents(scope, es)| == |es|
  {
    hide EventEntry, EventPasses;
    if es != [] {
      var dup := Taken(Front(es), EventId(), EventOk(scope), Last(es).id);
      EventLogCounts(Front(es), payload, scope);
      EventDropsOnce(Last(es), dup, payload, scope);
      CountConcat(EventLog(Front(es), payload, scope), EventEntry(Last(es), dup, payload, scope), OfKind(EventDrop));
      KeepGrows(es, EventId(), EventOk(scope));
    }
  }

  lemma ClaimEntryKinds(c: WireClaim, dup: bool, payload: set<string>, scope: Scope)
    ensures Only(ClaimEntry(c, dup, payload, scope), {ClaimDrop, ClaimFieldDrop, CitationDrop, VersionDrop})
  {
    hide CitationLog, VersionLog, Citeable, ClaimReason, CiteReason, Dangling;
    CitationLogKinds(c.sources, Citeable(scope.unit), "claim:" + c.id);
    VersionLogKinds(c.versions, c.id, scope.unit);
  }

  /** A rejected claim logs one claim drop; a kept one logs none. */
  lemma ClaimDropsOnce(c: WireClaim, dup: bool, payload: set<string>, scope: Scope)
    ensures Count(ClaimEntry(c, dup, payload, scope), OfKind(ClaimDrop)) == if ClaimPasses(payload, scope, c) && !dup then 0 else 1
  {
    hide CitationLog, VersionLog, Citeable, ClaimReason, CiteReason, Dangling, Only, Count;
    var p := OfKind(ClaimDrop);
    var fields := FieldEntry(c);
    var cites := CitationLog(c.sources, Citeable(scope.unit), "claim:" + c.id);
    var versions := if CiteReason(c.sources, scope.unit).None? then VersionLog(c.versions, c.id, scope.unit) else [];
    var before := fields + cites + versions;
    NoClaimDropsBefore(c, scope);
    CountOne(Drop(ClaimDrop, c.id, InvalidId), p);
    CountOne(Drop(ClaimDrop, c.id, DuplicateClaim), p);
    if Dangling(c, payload, scope).Some? {
      var d := Drop(ClaimDrop, c.id, Dangling(c, payload, scope).value);
      CountOne(d, p);
      CountConcat(fields, [d], p);
    } else if ClaimReason(c, scope.unit).Some? {
      var d := Drop(ClaimDrop, c.id, ClaimReason(c, scope.unit).value);
      CountOne(d, p);
      CountConcat(before, [d], p);
    } else {
      assert before + [] == before;
    }
  }

  lemma NoClaimDropsBefore(c: WireClaim, scope: Scope)
    ensures Count(FieldEntry(c), OfKind(ClaimDrop)) == 0
    ensures Count(FieldEntry(c) + CitationLog(c.sources, Citeable(scope.unit), "claim:" + c.id) +
                  (if CiteReason(c.sources, scope.unit).None? then VersionLog(c.versions, c.id, scope.unit) else []),
                  OfKind(ClaimDrop)) == 0
  {
    hide CitationLog, VersionLog, Citeable, CiteReason, Count;
    var cites := CitationLog(c.sources, Citeable(scope.unit), "claim:" + c.id);
    var versions := if CiteReason(c.sources, scope.unit).None? then VersionLog(c.versions, c.id, scope.unit) else [];
    CitationLogKinds(c.sources, Citeable(scope.unit), "claim:" + c.id);
    VersionLogKinds(c.versions, c.id, scope.unit);
    CountZero(FieldEntry(c), OfKind(ClaimDrop));
    CountZero(FieldEntry(c) + cites + versions, OfKind(ClaimDrop));
  }

  lemma {:induction false} ClaimLogCounts(cs: seq<WireClaim>, payload: set<string>, scope: Scope)
    ensures Only(ClaimLog(cs, payload, scope), {ClaimDrop, ClaimFieldDrop, CitationDrop, VersionDrop})
    ensures Count(ClaimLog(cs, payload, scope), OfKind(ClaimDrop)) + |KeptClaims(payload, scope, cs)| == |cs|
  {
    hide ClaimEntry, ClaimPasses;
    if cs != [] {
      var dup := Taken(Front(cs), ClaimId(), ClaimOk(payload, scope), Last(cs).id);
      ClaimLogCounts(Front(cs), payload, scope);
      ClaimEntryKinds(Last(cs), dup, payload, scope);
      ClaimDropsOnce(Last(cs), dup, payload, scope);
      CountConcat(ClaimLog(Front(cs), payload, scope), ClaimEntry(Last(cs), dup, payload, scope), OfKind(ClaimDrop));
      KeepGrows(cs, ClaimId(), ClaimOk(payload, scope));
    }
  }

  /** A rejected edge logs one relationship drop beyond the lost justification it may also log. */
  lemma EdgeDropsOnce(r: WireRelationship, dup: bool, payload: set<string>, claims: set<string>, scope: Scope)
    ensures Only(EdgeEntry(r, dup, payload, claims, scope), {RelationshipDrop})
    ensures Count(EdgeEntry(r, dup, payload, claims, scope), OfKind(RelationshipDrop)) ==
            Count(EdgeEntry(r, dup, payload, claims, scope), Unjustified()) + if EdgePasses(payload, scope, r) && !dup then 0 else 1
  {
    var p, q := OfKind(RelationshipDrop), Unjustified();
    var ref := EdgeRef(r);
    CountOne(Drop(RelationshipDrop, ref, UnknownRelType(r.relType)), p);
    CountOne(Drop(RelationshipDrop, ref, UnknownRelType(r.relType)), q);
    CountOne(Drop(RelationshipDrop, ref, DanglingEndpoint), p);
    CountOne(Drop(RelationshipDrop, ref, DanglingEndpoint), q);
    CountOne(Drop(RelationshipDrop, ref, SelfRelationship), p);
    CountOne(Drop(RelationshipDrop, ref, SelfRelationship), q);
    if EdgePasses(payload, scope, r) {
      var lost := if Justified(r, claims, scope) then [] else [Drop(RelationshipDrop, ref, KeptWithoutJustification(r.claimId))];
      var again := if dup then [Drop(RelationshipDrop, ref, DuplicateRelationship)] else [];
      CountOne(Drop(RelationshipDrop, ref, KeptWithoutJustification(r.claimId)), p);
      CountOne(Drop(RelationshipDrop, ref, KeptWithoutJustification(r.claimId)), q);
      CountOne(Drop(RelationshipDrop, ref, DuplicateRelationship), p);
      CountOne(Drop(RelationshipDrop, ref, DuplicateRelationship), q);
      CountConcat(lost, again, p);
      CountConcat(lost, again, q);
    }
  }

  lemma {:induction false} EdgeLogCounts(rs: seq<WireRelationship>, payload: set<string>, claims: set<string>, scope: Scope)
    ensures Only(EdgeLog(rs, payload, claims, scope), {RelationshipDrop})
    ensures Count(EdgeLog(rs, payload, claims, scope), OfKind(RelationshipDrop)) + |KeptEdges(payload, scope, rs)| ==
            |rs| + Count(EdgeLog(rs, payload, claims, scope), Unjustified())
  {
    hide EdgeEntry, EdgePasses;
    if rs != [] {
      var dup := Taken(Front(rs), EdgeOf(scope.unit), EdgeOk(payload, scope), EdgeOf(scope.unit)(Last(rs)));
      var before, entry := EdgeLog(Front(rs), payload, claims, scope), EdgeEntry(Last(rs), dup, payload, claims, scope);
      EdgeLogCounts(Front(rs), payload, claims, scope);
      EdgeDropsOnce(Last(rs), dup, payload, claims, scope);
      CountConcat(before, entry, OfKind(RelationshipDrop));
      CountConcat(before, entry, Unjustified());
      KeepGrows(rs, EdgeOf(scope.unit), EdgeOk(payload, scope));
    }
  }

  // ------------------------------------------------------------ totals

  lemma CountFive(a: seq<Drop>, b: seq<Drop>, c: seq<Drop>, d: seq<Drop>, e: seq<Drop>, p: Drop -> bool)
    ensures Count(a + b + c + d + e, p) == Count(a, p) + Count(b, p) + Count(c, p) + Count(d, p) + Count(e, p)
  {
    CountConcat(a + b + c + d, e, p);
    CountConcat(a + b + c, d, p);
    CountConcat(a + b, c, p);
    CountConcat(a, b, p);
  }

  lemma {:induction false} CountByKind(log: seq<Drop>)
    ensures Count(log, Counted()) ==
            Count(log, OfKind(ClaimDrop)) + Count(log, OfKind(EventDrop)) + Count(log, OfKind(RelationshipDrop))
  {
    if log != [] { CountByKind(Front(log)); }
  }

  /** Kept plus dropped equals received, kind by kind; an unjustified edge is logged although kept. */
  lemma RecordsConserved(w: WireExtraction, scope: Scope)
    ensures Count(DropsOf(w, scope), OfKind(EventDrop)) + |KeptEvents(scope, w.events)| == |w.events|
    ensures Count(DropsOf(w, scope), OfKind(ClaimDrop)) + |ClaimsOf(w, scope)| == |w.claims|
    ensures Count(DropsOf(w, scope), OfKind(RelationshipDrop)) + |KeptEdges(PayloadIds(w.entities), scope, w.relationships)|
            == |w.relationships| + Count(DropsOf(w, scope), Unjustified())
  {
    hide EntityLog, EventLog, LinksLog, ClaimLog, EdgeLog, Count, Only, Keep, OfKind, Unjustified, LinkTargets;
    var payload := PayloadIds(w.entities);
    var a, b := EntityLog(w.entities), EventLog(w.events, payload, scope);
    var c := LinksLog(KeptEvents(scope, w.events), LinkTargets(scope, w.events));
    var d := ClaimLog(w.claims, payload, scope);
    var e := EdgeLog(w.relationships, payload, ClaimIds(ClaimsOf(w, scope)), scope);
    assert DropsOf(w, scope) == a + b + c + d + e;
    EntityLogKinds(w.entities);
    EventLogCounts(w.events, payload, scope);
    LinksLogKinds(KeptEvents(scope, w.events), LinkTargets(scope, w.events));
    ClaimLogCounts(w.claims, payload, scope);
    EdgeLogCounts(w.relationships, payload, ClaimIds(ClaimsOf(w, scope)), scope);
    var ek, vk, lk := {EntityDrop, NameKindDrop}, {EventDrop, CitationDrop, ParticipantDrop, LocationDrop}, {EventLinkDrop};
    var ck, rk := {ClaimDrop, ClaimFieldDrop, CitationDrop, VersionDrop}, {RelationshipDrop};
    NoneOfKind(a, ek, EventDrop); NoneOfKind(c, lk, EventDrop); NoneOfKind(d, ck, EventDrop); NoneOfKind(e, rk, EventDrop);
    NoneOfKind(a, ek, ClaimDrop); NoneOfKind(b, vk, ClaimDrop); NoneOfKind(c, lk, ClaimDrop); NoneOfKind(e, rk, ClaimDrop);
    NoneOfKind(a, ek, RelationshipDrop); NoneOfKind(b, vk, RelationshipDrop);
    NoneOfKind(c, lk, RelationshipDrop); NoneOfKind(d, ck, RelationshipDrop);
    CountFive(a, b, c, d, e, OfKind(EventDrop));
    CountFive(a, b, c, d, e, OfKind(ClaimDrop));
    CountFive(a, b, c, d, e, OfKind(RelationshipDrop));
    CountFive(a, b, c, d, e, Unjustified());
  }

  /**
   * One unit's books balance: the claims, events and relationships kept, plus the drops the
   * run counts, are the wire's plus one for each edge kept without its justification.
   */
  lemma UnitBalances(w: WireExtraction, scope: Scope)
    ensures var v := Validate(w, scope);
            |v.events| + |v.claims| + |v.relationships| + Count(v.drops, Counted()) ==
            |w.events| + |w.claims| + |w.relationships| + Count(v.drops, Unjustified())
  {
    RecordsConserved(w, scope);
    CountByKind(DropsOf(w, scope));
    Lengths(w, scope);
  }

  lemma Lengths(w: WireExtraction, scope: Scope)
    ensures |EventsIn(w, scope)| == |KeptEvents(scope, w.events)|
    ensures |ClaimsIn(w, scope)| == |ClaimsOf(w, scope)|
    ensures |EdgesIn(w, scope)| == |KeptEdges(PayloadIds(w.entities), scope, w.relationships)|
  {
    EventRecordsAt(KeptEvents(scope, w.events), PayloadIds(w.entities), scope, LinkTargets(scope, w.events));
    ClaimRecordsAt(ClaimsOf(w, scope), scope.unit);
    RelationshipRecordsAt(KeptEdges(PayloadIds(w.entities), scope, w.relationships), ClaimIds(ClaimsOf(w, scope)), scope);
  }
}

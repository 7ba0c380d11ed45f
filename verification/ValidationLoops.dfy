/** The validation loops, each proved to compute what Validation states. */
module ValidationLoops {
  import opened Basics
  import opened Units
  import opened Wire
  import opened Validation
  import opened ValidationTheorems
  import opened ValidationExact
  import opened DropsExact
  import SortedKeys

  /** A key is taken exactly when a kept item carries it. */
  lemma TakenIsKept<T, K>(s: seq<T>, key: T -> K, ok: T -> bool, k: K)
    ensures Taken(s, key, ok, k) <==> exists x :: x in Keep(s, key, ok) && key(x) == k
  {
    var kept := Keep(s, key, ok);
    KeepKeys(s, key, ok);
    if Taken(s, key, ok, k) {
      var i :| 0 <= i < |s| && ok(s[i]) && key(s[i]) == k;
      var n :| 0 <= n < |kept| && key(kept[n]) == key(s[i]);
      assert kept[n] in kept;
    }
  }

  /** One more item: it is kept exactly when it passes and its key is not taken. */
  lemma KeepStep<T, K>(s: seq<T>, i: nat, key: T -> K, ok: T -> bool)
    requires i < |s|
    ensures Keep(s[..i + 1], key, ok) ==
            Keep(s[..i], key, ok) + if ok(s[i]) && !Taken(s[..i], key, ok, key(s[i])) then [s[i]] else []
  {
    FrontOfPrefix(s, i);
    var p, q := s[..i + 1], s[..i];
    assert forall j :: 0 <= j < i ==> p[j] == q[j];
    if ok(s[i]) && !FirstOk(p, key, ok, i) {
      var j :| 0 <= j < i && ok(p[j]) && key(p[j]) == key(p[i]);
      assert ok(q[j]) && key(q[j]) == key(s[i]);
    }
    if Taken(q, key, ok, key(s[i])) {
      var j :| 0 <= j < |q| && ok(q[j]) && key(q[j]) == key(s[i]);
      assert ok(p[j]) && key(p[j]) == key(p[i]);
    }
  }

  lemma TakenStep<T, K>(s: seq<T>, i: nat, key: T -> K, ok: T -> bool)
    requires i < |s|
    ensures forall k :: Taken(s[..i + 1], key, ok, k) <==> Taken(s[..i], key, ok, k) || (ok(s[i]) && key(s[i]) == k)
  {
    var p, q := s[..i + 1], s[..i];
    assert forall j :: 0 <= j < i ==> p[j] == q[j];
    forall k
      ensures Taken(p, key, ok, k) <==> Taken(q, key, ok, k) || (ok(s[i]) && key(s[i]) == k)
    {
      if Taken(q, key, ok, k) {
        var j :| 0 <= j < |q| && ok(q[j]) && key(q[j]) == k;
        assert ok(p[j]) && key(p[j]) == k;
      }
      if ok(s[i]) && key(s[i]) == k {
        assert ok(p[i]) && key(p[i]) == k;
      }
    }
  }

  lemma PayloadIsTaken(es: seq<WireEntity>)
    ensures forall k :: Taken(es, EntityId(), EntityOk(), k) <==> k in PayloadIds(es)
  {
    forall k
      ensures Taken(es, EntityId(), EntityOk(), k) <==> k in PayloadIds(es)
    {
      TakenIsKept(es, EntityId(), EntityOk(), k);
      assert forall e :: e in KeptEntities(es) ==> EntityId()(e) == e.id;
    }
  }

  /** Some slug-named record of es has the id. */
  ghost predicate EntityTaken(es: seq<WireEntity>, k: string) {
    Taken(es, EntityId(), EntityOk(), k)
  }

  lemma EntitiesTaken(es: seq<WireEntity>)
    ensures forall k :: EntityTaken(es, k) <==> k in PayloadIds(es)
  {
    PayloadIsTaken(es);
  }

  lemma NoEntitiesYet()
    ensures EntityRecords(KeptEntities([])) == [] && EntityLog([]) == [] && forall k :: !EntityTaken([], k)
  {
  }

  lemma EntityLogStep(es: seq<WireEntity>, i: nat)
    requires i < |es|
    ensures EntityLog(es[..i + 1]) == EntityLog(es[..i]) + EntityEntry(es[i], EntityTaken(es[..i], es[i].id))
  {
    FrontOfPrefix(es, i);
    hide EntityEntry, Taken;
  }

  lemma EntityRecordsAppend(kept: seq<WireEntity>, e: WireEntity)
    ensures EntityRecords(kept + [e]) == EntityRecords(kept) + [EntityRecord(e.id, e.kind, e.canonicalName, NameRecords(KeptNames(e)), e.attributes)]
  {
    assert Front(kept + [e]) == kept;
    hide NameRecords, KeptNames;
  }

  /** One more record: it is kept if it is slug-named and its id is new. */
  lemma EntityStep(es: seq<WireEntity>, i: nat)
    requires i < |es|
    ensures var e, was, now := es[i], es[..i], es[..i + 1];
            && EntityRecords(KeptEntities(now)) == EntityRecords(KeptEntities(was)) +
                 (if IsSlug(e.id) && !EntityTaken(was, e.id)
                  then [EntityRecord(e.id, e.kind, e.canonicalName, NameRecords(KeptNames(e)), e.attributes)] else [])
            && forall k :: EntityTaken(now, k) <==> EntityTaken(was, k) || (IsSlug(e.id) && e.id == k)
  {
    KeepStep(es, i, EntityId(), EntityOk());
    TakenStep(es, i, EntityId(), EntityOk());
    assert EntityOk()(es[i]) == IsSlug(es[i].id) && EntityId()(es[i]) == es[i].id;
    hide IsSlug, Taken, Keep, EntityRecords, EntityOk, EntityId;
    EntityRecordsAppend(KeptEntities(es[..i]), es[i]);
    assert KeptEntities(es[..i]) + [] == KeptEntities(es[..i]);
  }

  /** What the record leaves in the log. */
  lemma EntityEntryIs(e: WireEntity, dup: bool)
    ensures EntityEntry(e, dup) ==
            if !IsSlug(e.id) then [Drop(EntityDrop, e.id, InvalidId)]
            else if dup then [Drop(EntityDrop, e.id, DuplicateEntity)]
            else NameLog(e.id, KeptNames(e))
  {
  }

  lemma ClaimIdsAreTaken(payload: set<string>, scope: Scope, cs: seq<WireClaim>)
    ensures forall k :: Taken(cs, ClaimId(), ClaimOk(payload, scope), k) <==> k in ClaimIds(KeptClaims(payload, scope, cs))
  {
    forall k
      ensures Taken(cs, ClaimId(), ClaimOk(payload, scope), k) <==> k in ClaimIds(KeptClaims(payload, scope, cs))
    {
      TakenIsKept(cs, ClaimId(), ClaimOk(payload, scope), k);
      assert forall c :: c in KeptClaims(payload, scope, cs) ==> ClaimId()(c) == c.id;
    }
  }

  ghost predicate ClaimTaken(cs: seq<WireClaim>, payload: set<string>, scope: Scope, id: string) {
    Taken(cs, ClaimId(), ClaimOk(payload, scope), id)
  }

  /** How the statements about the claims so far grow by one claim. */
  lemma ClaimStep(cs: seq<WireClaim>, i: nat, payload: set<string>, scope: Scope)
    requires i < |cs|
    ensures var a, b, c, u := cs[..i], cs[..i + 1], cs[i], scope.unit;
            var dup := ClaimTaken(a, payload, scope, c.id);
            var now := ClaimPasses(payload, scope, c) && !dup;
            && ClaimLog(b, payload, scope) == ClaimLog(a, payload, scope) + ClaimEntry(c, dup, payload, scope)
            && ClaimRecords(KeptClaims(payload, scope, b), u) ==
               ClaimRecords(KeptClaims(payload, scope, a), u) + (if now then [ClaimOf(c, u)] else [])
            && forall k :: ClaimTaken(b, payload, scope, k) <==> ClaimTaken(a, payload, scope, k) || (now && c.id == k)
  {
    hide ClaimEntry, ClaimPasses, ClaimOf, Taken, Keep;
    FrontOfPrefix(cs, i);
    KeepStep(cs, i, ClaimId(), ClaimOk(payload, scope));
    TakenStep(cs, i, ClaimId(), ClaimOk(payload, scope));
    var kept := KeptClaims(payload, scope, cs[..i]);
    assert kept + [] == kept && Front(kept + [cs[i]]) == kept && Last(kept + [cs[i]]) == cs[i];
  }

  lemma NoClaimsYet(payload: set<string>, scope: Scope)
    ensures ClaimLog([], payload, scope) == [] && ClaimRecords(KeptClaims(payload, scope, []), scope.unit) == []
    ensures forall k :: !ClaimTaken([], payload, scope, k)
  {
  }

  lemma NoContradictions()
    ensures Contradictions([]) == []
  {
  }

  lemma ClaimKeysAre(payload: set<string>, scope: Scope, cs: seq<WireClaim>, ids: set<string>)
    requires forall k :: k in ids <==> ClaimTaken(cs, payload, scope, k)
    ensures ids == ClaimIds(KeptClaims(payload, scope, cs))
  {
    ClaimIdsAreTaken(payload, scope, cs);
  }

  ghost predicate EventTaken(es: seq<WireEvent>, scope: Scope, id: string) {
    Taken(es, EventId(), EventOk(scope), id)
  }

  /** How the statements about the events so far grow by one event. */
  lemma EventStep(es: seq<WireEvent>, i: nat, payload: set<string>, scope: Scope)
    requires i < |es|
    ensures var a, b, e := es[..i], es[..i + 1], es[i];
            var dup := EventTaken(a, scope, e.id);
            var now := EventPasses(scope, e) && !dup;
            && EventLog(b, payload, scope) == EventLog(a, payload, scope) + EventEntry(e, dup, payload, scope)
            && EventRecords(KeptEvents(scope, b), payload, scope) ==
               EventRecords(KeptEvents(scope, a), payload, scope) + (if now then [EventOf(e, payload, scope)] else [])
            && RawLinks(KeptEvents(scope, b)) ==
               (if now then RawLinks(KeptEvents(scope, a))[e.id := (e.causes, e.consequences)] else RawLinks(KeptEvents(scope, a)))
            && forall k :: EventTaken(b, scope, k) <==> EventTaken(a, scope, k) || (now && e.id == k)
  {
    hide EventEntry, EventPasses, EventOf, Taken, Keep;
    FrontOfPrefix(es, i);
    KeepStep(es, i, EventId(), EventOk(scope));
    TakenStep(es, i, EventId(), EventOk(scope));
    var kept := KeptEvents(scope, es[..i]);
    assert kept + [] == kept && Front(kept + [es[i]]) == kept && Last(kept + [es[i]]) == es[i];
  }

  lemma NoEventsYet(payload: set<string>, scope: Scope)
    ensures EventLog([], payload, scope) == [] && EventRecords(KeptEvents(scope, []), payload, scope) == []
    ensures RawLinks(KeptEvents(scope, [])) == map[] && forall k :: !EventTaken([], scope, k)
  {
  }

  /** The raw links of the kept events, by event id. */
  ghost function RawLinks(kept: seq<WireEvent>): map<string, (seq<string>, seq<string>)> {
    if kept == [] then map[] else RawLinks(Front(kept))[Last(kept).id := (Last(kept).causes, Last(kept).consequences)]
  }

  lemma {:induction false} RawLinksAt(kept: seq<WireEvent>)
    requires forall m, n :: 0 <= m < n < |kept| ==> kept[m].id != kept[n].id
    ensures forall k :: k in RawLinks(kept) <==> k in set e | e in kept :: e.id
    ensures forall n :: 0 <= n < |kept| ==> kept[n].id in RawLinks(kept)
    ensures forall n :: 0 <= n < |kept| ==> RawLinks(kept)[kept[n].id] == (kept[n].causes, kept[n].consequences)
  {
    if kept != [] {
      RawLinksAt(Front(kept));
      assert kept == Front(kept) + [Last(kept)];
    }
  }

  lemma KeptEventsDistinct(scope: Scope, es: seq<WireEvent>)
    ensures forall m, n :: 0 <= m < n < |KeptEvents(scope, es)| ==> KeptEvents(scope, es)[m].id != KeptEvents(scope, es)[n].id
  {
    KeepKeys(es, EventId(), EventOk(scope));
    var kept := KeptEvents(scope, es);
    forall m, n | 0 <= m < n < |kept|
      ensures kept[m].id != kept[n].id
    {
      assert EventId()(kept[m]) != EventId()(kept[n]);
    }
  }

  lemma Assoc<T>(a: seq<T>, b: seq<T>, c: seq<T>)
    ensures (a + b) + c == a + (b + c)
  {
  }

  lemma {:induction false} RecordsShape(es: seq<WireEvent>, payload: set<string>, scope: Scope)
    ensures |EventRecords(es, payload, scope)| == |es|
    ensures forall i :: 0 <= i < |es| ==> EventRecords(es, payload, scope)[i] == EventOf(es[i], payload, scope)
  {
    hide EventOf;
    if es != [] {
      RecordsShape(Front(es), payload, scope);
      assert forall i :: 0 <= i < |es| - 1 ==> Front(es)[i] == es[i];
    }
  }

  // ------------------------------------------------- the joined edge key

  const NUL := 0 as char

  /** The key under which an edge is remembered. */
  function Joined(a: string, b: string, c: string): string {
    a + [NUL] + b + [NUL] + c
  }

  function JoinedOf(r: WireRelationship, u: Unit): string {
    Joined(r.fromEntityId, r.toEntityId, Canonical(u, r.relType))
  }

  /** PostgreSQL text columns hold no NUL, so neither does any id read from the graph. */
  ghost predicate NulFreeIds(ids: set<string>) {
    forall id :: id in ids ==> NUL !in id
  }

  ghost predicate NulFree(scope: Scope) {
    NulFreeIds(scope.dbEntities)
  }

  lemma SplitAtNul(a: string, x: string, b: string, y: string)
    requires NUL !in a && NUL !in b && a + [NUL] + x == b + [NUL] + y
    ensures a == b && x == y
  {
    var s := a + [NUL] + x;
    assert s[|a|] == NUL && s[|b|] == NUL;
    assert a == s[..|a|] && b == s[..|b|];
    assert x == s[|a| + 1..] && y == s[|b| + 1..];
  }

  /** Joining with NUL is injective over ids without NUL, whatever the relation type holds. */
  lemma JoinedInjective(a: string, b: string, c: string, x: string, y: string, z: string)
    requires NUL !in a && NUL !in b && NUL !in x && NUL !in y
    ensures Joined(a, b, c) == Joined(x, y, z) <==> a == x && b == y && c == z
  {
    if Joined(a, b, c) == Joined(x, y, z) {
      assert Joined(a, b, c) == a + [NUL] + (b + [NUL] + c);
      assert Joined(x, y, z) == x + [NUL] + (y + [NUL] + z);
      SplitAtNul(a, b + [NUL] + c, x, y + [NUL] + z);
      SplitAtNul(b, c, y, z);
    }
  }

  /** An endpoint that resolves holds no NUL: payload ids are slugs. */
  lemma ResolvedIsNulFree(id: string, es: seq<WireEntity>, scope: Scope)
    requires NulFree(scope) && Resolves(id, PayloadIds(es), scope)
    ensures NUL !in id
  {
    if id in PayloadIds(es) {
      KeepKeys(es, EntityId(), EntityOk());
      var e :| e in KeptEntities(es) && e.id == id;
      assert EntityOk()(e);
      assert forall i :: 0 <= i < |id| ==> SlugTail(id[i]);
    }
  }

  /** The remembered keys are those of the passing edges so far. */
  ghost predicate SeenEdges(seen: set<string>, rs: seq<WireRelationship>, payload: set<string>, scope: Scope) {
    forall k :: k in seen <==>
      exists i :: 0 <= i < |rs| && EdgePasses(payload, scope, rs[i])
                  && k == JoinedOf(rs[i], scope.unit)
  }

  lemma SeenNone(payload: set<string>, scope: Scope)
    ensures SeenEdges({}, [], payload, scope)
  {
  }

  lemma RejectedEdgeIgnoresDup(r: WireRelationship, payload: set<string>, claims: set<string>, scope: Scope)
    requires !EdgePasses(payload, scope, r)
    ensures EdgeEntry(r, true, payload, claims, scope) == EdgeEntry(r, false, payload, claims, scope)
  {
  }

  lemma EdgeLogStep(rs: seq<WireRelationship>, i: nat, dup: bool, payload: set<string>, claims: set<string>, scope: Scope)
    requires i < |rs|
    requires EdgePasses(payload, scope, rs[i]) ==>
               (dup <==> Taken(rs[..i], EdgeOf(scope.unit), EdgeOk(payload, scope), EdgeOf(scope.unit)(rs[i])))
    ensures EdgeLog(rs[..i + 1], payload, claims, scope) ==
            EdgeLog(rs[..i], payload, claims, scope) + EdgeEntry(rs[i], dup, payload, claims, scope)
  {
    FrontOfPrefix(rs, i);
    if !EdgePasses(payload, scope, rs[i]) { RejectedEdgeIgnoresDup(rs[i], payload, claims, scope); }
  }

  lemma SeenStep(seen: set<string>, rs: seq<WireRelationship>, i: nat, payload: set<string>, scope: Scope, es: seq<WireEntity>)
    requires i < |rs| && NulFree(scope) && payload == PayloadIds(es)
    requires SeenEdges(seen, rs[..i], payload, scope)
    ensures var k := JoinedOf(rs[i], scope.unit);
            && (EdgePasses(payload, scope, rs[i]) ==>
                  (k in seen <==> Taken(rs[..i], EdgeOf(scope.unit), EdgeOk(payload, scope), EdgeOf(scope.unit)(rs[i]))))
            && SeenEdges(if EdgePasses(payload, scope, rs[i]) then seen + {k} else seen, rs[..i + 1], payload, scope)
  {
    var q, p, r := rs[..i], rs[..i + 1], rs[i];
    var u := scope.unit;
    var k := JoinedOf(r, u);
    if EdgePasses(payload, scope, r) {
      ResolvedIsNulFree(r.fromEntityId, es, scope);
      ResolvedIsNulFree(r.toEntityId, es, scope);
      forall j | 0 <= j < i && EdgePasses(payload, scope, q[j])
        ensures k == JoinedOf(q[j], u) <==> EdgeOf(u)(q[j]) == EdgeOf(u)(r)
      {
        ResolvedIsNulFree(q[j].fromEntityId, es, scope);
        ResolvedIsNulFree(q[j].toEntityId, es, scope);
        JoinedInjective(q[j].fromEntityId, q[j].toEntityId, Canonical(u, q[j].relType),
                        r.fromEntityId, r.toEntityId, Canonical(u, r.relType));
      }
      assert forall j :: 0 <= j < i ==> (EdgeOk(payload, scope)(q[j]) <==> EdgePasses(payload, scope, q[j]));
    }
    SeenGrows(seen, rs, i, payload, scope);
  }

  lemma SeenGrows(seen: set<string>, rs: seq<WireRelationship>, i: nat, payload: set<string>, scope: Scope)
    requires i < |rs| && SeenEdges(seen, rs[..i], payload, scope)
    ensures var k := JoinedOf(rs[i], scope.unit);
            SeenEdges(if EdgePasses(payload, scope, rs[i]) then seen + {k} else seen, rs[..i + 1], payload, scope)
  {
    var q, p := rs[..i], rs[..i + 1];
    assert forall j :: 0 <= j < i ==> p[j] == q[j];
    var k := JoinedOf(rs[i], scope.unit);
    var grown := if EdgePasses(payload, scope, rs[i]) then seen + {k} else seen;
    forall x | x in grown
      ensures exists j :: 0 <= j < |p| && EdgePasses(payload, scope, p[j])
                          && x == JoinedOf(p[j], scope.unit)
    {
      if x in seen {
        var j :| 0 <= j < |q| && EdgePasses(payload, scope, q[j])
                 && x == JoinedOf(q[j], scope.unit);
        assert p[j] == q[j];
      } else {
        assert p[i] == rs[i];
      }
    }
    forall j | 0 <= j < |p| && EdgePasses(payload, scope, p[j])
      ensures JoinedOf(p[j], scope.unit) in grown
    {
      if j < i { assert q[j] == p[j]; }
    }
  }

  method CiteableSources(u: Unit) returns (allowed: Surface)
    ensures allowed == Citeable(u)
  {
    allowed := AddSource(map[], u.reference.sourceId, u.reference.locator);
    ghost var start := allowed;
    for i := 0 to |u.candidates|
      invariant allowed == AddCandidates(start, u.candidates[..i])
    {
      FrontOfPrefix(u.candidates, i);
      allowed := AddSource(allowed, u.candidates[i].sourceId, u.candidates[i].locator);
    }
    assert u.candidates[..|u.candidates|] == u.candidates;
  }

  method CitationReason(cs: seq<Citation>, policy: CitationPolicy, ref: string) returns (reason: Option<Reason>)
    ensures reason == PolicyReason(cs, policy, ref)
  {
    var hasReference, hasPrimary := false, false;
    for i := 0 to |cs|
      invariant hasReference == exists j :: 0 <= j < i && cs[j].sourceId == ref
      invariant hasPrimary == exists j :: 0 <= j < i && cs[j].sourceId != ref
    {
      if cs[i].sourceId == ref {
        hasReference := true;
      } else {
        hasPrimary := true;
      }
    }
    assert hasReference == CitesReference(cs, ref);
    assert hasPrimary == CitesPrimary(cs, ref);
    if |cs| == 0 { return Some(Uncited); }
    if policy.requireReference && !hasReference { return Some(MissingReference); }
    if policy.requirePrimary && !hasPrimary { return Some(MissingPrimary); }
    return None;
  }

  // -------------------------------------------------------- one record

  method FilterCitations(cs: seq<Citation>, allowed: Surface, owner: string)
    returns (kept: seq<Citation>, log: seq<Drop>)
    ensures kept == Cited(cs, allowed)
    ensures log == CitationLog(cs, allowed, owner)
  {
    kept, log := [], [];
    for i := 0 to |cs|
      invariant kept == Cited(cs[..i], allowed)
      invariant log == CitationLog(cs[..i], allowed, owner)
    {
      FrontOfPrefix(cs, i);
      var w := cs[i];
      if w.sourceId !in allowed {
        log := log + [Drop(CitationDrop, owner, UnknownSource(w.sourceId))];
      } else {
        var missing := allowed[w.sourceId] - w.locator.Keys;
        if missing != {} {
          var k :| k in missing;
          assert k in allowed[w.sourceId] && k !in w.locator.Keys;
          log := log + [Drop(CitationDrop, owner, BadLocator(w.sourceId, missing))];
        } else {
          assert forall k :: k in allowed[w.sourceId] ==> k in w.locator.Keys || k in missing;
          kept := kept + [w];
        }
      }
    }
    assert cs[..|cs|] == cs;
  }

  method MapNames(entity: WireEntity) returns (names: seq<EntityName>, log: seq<Drop>)
    ensures names == NameRecords(KeptNames(entity))
    ensures log == NameLog(entity.id, KeptNames(entity))
  {
    names, log := [], [];
    var seen := {};
    ghost var key, ok := NameText(), NameOk(entity.canonicalName);
    ghost var kept: seq<WireName> := [];
    for i := 0 to |entity.names|
      invariant forall k :: k in seen <==> Taken(entity.names[..i], key, ok, k)
      invariant kept == Keep(entity.names[..i], key, ok)
      invariant names == NameRecords(kept)
      invariant log == NameLog(entity.id, kept)
    {
      KeepStep(entity.names, i, key, ok);
      TakenStep(entity.names, i, key, ok);
      var name := entity.names[i];
      if name.name == "" || name.name in seen || name.name == entity.canonicalName {
        continue;
      }
      seen := seen + {name.name};
      var kind := name.nameKind;
      if !NameKindOk(kind) {
        log := log + [Drop(NameKindDrop, entity.id + "/" + name.name, NameKindToOther(kind))];
        kind := "other";
      }
      names := names + [EntityName(name.name, kind, name.language)];
      assert Front(kept + [name]) == kept;
      kept := kept + [name];
    }
    assert entity.names[..|entity.names|] == entity.names;
  }

  method MapParticipants(event: WireEvent, payload: set<string>, scope: Scope)
    returns (participants: seq<Participant>, log: seq<Drop>)
    ensures participants == ResolvedParticipants(SortedKeys.Sorted(event.participants.Keys), event.participants, payload, scope)
    ensures log == ParticipantLog(SortedKeys.Sorted(event.participants.Keys), event.id, payload, scope)
  {
    var ids := SortedKeys.KeysInOrder(event.participants);
    assert forall id :: id in ids ==> id in event.participants;
    participants, log := [], [];
    for i := 0 to |ids|
      invariant participants == ResolvedParticipants(ids[..i], event.participants, payload, scope)
      invariant log == ParticipantLog(ids[..i], event.id, payload, scope)
    {
      FrontOfPrefix(ids, i);
      assert ids[i] in ids;
      var role := event.participants[ids[i]];
      if Resolves(ids[i], payload, scope) {
        participants := participants + [Participant(ids[i], role)];
      } else {
        log := log + [Drop(ParticipantDrop, event.id + "/" + ids[i], DanglingEntity)];
      }
    }
    assert ids[..|ids|] == ids;
  }

  /** One event of the first pass: its record if it is kept, and what it logs. */
  method ExamineEvent(event: WireEvent, dup: bool, allowed: Surface, payload: set<string>, scope: Scope)
    returns (record: Option<EventRecord>, log: seq<Drop>)
    requires allowed == Citeable(scope.unit)
    ensures record == if EventPasses(scope, event) && !dup then Some(EventOf(event, payload, scope)) else None
    ensures log == EventEntry(event, dup, payload, scope)
  {
    if !IsSlug(event.id) {
      return None, [Drop(EventDrop, event.id, InvalidId)];
    }
    if dup || event.id in scope.dbEvents {
      return None, [Drop(EventDrop, event.id, DuplicateEvent)];
    }
    var citations, citationLog := FilterCitations(event.sources, allowed, "event:" + event.id);
    var reason := CitationReason(citations, scope.unit.policy, scope.unit.reference.sourceId);
    if reason.Some? {
      return None, citationLog + [Drop(EventDrop, event.id, reason.value)];
    }
    var participants, participantLog := MapParticipants(event, payload, scope);
    var location, locationLog := event.locationEntityId, [];
    if location != "" && !Resolves(location, payload, scope) {
      locationLog := [Drop(LocationDrop, event.id, DanglingLocation(location))];
      location := "";
    }
    record := Some(EventRecord(event.id, event.kind, event.summary, event.description, event.dating,
                               location, participants, [], [], citations));
    log := citationLog + (participantLog + locationLog);
  }

  method ResolveLinks(ids: seq<string>, eventId: string, targets: set<string>, reason: Reason)
    returns (kept: seq<string>, log: seq<Drop>)
    ensures kept == Filter(ids, InTargets(targets))
    ensures log == LinkLog(ids, eventId, targets, reason)
  {
    kept, log := [], [];
    for i := 0 to |ids|
      invariant kept == Filter(ids[..i], InTargets(targets))
      invariant log == LinkLog(ids[..i], eventId, targets, reason)
    {
      FrontOfPrefix(ids, i);
      if ids[i] in targets {
        kept := kept + [ids[i]];
      } else {
        log := log + [Drop(EventLinkDrop, eventId + "->" + ids[i], reason)];
      }
    }
    assert ids[..|ids|] == ids;
  }

  method MapVersions(claim: WireClaim, allowed: Surface, u: Unit)
    returns (versions: seq<ClaimVersionRecord>, log: seq<Drop>)
    requires allowed == Citeable(u)
    ensures versions == Versions(claim.versions, u)
    ensures log == VersionLog(claim.versions, claim.id, u)
  {
    versions, log := [], [];
    for i := 0 to |claim.versions|
      invariant versions == Versions(claim.versions[..i], u)
      invariant log == VersionLog(claim.versions[..i], claim.id, u)
    {
      FrontOfPrefix(claim.versions, i);
      var version := claim.versions[i];
      var citations, citationLog :=
        FilterCitations(version.sources, allowed, "claim:" + claim.id + "#" + version.tradition);
      log := log + citationLog;
      var reason := CitationReason(citations, u.policy, u.reference.sourceId);
      if reason.Some? {
        log := log + [Drop(VersionDrop, claim.id + "#" + version.tradition, reason.value)];
      } else {
        versions := versions + [ClaimVersionRecord(version.tradition, version.statement, citations)];
      }
    }
    assert claim.versions[..|claim.versions|] == claim.versions;
  }

  /** One claim: its record if it is kept, and what it logs. */
  method ExamineClaim(claim: WireClaim, dup: bool, allowed: Surface, payload: set<string>, scope: Scope)
    returns (record: Option<ClaimRecord>, log: seq<Drop>)
    requires allowed == Citeable(scope.unit)
    ensures record == if ClaimPasses(payload, scope, claim) && !dup then Some(ClaimOf(claim, scope.unit)) else None
    ensures log == ClaimEntry(claim, dup, payload, scope)
  {
    if !IsSlug(claim.id) {
      return None, [Drop(ClaimDrop, claim.id, InvalidId)];
    }
    if dup || claim.id in scope.dbClaims {
      return None, [Drop(ClaimDrop, claim.id, DuplicateClaim)];
    }
    var objectValue, fieldLog := claim.objectValue, [];
    if claim.objectEntityId != "" && objectValue != "" {
      fieldLog := [Drop(ClaimFieldDrop, claim.id, BothObjectsKeptEntity)];
      objectValue := "";
    }
    var dangling := Dangling(claim, payload, scope);
    if dangling.Some? {
      return None, fieldLog + [Drop(ClaimDrop, claim.id, dangling.value)];
    }
    var citations, citationLog := FilterCitations(claim.sources, allowed, "claim:" + claim.id);
    var reason := CitationReason(citations, scope.unit.policy, scope.unit.reference.sourceId);
    var versions, versionLog := [], [];
    if reason.None? {
      versions, versionLog := MapVersions(claim, allowed, scope.unit);
      if Contested(claim.confidence) && |versions| == 0 {
        reason := Some(ContestedWithoutVersions);
      }
    }
    log := fieldLog + citationLog + versionLog;
    if reason.Some? {
      return None, log + [Drop(ClaimDrop, claim.id, reason.value)];
    }
    record := Some(ClaimRecord(claim.id, claim.statement, claim.confidence, claim.subjectEntityId,
                               claim.predicate_, claim.objectEntityId, objectValue, versions, citations));
  }

  /** One edge: its record if it is kept, and what it logs. */
  method ExamineRelationship(rel: WireRelationship, dup: bool, payload: set<string>, payloadClaims: set<string>, scope: Scope)
    returns (record: Option<RelationshipRecord>, log: seq<Drop>)
    ensures record == if EdgePasses(payload, scope, rel) && !dup then Some(RelationshipOf(rel, payloadClaims, scope)) else None
    ensures log == EdgeEntry(rel, dup, payload, payloadClaims, scope)
  {
    var relType := Canonical(scope.unit, rel.relType);
    if relType !in scope.unit.relTypes {
      return None, [Drop(RelationshipDrop, EdgeRef(rel), UnknownRelType(rel.relType))];
    }
    if !Resolves(rel.fromEntityId, payload, scope) || !Resolves(rel.toEntityId, payload, scope) {
      return None, [Drop(RelationshipDrop, EdgeRef(rel), DanglingEndpoint)];
    }
    if rel.fromEntityId == rel.toEntityId {
      return None, [Drop(RelationshipDrop, EdgeRef(rel), SelfRelationship)];
    }
    var claimId := rel.claimId;
    log := [];
    if claimId != "" && claimId !in payloadClaims && claimId !in scope.dbClaims {
      log := [Drop(RelationshipDrop, EdgeRef(rel), KeptWithoutJustification(claimId))];
      claimId := "";
    }
    if dup {
      return None, log + [Drop(RelationshipDrop, EdgeRef(rel), DuplicateRelationship)];
    }
    record := Some(RelationshipRecord(rel.fromEntityId, rel.toEntityId, relType, claimId));
  }

  // -------------------------------------------------------- the passes

  /** The result under construction: the passes append to its lists and to its drop log. */
  class Collector {
    var entities: seq<EntityRecord>
    var events: seq<EventRecord>
    var claims: seq<ClaimRecord>
    var relationships: seq<RelationshipRecord>
    var contradictions: seq<ContradictionEntry>
    var drops: seq<Drop>

    constructor ()
      ensures View() == Validated([], [], [], [], [], [])
    {
      entities, events, claims, relationships, contradictions, drops := [], [], [], [], [], [];
    }

    function View(): Validated
      reads this
    {
      Validated(entities, events, claims, relationships, contradictions, drops)
    }

    method MapEntities(wire: WireExtraction) returns (byId: map<string, EntityRecord>)
      requires entities == []
      modifies this`entities, this`drops
      ensures entities == EntityRecords(KeptEntities(wire.entities))
      ensures drops == old(drops) + EntityLog(wire.entities)
      ensures byId.Keys == PayloadIds(wire.entities)
    {
      hide *;
      byId := map[];
      ghost var es := wire.entities;
      assert es[..0] == [] && es[..|es|] == es;
      NoEntitiesYet();
      for i := 0 to |wire.entities|
        invariant forall k :: k in byId.Keys <==> EntityTaken(es[..i], k)
        invariant entities == EntityRecords(KeptEntities(es[..i]))
        invariant drops == old(drops) + EntityLog(es[..i])
      {
        EntityStep(es, i);
        EntityLogStep(es, i);
        EntityEntryIs(es[i], es[i].id in byId);
        Assoc(old(drops), EntityLog(es[..i]), EntityEntry(es[i], es[i].id in byId));
        var entity := wire.entities[i];
        if !IsSlug(entity.id) {
          drops := drops + [Drop(EntityDrop, entity.id, InvalidId)];
          continue;
        }
        if entity.id in byId {
          drops := drops + [Drop(EntityDrop, entity.id, DuplicateEntity)];
          continue;
        }
        var names, log := MapNames(entity);
        drops := drops + log;
        var record := EntityRecord(entity.id, entity.kind, entity.canonicalName, names, entity.attributes);
        byId := byId[entity.id := record];
        entities := entities + [record];
      }
      EntitiesTaken(es);
    }

    /** The first pass over the events: everything but the links. */
    method CollectEvents(wire: WireExtraction, allowed: Surface, payload: set<string>, scope: Scope)
      returns (rawLinks: map<string, (seq<string>, seq<string>)>)
      requires events == [] && allowed == Citeable(scope.unit)
      modifies this`events, this`drops
      ensures events == EventRecords(KeptEvents(scope, wire.events), payload, scope)
      ensures drops == old(drops) + EventLog(wire.events, payload, scope)
      ensures rawLinks == RawLinks(KeptEvents(scope, wire.events))
    {
      hide *;
      rawLinks := map[];
      ghost var es := wire.events;
      assert es[..0] == [] && es[..|es|] == es;
      NoEventsYet(payload, scope);
      for i := 0 to |wire.events|
        invariant forall k :: k in rawLinks.Keys <==> EventTaken(es[..i], scope, k)
        invariant rawLinks == RawLinks(KeptEvents(scope, es[..i]))
        invariant events == EventRecords(KeptEvents(scope, es[..i]), payload, scope)
        invariant drops == old(drops) + EventLog(es[..i], payload, scope)
      {
        EventStep(es, i, payload, scope);
        var event := wire.events[i];
        var record, log := ExamineEvent(event, event.id in rawLinks, allowed, payload, scope);
        Assoc(old(drops), EventLog(es[..i], payload, scope), log);
        drops := drops + log;
        if record.Some? {
          rawLinks := rawLinks[event.id := (event.causes, event.consequences)];
          events := events + [record.value];
        }
      }
    }

    /** The second pass: patch each collected event's links in place. */
    method PatchLinks(rawLinks: map<string, (seq<string>, seq<string>)>, targets: set<string>, ghost es: seq<WireEvent>)
      requires |events| == |es|
      requires forall n :: 0 <= n < |es| ==> events[n].id == es[n].id && es[n].id in rawLinks
      requires forall n :: 0 <= n < |es| ==> rawLinks[es[n].id] == (es[n].causes, es[n].consequences)
      modifies this`events, this`drops
      ensures |events| == |es|
      ensures forall n :: 0 <= n < |es| ==> events[n] == Linked(old(events)[n], es[n], targets)
      ensures drops == old(drops) + LinksLog(es, targets)
    {
      for i := 0 to |events|
        invariant |events| == |es|
        invariant forall n :: 0 <= n < i ==> events[n] == Linked(old(events)[n], es[n], targets)
        invariant forall n :: i <= n < |es| ==> events[n] == old(events)[n]
        invariant drops == old(drops) + LinksLog(es[..i], targets)
      {
        FrontOfPrefix(es, i);
        var record := events[i];
        var causes, causeLog := ResolveLinks(rawLinks[record.id].0, record.id, targets, DanglingCause);
        var consequences, consequenceLog := ResolveLinks(rawLinks[record.id].1, record.id, targets, DanglingConsequence);
        events := events[i := record.(causes := causes, consequences := consequences)];
        Assoc(old(drops), LinksLog(es[..i], targets), causeLog);
        Assoc(old(drops), LinksLog(es[..i], targets) + causeLog, consequenceLog);
        drops := drops + causeLog + consequenceLog;
      }
      assert es[..|es|] == es;
    }

    method MapEvents(wire: WireExtraction, allowed: Surface, payload: set<string>, scope: Scope)
      requires events == [] && allowed == Citeable(scope.unit)
      modifies this`events, this`drops
      ensures events == LinkedEvents(KeptEvents(scope, wire.events), payload, scope, LinkTargets(scope, wire.events))
      ensures drops == old(drops) + EventLog(wire.events, payload, scope)
                                  + LinksLog(KeptEvents(scope, wire.events), LinkTargets(scope, wire.events))
    {
      var rawLinks := CollectEvents(wire, allowed, payload, scope);
      ghost var es := KeptEvents(scope, wire.events);
      var targets := rawLinks.Keys + scope.dbEvents;
      RecordsShape(es, payload, scope);
      KeptEventsDistinct(scope, wire.events);
      RawLinksAt(es);
      assert targets == LinkTargets(scope, wire.events);
      PatchLinks(rawLinks, targets, es);
      EventRecordsAt(es, payload, scope, targets);
    }

    method AddClaim(record: ClaimRecord)
      requires contradictions == Contradictions(claims)
      modifies this`claims, this`contradictions
      ensures claims == old(claims) + [record]
      ensures contradictions == Contradictions(claims)
    {
      assert Front(claims + [record]) == claims;
      claims := claims + [record];
      if Contested(record.confidence) {
        contradictions := contradictions + [EntryOf(record)];
      }
    }

    method MapClaims(wire: WireExtraction, allowed: Surface, payload: set<string>, scope: Scope)
      returns (byId: map<string, ClaimRecord>)
      requires claims == [] && contradictions == [] && allowed == Citeable(scope.unit)
      modifies this`claims, this`contradictions, this`drops
      ensures claims == ClaimRecords(KeptClaims(payload, scope, wire.claims), scope.unit)
      ensures contradictions == Contradictions(claims)
      ensures drops == old(drops) + ClaimLog(wire.claims, payload, scope)
      ensures byId.Keys == ClaimIds(KeptClaims(payload, scope, wire.claims))
    {
      hide *;
      byId := map[];
      ghost var cs := wire.claims;
      assert cs[..0] == [] && cs[..|cs|] == cs;
      NoClaimsYet(payload, scope);
      NoContradictions();
      for i := 0 to |wire.claims|
        invariant forall k :: k in byId.Keys <==> ClaimTaken(cs[..i], payload, scope, k)
        invariant claims == ClaimRecords(KeptClaims(payload, scope, cs[..i]), scope.unit)
        invariant contradictions == Contradictions(claims)
        invariant drops == old(drops) + ClaimLog(cs[..i], payload, scope)
      {
        ClaimStep(cs, i, payload, scope);
        var claim := wire.claims[i];
        var record, log := ExamineClaim(claim, claim.id in byId, allowed, payload, scope);
        Assoc(old(drops), ClaimLog(cs[..i], payload, scope), log);
        drops := drops + log;
        if record.Some? {
          byId := byId[claim.id := record.value];
          AddClaim(record.value);
        }
      }
      ClaimKeysAre(payload, scope, cs, byId.Keys);
    }

    method AddRelationship(rel: WireRelationship, seen: set<string>, payload: set<string>, payloadClaims: set<string>, scope: Scope)
      returns (seen': set<string>)
      modifies this`relationships, this`drops
      ensures var joined := JoinedOf(rel, scope.unit);
              && seen' == (if EdgePasses(payload, scope, rel) then seen + {joined} else seen)
              && drops == old(drops) + EdgeEntry(rel, joined in seen, payload, payloadClaims, scope)
              && relationships == old(relationships) +
                   if EdgePasses(payload, scope, rel) && joined !in seen then [RelationshipOf(rel, payloadClaims, scope)] else []
    {
      var joined := JoinedOf(rel, scope.unit);
      var record, log := ExamineRelationship(rel, joined in seen, payload, payloadClaims, scope);
      drops := drops + log;
      seen' := seen;
      if record.Some? {
        seen' := seen + {joined};
        relationships := relationships + [record.value];
      } else if joined in seen {
        assert seen + {joined} == seen;
      }
    }

    method MapRelationships(wire: WireExtraction, payload: set<string>, payloadClaims: set<string>, scope: Scope)
      requires relationships == [] && NulFree(scope)
      requires payload == PayloadIds(wire.entities)
      modifies this`relationships, this`drops
      ensures relationships == RelationshipRecords(KeptEdges(payload, scope, wire.relationships), payloadClaims, scope)
      ensures drops == old(drops) + EdgeLog(wire.relationships, payload, payloadClaims, scope)
    {
      var seen := {};
      ghost var rs := wire.relationships;
      SeenNone(payload, scope);
      assert rs[..0] == [];
      ghost var key, ok := EdgeOf(scope.unit), EdgeOk(payload, scope);
      ghost var kept: seq<WireRelationship> := [];
      assert Keep(rs[..0], key, ok) == [] && EdgeLog(rs[..0], payload, payloadClaims, scope) == [];
      hide EdgeLog, EdgeEntry, EdgePasses, RelationshipOf, SeenEdges, JoinedOf, Taken, Keep;
      for i := 0 to |wire.relationships|
        invariant SeenEdges(seen, rs[..i], payload, scope)
        invariant kept == Keep(rs[..i], key, ok)
        invariant relationships == RelationshipRecords(kept, payloadClaims, scope)
        invariant drops == old(drops) + EdgeLog(rs[..i], payload, payloadClaims, scope)
      {
        FrontOfPrefix(rs, i);
        KeepStep(rs, i, key, ok);
        var rel := wire.relationships[i];
        ghost var dup := JoinedOf(rel, scope.unit) in seen;
        SeenStep(seen, rs, i, payload, scope, wire.entities);
        EdgeLogStep(rs, i, dup, payload, payloadClaims, scope);
        Assoc(old(drops), EdgeLog(rs[..i], payload, payloadClaims, scope), EdgeEntry(rel, dup, payload, payloadClaims, scope));
        seen := AddRelationship(rel, seen, payload, payloadClaims, scope);
        if EdgePasses(payload, scope, rel) && !dup {
          assert Front(kept + [rel]) == kept;
          kept := kept + [rel];
        }
      }
      assert rs[..|rs|] == rs;
    }
  }

  /** Validate: the four maps in order over one collector. */
  method Run(wire: WireExtraction, scope: Scope) returns (validated: Validated)
    requires NulFree(scope)
    ensures validated == Validate(wire, scope)
    ensures KeptExactly(wire, scope, validated) && forall d :: d in validated.drops <==> Logged(wire, scope, validated, d)
  {
    ValidatesExactly(wire, scope);
    DropsExactly(wire, scope);
    hide KeptExactly, Logged, Validate;
    validated := Collect(wire, scope);
  }

  method Collect(wire: WireExtraction, scope: Scope) returns (validated: Validated)
    requires NulFree(scope)
    ensures validated == Validate(wire, scope)
  {
    hide EntityRecords, EntityLog, EventLog, LinkedEvents, LinksLog, ClaimRecords, ClaimLog, Contradictions,
      RelationshipRecords, EdgeLog, Citeable, KeptEntities, KeptEvents, KeptClaims, KeptEdges;
    var result := new Collector();
    var allowed := CiteableSources(scope.unit);
    var payloadEntities := result.MapEntities(wire);
    result.MapEvents(wire, allowed, payloadEntities.Keys, scope);
    var payloadClaims := result.MapClaims(wire, allowed, payloadEntities.Keys, scope);
    result.MapRelationships(wire, payloadEntities.Keys, payloadClaims.Keys, scope);
    validated := result.View();
  }
}

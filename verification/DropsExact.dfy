/** The drop log, said of the wire records and the kept records alone: exactly which drops it holds, and for what reason. */
module DropsExact {
  import opened Basics
  import opened Units
  import opened Wire
  import opened Validation
  import opened ValidationTheorems
  import opened LoadsExactly
  import opened ValidationExact
  import SortedKeys

  // ---------------------------------------------------------------- citations

  /** A citation off the surface, or one that lacks keys its source requires. */
  ghost predicate CitationSays(u: Unit, owner: string, cs: seq<Citation>, d: Drop) {
    && d.kind.CitationDrop? && d.ref == owner
    && exists c :: c in cs && RefusedFor(u, c, d.reason)
  }

  ghost predicate RefusedFor(u: Unit, c: Citation, reason: Reason) {
    if c.sourceId !in SurfaceSources(u) then reason == UnknownSource(c.sourceId)
    else
      && reason.BadLocator? && reason.sourceId == c.sourceId && reason.missing != {}
      && forall k :: k in reason.missing <==> SurfaceKey(u, c.sourceId, k) && k !in c.locator
  }

  /** The first part of the contract that the valid citations do not meet. */
  ghost function Unmet(u: Unit, cs: seq<Citation>): Option<Reason> {
    if !CitesValidly(u, cs) then Some(Uncited)
    else if u.policy.requireReference && !CitesReferenceValidly(u, cs) then Some(MissingReference)
    else if u.policy.requirePrimary && !CitesPrimaryValidly(u, cs) then Some(MissingPrimary)
    else None
  }

  lemma UnmetExact(u: Unit, cs: seq<Citation>)
    ensures CiteReason(cs, u) == Unmet(u, cs)
    ensures Unmet(u, cs).None? <==> Cites(u, cs)
  {
    var kept := Cited(cs, Citeable(u));
    forall c
      ensures c in kept <==> c in cs && ValidCitation(u, c)
    {
      CitedExact(u, cs, c);
    }
    if kept != [] { assert kept[0] in kept; }
    assert CitesReference(kept, u.reference.sourceId) <==> CitesReferenceValidly(u, cs);
    assert CitesPrimary(kept, u.reference.sourceId) <==> CitesPrimaryValidly(u, cs);
  }

  lemma EntryOfCitation(u: Unit, c: Citation, owner: string, d: Drop)
    ensures d in CitationEntry(c, Citeable(u), owner) <==> d.kind.CitationDrop? && d.ref == owner && RefusedFor(u, c, d.reason)
  {
    CiteableExact(u);
    hide Citeable, SurfaceSources, SurfaceKey;
    if c.sourceId in SurfaceSources(u) {
      var missing := Citeable(u)[c.sourceId] - c.locator.Keys;
      assert forall k :: k in missing <==> SurfaceKey(u, c.sourceId, k) && k !in c.locator;
      assert missing == {} <==> Citeable(u)[c.sourceId] <= c.locator.Keys;
      if d.reason.BadLocator? && (forall k :: k in d.reason.missing <==> SurfaceKey(u, c.sourceId, k) && k !in c.locator) {
        assert d.reason.missing == missing;
      }
    }
  }

  lemma {:induction false} CitationLogExact(u: Unit, cs: seq<Citation>, owner: string, d: Drop)
    ensures d in CitationLog(cs, Citeable(u), owner) <==> CitationSays(u, owner, cs, d)
    decreases |cs|
  {
    if cs != [] {
      hide CitationEntry, RefusedFor, Citeable;
      CitationLogExact(u, Front(cs), owner, d);
      EntryOfCitation(u, Last(cs), owner, d);
      assert cs == Front(cs) + [Last(cs)];
    }
  }

  // ----------------------------------------------------------------- entities

  ghost predicate EntitySays(w: WireExtraction, i: nat, d: Drop) {
    i < |w.entities| &&
    var e := w.entities[i];
    if !SlugWritten(e.id) then d == Drop(EntityDrop, e.id, InvalidId)
    else if exists j :: 0 <= j < i && w.entities[j].id == e.id then d == Drop(EntityDrop, e.id, DuplicateEntity)
    else exists n: nat :: n < |e.names| && NameWanted(e, n) && NameSays(e, e.names[n], d)
  }

  ghost predicate NameSays(e: WireEntity, n: WireName, d: Drop) {
    n.nameKind !in ["variant", "alias", "translation", "other"] && d == Drop(NameKindDrop, e.id + "/" + n.name, NameKindToOther(n.nameKind))
  }

  lemma {:induction false} NameLogIn(id: string, ns: seq<WireName>, d: Drop)
    ensures d in NameLog(id, ns) <==> exists n :: n in ns && d in NameEntry(id, n)
    decreases |ns|
  {
    if ns != [] {
      NameLogIn(id, Front(ns), d);
      assert ns == Front(ns) + [Last(ns)];
    }
  }

  lemma KeptName(e: WireEntity, x: WireName)
    ensures x in KeptNames(e) <==> exists n: nat :: n < |e.names| && NameWanted(e, n) && e.names[n] == x
  {
    var key, ok, kept := NameText(), NameOk(e.canonicalName), KeptNames(e);
    var at := FirstIndices(e.names, key, ok);
    KeepExact(e.names, key, ok);
    forall i | 0 <= i < |e.names|
      ensures FirstOk(e.names, key, ok, i) <==> NameWanted(e, i)
    {
      WantedNames(e, i);
    }
    hide FirstOk, NameWanted, FirstIndices, Keep, NameText, NameOk;
    if x in kept {
      var n :| 0 <= n < |kept| && kept[n] == x;
      assert NameWanted(e, at[n]);
    }
    if n: nat :| n < |e.names| && NameWanted(e, n) && e.names[n] == x {
      assert n in at;
      var m :| 0 <= m < |at| && at[m] == n;
      assert kept[m] == x;
    }
  }

  lemma NamesLogged(e: WireEntity, d: Drop)
    ensures d in NameLog(e.id, KeptNames(e)) <==> exists n: nat :: n < |e.names| && NameWanted(e, n) && NameSays(e, e.names[n], d)
  {
    hide KeptNames, NameWanted;
    NameLogIn(e.id, KeptNames(e), d);
    forall x
      ensures x in KeptNames(e) <==> exists n: nat :: n < |e.names| && NameWanted(e, n) && e.names[n] == x
      ensures d in NameEntry(e.id, x) <==> NameSays(e, x, d)
    {
      KeptName(e, x);
    }
    if n: nat :| n < |e.names| && NameWanted(e, n) && NameSays(e, e.names[n], d) {
      assert e.names[n] in KeptNames(e);
    }
  }

  lemma EntityEntryExact(w: WireExtraction, i: nat, d: Drop)
    requires i < |w.entities|
    ensures var e := w.entities[i];
            d in EntityEntry(e, Taken(w.entities[..i], EntityId(), EntityOk(), e.id)) <==> EntitySays(w, i, d)
  {
    hide NameWanted, IsSlug, SlugWritten, NameSays, KeptNames;
    var es, e := w.entities, w.entities[i];
    NamesLogged(e, d);
    forall j | 0 <= j <= i
      ensures IsSlug(es[j].id) <==> SlugWritten(es[j].id)
    {
      SlugExact(es[j].id);
    }
    assert forall j :: 0 <= j < i ==> es[..i][j] == es[j];
    if j :| 0 <= j < i && es[j].id == e.id && SlugWritten(e.id) {
      assert EntityOk()(es[..i][j]) && EntityId()(es[..i][j]) == e.id;
    }
  }

  lemma {:induction false} EntityLogIn(es: seq<WireEntity>, d: Drop)
    ensures d in EntityLog(es) <==>
            exists i: nat :: i < |es| && d in EntityEntry(es[i], Taken(es[..i], EntityId(), EntityOk(), es[i].id))
    decreases |es|
  {
    hide EntityEntry, Taken;
    if es != [] {
      var f, n := Front(es), |es| - 1;
      EntityLogIn(f, d);
      assert forall i :: 0 <= i < n ==> f[i] == es[i] && f[..i] == es[..i];
      assert es[..n] == f;
      if i: nat :| i < |f| && d in EntityEntry(f[i], Taken(f[..i], EntityId(), EntityOk(), f[i].id)) {
        assert d in EntityEntry(es[i], Taken(es[..i], EntityId(), EntityOk(), es[i].id));
      }
      if i: nat :| i < |es| && d in EntityEntry(es[i], Taken(es[..i], EntityId(), EntityOk(), es[i].id)) && i < n {
        assert d in EntityEntry(f[i], Taken(f[..i], EntityId(), EntityOk(), f[i].id));
      }
    }
  }

  lemma EntitiesLogged(w: WireExtraction, d: Drop)
    ensures d in EntityLog(w.entities) <==> exists i :: EntitySays(w, i, d)
  {
    hide EntityEntry, EntitySays, Taken;
    EntityLogIn(w.entities, d);
    forall i: nat | i < |w.entities|
      ensures d in EntityEntry(w.entities[i], Taken(w.entities[..i], EntityId(), EntityOk(), w.entities[i].id)) <==> EntitySays(w, i, d)
    {
      EntityEntryExact(w, i, d);
    }
    if i :| EntitySays(w, i, d) { SaysInRange(w, i, d); }
  }

  lemma SaysInRange(w: WireExtraction, i: nat, d: Drop)
    requires EntitySays(w, i, d)
    ensures i < |w.entities|
  {
  }

  // ------------------------------------------------------------------- events

  ghost predicate EventSays(w: WireExtraction, scope: Scope, v: Validated, i: nat, d: Drop) {
    i < |w.events| &&
    var e := w.events[i];
    if !SlugWritten(e.id) then d == Drop(EventDrop, e.id, InvalidId)
    else if e.id in scope.dbEvents || exists j :: 0 <= j < i && EventGood(scope, w.events[j]) && w.events[j].id == e.id then
      d == Drop(EventDrop, e.id, DuplicateEvent)
    else
      || CitationSays(scope.unit, "event:" + e.id, e.sources, d)
      || match Unmet(scope.unit, e.sources)
         case Some(reason) => d == Drop(EventDrop, e.id, reason)
         case None => BodySays(scope, v, e, d)
  }

  /** A participant or a location that names no entity. */
  ghost predicate BodySays(scope: Scope, v: Validated, e: WireEvent, d: Drop) {
    || (exists id :: id in e.participants && !NamesEntity(v, scope, id) && d == Drop(ParticipantDrop, e.id + "/" + id, DanglingEntity))
    || (!NamesEntity(v, scope, e.locationEntityId) && d == Drop(LocationDrop, e.id, DanglingLocation(e.locationEntityId)))
  }

  lemma {:induction false} ParticipantLogIn(ids: seq<string>, eventId: string, payload: set<string>, scope: Scope, d: Drop)
    ensures d in ParticipantLog(ids, eventId, payload, scope) <==>
            exists id :: id in ids && !Resolves(id, payload, scope) && d == Drop(ParticipantDrop, eventId + "/" + id, DanglingEntity)
    decreases |ids|
  {
    hide Resolves;
    if ids != [] {
      ParticipantLogIn(Front(ids), eventId, payload, scope, d);
      assert ids == Front(ids) + [Last(ids)];
    }
  }

  lemma BodyExact(w: WireExtraction, scope: Scope, e: WireEvent, d: Drop)
    ensures d in EventBodyLog(e, PayloadIds(w.entities), scope) <==> BodySays(scope, Validate(w, scope), e, d)
  {
    hide Resolves, NamesEntity, PayloadIds, Validate;
    var ids := SortedKeys.Sorted(e.participants.Keys);
    ParticipantLogIn(ids, e.id, PayloadIds(w.entities), scope, d);
    forall id
      ensures Resolves(id, PayloadIds(w.entities), scope) <==> NamesEntity(Validate(w, scope), scope, id)
    {
      ResolvesExactly(w, scope, id);
    }
    assert forall id :: id in ids <==> id in e.participants;
  }

  lemma EventTakenExact(w: WireExtraction, scope: Scope, i: nat)
    requires i < |w.events|
    ensures Taken(w.events[..i], EventId(), EventOk(scope), w.events[i].id) <==>
            exists j :: 0 <= j < i && EventGood(scope, w.events[j]) && w.events[j].id == w.events[i].id
  {
    hide EventPasses, EventGood;
    var es, e := w.events, w.events[i];
    forall j | 0 <= j < i
      ensures es[..i][j] == es[j] && EventOk(scope)(es[j]) == EventGood(scope, es[j]) && EventId()(es[j]) == es[j].id
    {
      EventPassesExactly(scope, es[j]);
    }
    if j :| 0 <= j < i && EventGood(scope, es[j]) && es[j].id == e.id {
      assert EventOk(scope)(es[..i][j]) && EventId()(es[..i][j]) == e.id;
    }
  }

  lemma EventEntryExact(w: WireExtraction, scope: Scope, i: nat, d: Drop)
    requires i < |w.events|
    ensures var e := w.events[i];
            d in EventEntry(e, Taken(w.events[..i], EventId(), EventOk(scope), e.id), PayloadIds(w.entities), scope) <==>
            EventSays(w, scope, Validate(w, scope), i, d)
  {
    hide Taken, IsSlug, SlugWritten, CitationSays, CitationLog, CiteReason, Unmet, EventBodyLog, BodySays, EventGood, PayloadIds, Validate;
    var e := w.events[i];
    EventTakenExact(w, scope, i);
    SlugExact(e.id);
    CitationLogExact(scope.unit, e.sources, "event:" + e.id, d);
    UnmetExact(scope.unit, e.sources);
    BodyExact(w, scope, e, d);
  }

  lemma {:induction false} EventLogIn(es: seq<WireEvent>, payload: set<string>, scope: Scope, d: Drop)
    ensures d in EventLog(es, payload, scope) <==>
            exists i: nat :: i < |es| && d in EventEntry(es[i], Taken(es[..i], EventId(), EventOk(scope), es[i].id), payload, scope)
    decreases |es|
  {
    hide EventEntry, Taken, EventOk;
    if es != [] {
      var f, n := Front(es), |es| - 1;
      EventLogIn(f, payload, scope, d);
      assert forall i :: 0 <= i < n ==> f[i] == es[i] && f[..i] == es[..i];
      assert es[..n] == f;
      if i: nat :| i < |f| && d in EventEntry(f[i], Taken(f[..i], EventId(), EventOk(scope), f[i].id), payload, scope) {
        assert d in EventEntry(es[i], Taken(es[..i], EventId(), EventOk(scope), es[i].id), payload, scope);
      }
      if i: nat :| i < n && d in EventEntry(es[i], Taken(es[..i], EventId(), EventOk(scope), es[i].id), payload, scope) {
        assert d in EventEntry(f[i], Taken(f[..i], EventId(), EventOk(scope), f[i].id), payload, scope);
      }
    }
  }

  lemma EventsLogged(w: WireExtraction, scope: Scope, d: Drop)
    ensures d in EventLog(w.events, PayloadIds(w.entities), scope) <==> exists i :: EventSays(w, scope, Validate(w, scope), i, d)
  {
    hide EventEntry, EventSays, Taken, PayloadIds, Validate;
    EventLogIn(w.events, PayloadIds(w.entities), scope, d);
    forall i: nat | i < |w.events|
      ensures d in EventEntry(w.events[i], Taken(w.events[..i], EventId(), EventOk(scope), w.events[i].id), PayloadIds(w.entities), scope)
              <==> EventSays(w, scope, Validate(w, scope), i, d)
    {
      EventEntryExact(w, scope, i, d);
    }
    if i :| EventSays(w, scope, Validate(w, scope), i, d) { EventInRange(w, scope, Validate(w, scope), i, d); }
  }

  lemma EventInRange(w: WireExtraction, scope: Scope, v: Validated, i: nat, d: Drop)
    requires EventSays(w, scope, v, i, d)
    ensures i < |w.events|
  {
  }

  // -------------------------------------------------------------------- links

  /** A cause or consequence of a kept event that names no event. */
  ghost predicate LinkSays(w: WireExtraction, scope: Scope, v: Validated, i: nat, d: Drop) {
    FirstEvent(w, scope)(i) && i < |w.events| && LinkOf(scope, v, w.events[i], d)
  }

  ghost predicate LinkOf(scope: Scope, v: Validated, e: WireEvent, d: Drop) {
    || (exists id :: id in e.causes && !NamesEvent(v, scope, id) && d == Drop(EventLinkDrop, e.id + "->" + id, DanglingCause))
    || (exists id :: id in e.consequences && !NamesEvent(v, scope, id) && d == Drop(EventLinkDrop, e.id + "->" + id, DanglingConsequence))
  }

  lemma {:induction false} LinkLogIn(ids: seq<string>, eventId: string, targets: set<string>, reason: Reason, d: Drop)
    ensures d in LinkLog(ids, eventId, targets, reason) <==>
            exists id :: id in ids && id !in targets && d == Drop(EventLinkDrop, eventId + "->" + id, reason)
    decreases |ids|
  {
    if ids != [] {
      LinkLogIn(Front(ids), eventId, targets, reason, d);
      assert ids == Front(ids) + [Last(ids)];
    }
  }

  ghost predicate LinkEntry(e: WireEvent, targets: set<string>, d: Drop) {
    d in LinkLog(e.causes, e.id, targets, DanglingCause) || d in LinkLog(e.consequences, e.id, targets, DanglingConsequence)
  }

  lemma {:induction false} LinksLogIn(es: seq<WireEvent>, targets: set<string>, d: Drop)
    ensures d in LinksLog(es, targets) <==> exists e :: e in es && LinkEntry(e, targets, d)
    decreases |es|
  {
    hide LinkLog;
    if es != [] {
      LinksLogIn(Front(es), targets, d);
      assert d in LinksLog(es, targets) <==> d in LinksLog(Front(es), targets) || LinkEntry(Last(es), targets, d);
      assert es == Front(es) + [Last(es)];
    }
  }

  lemma LinkEntryExact(w: WireExtraction, scope: Scope, e: WireEvent, d: Drop)
    ensures LinkEntry(e, LinkTargets(scope, w.events), d) <==> LinkOf(scope, Validate(w, scope), e, d)
  {
    hide LinkTargets, NamesEvent, Validate;
    LinkLogIn(e.causes, e.id, LinkTargets(scope, w.events), DanglingCause, d);
    LinkLogIn(e.consequences, e.id, LinkTargets(scope, w.events), DanglingConsequence, d);
    forall id
      ensures id in LinkTargets(scope, w.events) <==> NamesEvent(Validate(w, scope), scope, id)
    {
      TargetsAre(w, scope, id);
    }
  }

  lemma LinksLogged(w: WireExtraction, scope: Scope, d: Drop)
    ensures d in LinksLog(KeptEvents(scope, w.events), LinkTargets(scope, w.events)) <==>
            exists i :: LinkSays(w, scope, Validate(w, scope), i, d)
  {
    hide EventPasses, EventGood, LinkOf, LinkEntry, LinkTargets, Validate, LinksLog, Keep, FirstOk, FirstIndices, EventOk;
    var kept, at := KeptEvents(scope, w.events), FirstIndices(w.events, EventId(), EventOk(scope));
    KeepExact(w.events, EventId(), EventOk(scope));
    LinksLogIn(kept, LinkTargets(scope, w.events), d);
    forall e
      ensures LinkEntry(e, LinkTargets(scope, w.events), d) <==> LinkOf(scope, Validate(w, scope), e, d)
    {
      LinkEntryExact(w, scope, e, d);
    }
    forall i: nat | i < |w.events|
      ensures FirstOk(w.events, EventId(), EventOk(scope), i) <==> FirstEvent(w, scope)(i)
    {
      FirstEventExact(w, scope, i);
    }
    if e :| e in kept && LinkEntry(e, LinkTargets(scope, w.events), d) {
      var n :| 0 <= n < |kept| && kept[n] == e;
      assert LinkSays(w, scope, Validate(w, scope), at[n], d);
    }
    if i: nat :| LinkSays(w, scope, Validate(w, scope), i, d) {
      assert i in at;
      var n :| 0 <= n < |at| && at[n] == i;
      assert kept[n] in kept && kept[n] == w.events[i];
    }
  }

  lemma FirstEventExact(w: WireExtraction, scope: Scope, i: nat)
    requires i < |w.events|
    ensures FirstOk(w.events, EventId(), EventOk(scope), i) <==> FirstEvent(w, scope)(i)
  {
    hide EventPasses, EventGood;
    forall j | 0 <= j <= i
      ensures EventOk(scope)(w.events[j]) == EventGood(scope, w.events[j]) && EventId()(w.events[j]) == w.events[j].id
    {
      EventPassesExactly(scope, w.events[j]);
    }
  }

  // ------------------------------------------------------------------- claims

  ghost predicate FieldSays(c: WireClaim, d: Drop) {
    c.objectEntityId != "" && c.objectValue != "" && d == Drop(ClaimFieldDrop, c.id, BothObjectsKeptEntity)
  }

  ghost predicate VersionSays(u: Unit, c: WireClaim, x: WireVersion, d: Drop) {
    var ref := c.id + "#" + x.tradition;
    || CitationSays(u, "claim:" + ref, x.sources, d)
    || (Unmet(u, x.sources).Some? && d == Drop(VersionDrop, ref, Unmet(u, x.sources).value))
  }

  ghost predicate ClaimSays(w: WireExtraction, scope: Scope, v: Validated, i: nat, d: Drop) {
    i < |w.claims| &&
    var c := w.claims[i];
    if !SlugWritten(c.id) then d == Drop(ClaimDrop, c.id, InvalidId)
    else if c.id in scope.dbClaims || exists j :: 0 <= j < i && ClaimGood(v, scope, w.claims[j]) && w.claims[j].id == c.id then
      d == Drop(ClaimDrop, c.id, DuplicateClaim)
    else
      FieldSays(c, d) ||
      if !NamesEntity(v, scope, c.subjectEntityId) then d == Drop(ClaimDrop, c.id, DanglingSubject(c.subjectEntityId))
      else if !NamesEntity(v, scope, c.objectEntityId) then d == Drop(ClaimDrop, c.id, DanglingObject(c.objectEntityId))
      else CitesSay(scope.unit, c, d)
  }

  /** What the citations of a claim and of its versions lead to. */
  ghost predicate CitesSay(u: Unit, c: WireClaim, d: Drop) {
    || CitationSays(u, "claim:" + c.id, c.sources, d)
    || match Unmet(u, c.sources)
       case Some(reason) => d == Drop(ClaimDrop, c.id, reason)
       case None =>
         || (exists x :: x in c.versions && VersionSays(u, c, x, d))
         || (Disputed(c.confidence) && !(exists x :: x in c.versions && Cites(u, x.sources))
             && d == Drop(ClaimDrop, c.id, ContestedWithoutVersions))
  }

  lemma {:induction false} VersionLogExact(u: Unit, c: WireClaim, vs: seq<WireVersion>, d: Drop)
    ensures d in VersionLog(vs, c.id, u) <==> exists x :: x in vs && VersionSays(u, c, x, d)
    decreases |vs|
  {
    hide CitationSays, CitationLog, CiteReason, Unmet;
    if vs != [] {
      var x := Last(vs);
      VersionLogExact(u, c, Front(vs), d);
      CitationLogExact(u, x.sources, "claim:" + c.id + "#" + x.tradition, d);
      assert "claim:" + c.id + "#" + x.tradition == "claim:" + (c.id + "#" + x.tradition);
      UnmetExact(u, x.sources);
      assert d in VersionLog(vs, c.id, u) <==> d in VersionLog(Front(vs), c.id, u) || VersionSays(u, c, x, d);
      assert vs == Front(vs) + [x];
    }
  }

  lemma CitesSayExact(u: Unit, c: WireClaim, d: Drop)
    ensures d in CitationLog(c.sources, Citeable(u), "claim:" + c.id) +
                 (if CiteReason(c.sources, u).None? then VersionLog(c.versions, c.id, u) else []) +
                 (match ClaimReason(c, u) case Some(reason) => [Drop(ClaimDrop, c.id, reason)] case None => [])
            <==> CitesSay(u, c, d)
  {
    hide CitationSays, CitationLog, CiteReason, Unmet, VersionLog, VersionSays, Versions, Cites, VersionsExact;
    CitationLogExact(u, c.sources, "claim:" + c.id, d);
    UnmetExact(u, c.sources);
    VersionLogExact(u, c, c.versions, d);
    VersionsAre(u, c.versions);
  }

  lemma ClaimTakenExact(w: WireExtraction, scope: Scope, i: nat)
    requires i < |w.claims|
    ensures Taken(w.claims[..i], ClaimId(), ClaimOk(PayloadIds(w.entities), scope), w.claims[i].id) <==>
            exists j :: 0 <= j < i && ClaimGood(Validate(w, scope), scope, w.claims[j]) && w.claims[j].id == w.claims[i].id
  {
    hide ClaimPasses, ClaimGood, PayloadIds, Validate;
    var cs, c := w.claims, w.claims[i];
    var ok := ClaimOk(PayloadIds(w.entities), scope);
    forall j | 0 <= j < i
      ensures cs[..i][j] == cs[j] && ok(cs[j]) == ClaimGood(Validate(w, scope), scope, cs[j]) && ClaimId()(cs[j]) == cs[j].id
    {
      ClaimPassesExactly(w, scope, cs[j]);
    }
    if j :| 0 <= j < i && ClaimGood(Validate(w, scope), scope, cs[j]) && cs[j].id == c.id {
      assert ok(cs[..i][j]) && ClaimId()(cs[..i][j]) == c.id;
    }
  }

  lemma ClaimEntryExact(w: WireExtraction, scope: Scope, i: nat, d: Drop)
    requires i < |w.claims|
    ensures var c := w.claims[i];
            d in ClaimEntry(c, Taken(w.claims[..i], ClaimId(), ClaimOk(PayloadIds(w.entities), scope), c.id), PayloadIds(w.entities), scope) <==>
            ClaimSays(w, scope, Validate(w, scope), i, d)
  {
    hide Taken, ClaimOk, IsSlug, SlugWritten, CitationLog, CiteReason, ClaimReason, CitesSay, VersionLog, ClaimGood, NamesEntity, Resolves,
      PayloadIds, Validate, Citeable;
    var c := w.claims[i];
    ClaimTakenExact(w, scope, i);
    SlugExact(c.id);
    ResolvesExactly(w, scope, c.subjectEntityId);
    ResolvesExactly(w, scope, c.objectEntityId);
    CitesSayExact(scope.unit, c, d);
  }

  lemma {:induction false} ClaimLogIn(cs: seq<WireClaim>, payload: set<string>, scope: Scope, d: Drop)
    ensures d in ClaimLog(cs, payload, scope) <==>
            exists i: nat :: i < |cs| && d in ClaimEntry(cs[i], Taken(cs[..i], ClaimId(), ClaimOk(payload, scope), cs[i].id), payload, scope)
    decreases |cs|
  {
    hide ClaimEntry, Taken, ClaimOk;
    if cs != [] {
      var f, n := Front(cs), |cs| - 1;
      ClaimLogIn(f, payload, scope, d);
      assert forall i :: 0 <= i < n ==> f[i] == cs[i] && f[..i] == cs[..i];
      assert cs[..n] == f;
      if i: nat :| i < |f| && d in ClaimEntry(f[i], Taken(f[..i], ClaimId(), ClaimOk(payload, scope), f[i].id), payload, scope) {
        assert d in ClaimEntry(cs[i], Taken(cs[..i], ClaimId(), ClaimOk(payload, scope), cs[i].id), payload, scope);
      }
      if i: nat :| i < n && d in ClaimEntry(cs[i], Taken(cs[..i], ClaimId(), ClaimOk(payload, scope), cs[i].id), payload, scope) {
        assert d in ClaimEntry(f[i], Taken(f[..i], ClaimId(), ClaimOk(payload, scope), f[i].id), payload, scope);
      }
    }
  }

  lemma ClaimsLogged(w: WireExtraction, scope: Scope, d: Drop)
    ensures d in ClaimLog(w.claims, PayloadIds(w.entities), scope) <==> exists i :: ClaimSays(w, scope, Validate(w, scope), i, d)
  {
    hide ClaimEntry, ClaimSays, Taken, PayloadIds, Validate, ClaimOk;
    var payload := PayloadIds(w.entities);
    ClaimLogIn(w.claims, payload, scope, d);
    forall i: nat | i < |w.claims|
      ensures d in ClaimEntry(w.claims[i], Taken(w.claims[..i], ClaimId(), ClaimOk(payload, scope), w.claims[i].id), payload, scope)
              <==> ClaimSays(w, scope, Validate(w, scope), i, d)
    {
      ClaimEntryExact(w, scope, i, d);
    }
    if i :| ClaimSays(w, scope, Validate(w, scope), i, d) { ClaimInRange(w, scope, Validate(w, scope), i, d); }
  }

  lemma ClaimInRange(w: WireExtraction, scope: Scope, v: Validated, i: nat, d: Drop)
    requires ClaimSays(w, scope, v, i, d)
    ensures i < |w.claims|
  {
  }

  // ------------------------------------------------------------ relationships

  ghost predicate EdgeSays(w: WireExtraction, scope: Scope, v: Validated, i: nat, d: Drop) {
    i < |w.relationships| &&
    var r := w.relationships[i];
    && d.kind.RelationshipDrop? && d.ref == r.fromEntityId + "-" + r.relType + "-" + r.toEntityId
    && if TypeOf(scope.unit, r) !in scope.unit.relTypes then d.reason == UnknownRelType(r.relType)
       else if !NamesEntity(v, scope, r.fromEntityId) || !NamesEntity(v, scope, r.toEntityId) then d.reason == DanglingEndpoint
       else if r.fromEntityId == r.toEntityId then d.reason == SelfRelationship
       else
         || (r.claimId != "" && !NamesClaim(v, scope, r.claimId) && d.reason == KeptWithoutJustification(r.claimId))
         || ((exists j :: 0 <= j < i && EdgeGood(v, scope, w.relationships[j]) && SameEdge(scope.unit, w.relationships[j], r))
             && d.reason == DuplicateRelationship)
  }

  lemma EdgeTakenExact(w: WireExtraction, scope: Scope, i: nat)
    requires i < |w.relationships|
    ensures var r := w.relationships[i];
            Taken(w.relationships[..i], EdgeOf(scope.unit), EdgeOk(PayloadIds(w.entities), scope), EdgeOf(scope.unit)(r)) <==>
            exists j :: 0 <= j < i && EdgeGood(Validate(w, scope), scope, w.relationships[j]) && SameEdge(scope.unit, w.relationships[j], r)
  {
    hide EdgePasses, EdgeGood, PayloadIds, Validate;
    var rs, r := w.relationships, w.relationships[i];
    var key, ok := EdgeOf(scope.unit), EdgeOk(PayloadIds(w.entities), scope);
    forall j | 0 <= j < i
      ensures rs[..i][j] == rs[j] && ok(rs[j]) == EdgeGood(Validate(w, scope), scope, rs[j])
      ensures key(rs[j]) == key(r) <==> SameEdge(scope.unit, rs[j], r)
    {
      EdgePassesExactly(w, scope, rs[j]);
    }
    if j :| 0 <= j < i && EdgeGood(Validate(w, scope), scope, rs[j]) && SameEdge(scope.unit, rs[j], r) {
      assert ok(rs[..i][j]) && key(rs[..i][j]) == key(r);
    }
  }

  lemma EdgeEntryExact(w: WireExtraction, scope: Scope, i: nat, d: Drop)
    requires i < |w.relationships|
    ensures var r := w.relationships[i];
            d in EdgeEntry(r, Taken(w.relationships[..i], EdgeOf(scope.unit), EdgeOk(PayloadIds(w.entities), scope), EdgeOf(scope.unit)(r)),
                           PayloadIds(w.entities), ClaimIds(ClaimsOf(w, scope)), scope) <==>
            EdgeSays(w, scope, Validate(w, scope), i, d)
  {
    hide Taken, EdgeOf, EdgeOk, EdgeGood, SameEdge, NamesEntity, Resolves, PayloadIds, Validate, ClaimsOf, ClaimIds, NamesClaim;
    var r := w.relationships[i];
    EdgeTakenExact(w, scope, i);
    ResolvesExactly(w, scope, r.fromEntityId);
    ResolvesExactly(w, scope, r.toEntityId);
    ClaimNamed(w, scope, r.claimId);
  }

  lemma ClaimNamed(w: WireExtraction, scope: Scope, id: string)
    ensures id in ClaimIds(ClaimsOf(w, scope)) || id in scope.dbClaims <==> NamesClaim(Validate(w, scope), scope, id)
  {
    hide ClaimsIn, ClaimsOf;
    ClaimIdsAre(w, scope);
    assert id in (set c | c in ClaimsIn(w, scope) :: c.id) <==> exists c :: c in ClaimsIn(w, scope) && c.id == id;
  }

  lemma {:induction false} EdgeLogIn(rs: seq<WireRelationship>, payload: set<string>, claims: set<string>, scope: Scope, d: Drop)
    ensures d in EdgeLog(rs, payload, claims, scope) <==>
            exists i: nat :: i < |rs| &&
              d in EdgeEntry(rs[i], Taken(rs[..i], EdgeOf(scope.unit), EdgeOk(payload, scope), EdgeOf(scope.unit)(rs[i])), payload, claims, scope)
    decreases |rs|
  {
    hide EdgeEntry, Taken, EdgeOk, EdgeOf;
    if rs != [] {
      var f, n := Front(rs), |rs| - 1;
      var key, ok := EdgeOf(scope.unit), EdgeOk(payload, scope);
      EdgeLogIn(f, payload, claims, scope, d);
      assert forall i :: 0 <= i < n ==> f[i] == rs[i] && f[..i] == rs[..i];
      assert rs[..n] == f;
      if i: nat :| i < |f| && d in EdgeEntry(f[i], Taken(f[..i], key, ok, key(f[i])), payload, claims, scope) {
        assert d in EdgeEntry(rs[i], Taken(rs[..i], key, ok, key(rs[i])), payload, claims, scope);
      }
      if i: nat :| i < n && d in EdgeEntry(rs[i], Taken(rs[..i], key, ok, key(rs[i])), payload, claims, scope) {
        assert d in EdgeEntry(f[i], Taken(f[..i], key, ok, key(f[i])), payload, claims, scope);
      }
    }
  }

  lemma EdgesLogged(w: WireExtraction, scope: Scope, d: Drop)
    ensures d in EdgeLog(w.relationships, PayloadIds(w.entities), ClaimIds(ClaimsOf(w, scope)), scope) <==>
            exists i :: EdgeSays(w, scope, Validate(w, scope), i, d)
  {
    hide EdgeEntry, EdgeSays, Taken, PayloadIds, Validate, EdgeOk, EdgeOf, ClaimsOf, ClaimIds;
    var payload, claims := PayloadIds(w.entities), ClaimIds(ClaimsOf(w, scope));
    EdgeLogIn(w.relationships, payload, claims, scope, d);
    forall i: nat | i < |w.relationships|
      ensures d in EdgeEntry(w.relationships[i], Taken(w.relationships[..i], EdgeOf(scope.unit), EdgeOk(payload, scope),
                                                       EdgeOf(scope.unit)(w.relationships[i])), payload, claims, scope)
              <==> EdgeSays(w, scope, Validate(w, scope), i, d)
    {
      EdgeEntryExact(w, scope, i, d);
    }
    if i :| EdgeSays(w, scope, Validate(w, scope), i, d) { EdgeInRange(w, scope, Validate(w, scope), i, d); }
  }

  lemma EdgeInRange(w: WireExtraction, scope: Scope, v: Validated, i: nat, d: Drop)
    requires EdgeSays(w, scope, v, i, d)
    ensures i < |w.relationships|
  {
  }

  // ----------------------------------------------------------------- the whole

  /** Some wire record is, or leads to, this drop. */
  ghost predicate Logged(w: WireExtraction, scope: Scope, v: Validated, d: Drop) {
    || (exists i :: EntitySays(w, i, d)) || (exists i :: EventSays(w, scope, v, i, d)) || (exists i :: LinkSays(w, scope, v, i, d))
    || (exists i :: ClaimSays(w, scope, v, i, d)) || (exists i :: EdgeSays(w, scope, v, i, d))
  }

  /** The drop log holds exactly the drops there is a reason for. */
  lemma DropsExactly(w: WireExtraction, scope: Scope)
    ensures forall d :: d in Validate(w, scope).drops <==> Logged(w, scope, Validate(w, scope), d)
  {
    hide EntityLog, EventLog, LinksLog, ClaimLog, EdgeLog, EntitiesIn, EventsIn, ClaimsIn, EdgesIn, EntitySays, EventSays, LinkSays,
      ClaimSays, EdgeSays, Contradictions, PayloadIds, ClaimsOf, KeptEvents, LinkTargets, ClaimIds;
    forall d
      ensures d in Validate(w, scope).drops <==> Logged(w, scope, Validate(w, scope), d)
    {
      EntitiesLogged(w, d);
      EventsLogged(w, scope, d);
      LinksLogged(w, scope, d);
      ClaimsLogged(w, scope, d);
      EdgesLogged(w, scope, d);
    }
  }
}

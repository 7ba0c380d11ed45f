/** How long the drop log is: one entry for each cause, no cause logged twice. */
module DropsCounted {
  import opened Basics
  import opened Units
  import opened Wire
  import opened Validation
  import opened ValidationTheorems
  import opened LoadsExactly
  import opened ValidationExact
  import opened DropsExact
  import SortedKeys

  function SumTo(n: nat, f: nat -> nat): nat {
    if n == 0 then 0 else SumTo(n - 1, f) + f(n - 1)
  }

  lemma {:induction false} SumSame(n: nat, f: nat -> nat, g: nat -> nat)
    requires forall i :: 0 <= i < n ==> f(i) == g(i)
    ensures SumTo(n, f) == SumTo(n, g)
  {
    if n > 0 { SumSame(n - 1, f, g); }
  }

  function One(b: bool): nat {
    if b then 1 else 0
  }

  // ------------------------------------------------------------------- causes

  /** The citations refused, by position. */
  ghost function Refused(u: Unit, cs: seq<Citation>): set<nat> {
    set i | 0 <= i < |cs| && !ValidCitation(u, cs[i])
  }

  /** The wanted names of an unknown kind. */
  ghost function Miskinded(e: WireEntity): set<nat> {
    set n | 0 <= n < |e.names| && NameWanted(e, n) && e.names[n].nameKind !in ["variant", "alias", "translation", "other"]
  }

  ghost function Strangers(v: Validated, scope: Scope, e: WireEvent): set<string> {
    set id | id in e.participants.Keys && !NamesEntity(v, scope, id)
  }

  ghost function Loose(v: Validated, scope: Scope, ids: seq<string>): set<nat> {
    set i | 0 <= i < |ids| && !NamesEvent(v, scope, ids[i])
  }

  ghost function EntityCauses(w: WireExtraction): nat -> nat {
    (i: nat) =>
      if i >= |w.entities| then 0
      else if !SlugWritten(w.entities[i].id) || (exists j :: 0 <= j < i && w.entities[j].id == w.entities[i].id) then 1
      else |Miskinded(w.entities[i])|
  }

  ghost function EventCauses(w: WireExtraction, scope: Scope, v: Validated): nat -> nat {
    (i: nat) =>
      if i >= |w.events| then 0
      else
        var e := w.events[i];
        if !SlugWritten(e.id) || e.id in scope.dbEvents || (exists j :: 0 <= j < i && EventGood(scope, w.events[j]) && w.events[j].id == e.id) then 1
        else |Refused(scope.unit, e.sources)| +
             if !Cites(scope.unit, e.sources) then 1
             else |Strangers(v, scope, e)| + One(!NamesEntity(v, scope, e.locationEntityId))
  }

  ghost function LinkCauses(w: WireExtraction, scope: Scope, v: Validated): nat -> nat {
    (i: nat) =>
      if i >= |w.events| || !FirstEvent(w, scope)(i) then 0
      else |Loose(v, scope, w.events[i].causes)| + |Loose(v, scope, w.events[i].consequences)|
  }

  ghost function VersionCauses(u: Unit, vs: seq<WireVersion>): nat -> nat {
    (i: nat) => if i >= |vs| then 0 else |Refused(u, vs[i].sources)| + One(!Cites(u, vs[i].sources))
  }

  ghost function ClaimCauses(w: WireExtraction, scope: Scope, v: Validated): nat -> nat {
    (i: nat) =>
      if i >= |w.claims| then 0
      else
        var c := w.claims[i];
        if !SlugWritten(c.id) || c.id in scope.dbClaims || (exists j :: 0 <= j < i && ClaimGood(v, scope, w.claims[j]) && w.claims[j].id == c.id) then 1
        else One(c.objectEntityId != "" && c.objectValue != "") +
             if !NamesEntity(v, scope, c.subjectEntityId) || !NamesEntity(v, scope, c.objectEntityId) then 1
             else CiteCauses(scope.unit, c)
  }

  ghost function CiteCauses(u: Unit, c: WireClaim): nat {
    |Refused(u, c.sources)| +
    if !Cites(u, c.sources) then 1
    else SumTo(|c.versions|, VersionCauses(u, c.versions)) +
         One(Disputed(c.confidence) && !(exists x :: x in c.versions && Cites(u, x.sources)))
  }

  ghost function EdgeCauses(w: WireExtraction, scope: Scope, v: Validated): nat -> nat {
    (i: nat) =>
      if i >= |w.relationships| then 0
      else
        var r := w.relationships[i];
        if TypeOf(scope.unit, r) !in scope.unit.relTypes || !NamesEntity(v, scope, r.fromEntityId)
           || !NamesEntity(v, scope, r.toEntityId) || r.fromEntityId == r.toEntityId then 1
        else One(r.claimId != "" && !NamesClaim(v, scope, r.claimId)) +
             One(exists j :: 0 <= j < i && EdgeGood(v, scope, w.relationships[j]) && SameEdge(scope.unit, w.relationships[j], r))
  }

  // ------------------------------------------------------------ runs of entries

  ghost function BadIn(u: Unit): Citation -> bool {
    (c: Citation) => !ValidCitation(u, c)
  }

  lemma {:induction false} CitationsCounted(u: Unit, cs: seq<Citation>, owner: string)
    ensures |CitationLog(cs, Citeable(u), owner)| == Count(cs, BadIn(u))
    decreases |cs|
  {
    hide Citeable, ValidCitation;
    if cs != [] {
      CitationsCounted(u, Front(cs), owner);
      CitationOkExact(u, Last(cs));
    }
  }

  lemma CitationsSize(u: Unit, cs: seq<Citation>, owner: string)
    ensures |CitationLog(cs, Citeable(u), owner)| == |Refused(u, cs)|
  {
    CitationsCounted(u, cs, owner);
    CountSize(cs, BadIn(u));
    assert PositionsOf(cs, BadIn(u)) == Refused(u, cs);
  }

  ghost function OddKind(): WireName -> bool {
    (n: WireName) => !NameKindOk(n.nameKind)
  }

  lemma {:induction false} NamesCounted(id: string, ns: seq<WireName>)
    ensures |NameLog(id, ns)| == Count(ns, OddKind())
    decreases |ns|
  {
    if ns != [] { NamesCounted(id, Front(ns)); }
  }

  ghost function FirstAnd<T, K>(s: seq<T>, key: T -> K, ok: T -> bool, p: T -> bool): set<nat> {
    set i | 0 <= i < |s| && FirstOk(s, key, ok, i) && p(s[i])
  }

  /** Counting among the kept items is counting their positions. */
  lemma {:induction false} KeptCount<T, K>(s: seq<T>, key: T -> K, ok: T -> bool, p: T -> bool)
    ensures Count(Keep(s, key, ok), p) == |FirstAnd(s, key, ok, p)|
    decreases |s|
  {
    if s == [] {
      assert FirstAnd(s, key, ok, p) == {};
    } else {
      var f, n := Front(s), |s| - 1;
      KeptCount(f, key, ok, p);
      hide FirstOk, Keep, FirstAnd;
      KeepOneMore(s, key, ok);
      FirstAndStep(s, key, ok, p);
      CountLast(Keep(f, key, ok), s[n], p);
    }
  }

  lemma FirstAndStep<T, K>(s: seq<T>, key: T -> K, ok: T -> bool, p: T -> bool)
    requires s != []
    ensures var n := |s| - 1;
            |FirstAnd(s, key, ok, p)| == |FirstAnd(Front(s), key, ok, p)| + if FirstOk(s, key, ok, n) && p(s[n]) then 1 else 0
  {
    FirstOkFront(s, key, ok);
    hide FirstOk;
    var n, f := |s| - 1, Front(s);
    var before := FirstAnd(f, key, ok, p);
    if FirstOk(s, key, ok, n) && p(s[n]) {
      assert FirstAnd(s, key, ok, p) == before + {n};
    } else {
      assert FirstAnd(s, key, ok, p) == before;
    }
  }

  lemma CountLast<T>(s: seq<T>, x: T, p: T -> bool)
    ensures Count(s + [x], p) == Count(s, p) + if p(x) then 1 else 0
  {
    assert Front(s + [x]) == s;
  }

  lemma NamesSize(e: WireEntity)
    ensures |NameLog(e.id, KeptNames(e))| == |Miskinded(e)|
  {
    var key, ok := NameText(), NameOk(e.canonicalName);
    NamesCounted(e.id, KeptNames(e));
    KeptCount(e.names, key, ok, OddKind());
    forall i | 0 <= i < |e.names|
      ensures FirstOk(e.names, key, ok, i) <==> NameWanted(e, i)
    {
      WantedNames(e, i);
    }
    hide FirstOk, NameWanted;
    assert FirstAnd(e.names, key, ok, OddKind()) == Miskinded(e);
  }

  ghost function Unknown(payload: set<string>, scope: Scope): string -> bool {
    (id: string) => !Resolves(id, payload, scope)
  }

  ghost function Among(ids: seq<string>, p: string -> bool): set<string> {
    set id | id in ids && p(id)
  }

  lemma {:induction false} ParticipantsCounted(ids: seq<string>, eventId: string, payload: set<string>, scope: Scope)
    requires forall m, n :: 0 <= m < n < |ids| ==> ids[m] != ids[n]
    ensures |ParticipantLog(ids, eventId, payload, scope)| == |Among(ids, Unknown(payload, scope))|
    decreases |ids|
  {
    hide Resolves;
    if ids != [] {
      var p, last := Unknown(payload, scope), Last(ids);
      ParticipantsCounted(Front(ids), eventId, payload, scope);
      assert ids == Front(ids) + [last];
      assert Among(ids, p) == Among(Front(ids), p) + if p(last) then {last} else {};
      assert last !in Front(ids);
    }
  }

  lemma ParticipantsSize(w: WireExtraction, scope: Scope, e: WireEvent)
    ensures |ParticipantLog(SortedKeys.Sorted(e.participants.Keys), e.id, PayloadIds(w.entities), scope)| ==
            |Strangers(Validate(w, scope), scope, e)|
  {
    hide Resolves, NamesEntity, PayloadIds, Validate;
    var ids, p := SortedKeys.Sorted(e.participants.Keys), Unknown(PayloadIds(w.entities), scope);
    forall m, n | 0 <= m < n < |ids| ensures ids[m] != ids[n] { SortedKeys.LessTotal(ids[m], ids[m]); }
    ParticipantsCounted(ids, e.id, PayloadIds(w.entities), scope);
    forall id
      ensures id in Among(ids, p) <==> id in Strangers(Validate(w, scope), scope, e)
    {
      ResolvesExactly(w, scope, id);
    }
    assert Among(ids, p) == Strangers(Validate(w, scope), scope, e);
  }

  ghost function OffTarget(targets: set<string>): string -> bool {
    (id: string) => id !in targets
  }

  lemma {:induction false} LinksCounted(ids: seq<string>, eventId: string, targets: set<string>, reason: Reason)
    ensures |LinkLog(ids, eventId, targets, reason)| == Count(ids, OffTarget(targets))
    decreases |ids|
  {
    if ids != [] { LinksCounted(Front(ids), eventId, targets, reason); }
  }

  lemma LinksSize(w: WireExtraction, scope: Scope, ids: seq<string>, eventId: string, reason: Reason)
    ensures |LinkLog(ids, eventId, LinkTargets(scope, w.events), reason)| == |Loose(Validate(w, scope), scope, ids)|
  {
    hide LinkTargets, Validate, NamesEvent;
    var targets := LinkTargets(scope, w.events);
    LinksCounted(ids, eventId, targets, reason);
    CountSize(ids, OffTarget(targets));
    forall id
      ensures id in targets <==> NamesEvent(Validate(w, scope), scope, id)
    {
      TargetsAre(w, scope, id);
    }
    assert PositionsOf(ids, OffTarget(targets)) == Loose(Validate(w, scope), scope, ids);
  }

  // -------------------------------------------------------------- record by record

  lemma EntityEntrySize(w: WireExtraction, i: nat)
    requires i < |w.entities|
    ensures var e := w.entities[i];
            |EntityEntry(e, Taken(w.entities[..i], EntityId(), EntityOk(), e.id))| == EntityCauses(w)(i)
  {
    hide NameWanted, IsSlug, SlugWritten, KeptNames, Miskinded;
    var es, e := w.entities, w.entities[i];
    NamesSize(e);
    forall j | 0 <= j <= i
      ensures IsSlug(es[j].id) <==> SlugWritten(es[j].id)
    {
      SlugExact(es[j].id);
    }
    assert forall j :: 0 <= j < i ==> es[..i][j] == es[j];
    if j :| 0 <= j < i && es[j].id == e.id && SlugWritten(e.id) {
      assert EntityOk()(es[..i][j]) && EntityId()(es[..i][j]) == e.id;
    }
  }

  lemma EventEntrySize(w: WireExtraction, scope: Scope, i: nat)
    requires i < |w.events|
    ensures var e := w.events[i];
            |EventEntry(e, Taken(w.events[..i], EventId(), EventOk(scope), e.id), PayloadIds(w.entities), scope)| ==
            EventCauses(w, scope, Validate(w, scope))(i)
  {
    hide Taken, IsSlug, SlugWritten, CitationLog, CiteReason, Unmet, Cites, ParticipantLog, Refused, Strangers, EventGood, Resolves,
      NamesEntity, PayloadIds, Validate, Citeable;
    var e := w.events[i];
    EventTakenExact(w, scope, i);
    SlugExact(e.id);
    CitationsSize(scope.unit, e.sources, "event:" + e.id);
    UnmetExact(scope.unit, e.sources);
    ParticipantsSize(w, scope, e);
    ResolvesExactly(w, scope, e.locationEntityId);
  }

  lemma {:induction false} VersionsSize(u: Unit, vs: seq<WireVersion>, claimId: string)
    ensures |VersionLog(vs, claimId, u)| == SumTo(|vs|, VersionCauses(u, vs))
    decreases |vs|
  {
    hide CitationLog, CiteReason, Unmet, Cites, Refused, Citeable;
    if vs != [] {
      var f, x := Front(vs), Last(vs);
      VersionsSize(u, f, claimId);
      SumSame(|f|, VersionCauses(u, f), VersionCauses(u, vs));
      CitationsSize(u, x.sources, "claim:" + claimId + "#" + x.tradition);
      UnmetExact(u, x.sources);
    }
  }

  lemma CitesSize(u: Unit, c: WireClaim)
    ensures |CitationLog(c.sources, Citeable(u), "claim:" + c.id)| +
            (if CiteReason(c.sources, u).None? then |VersionLog(c.versions, c.id, u)| else 0) +
            One(ClaimReason(c, u).Some?)
            == CiteCauses(u, c)
  {
    hide CitationLog, CiteReason, Unmet, Cites, Refused, VersionLog, VersionCauses, Versions, SumTo, Citeable, VersionsExact;
    CitationsSize(u, c.sources, "claim:" + c.id);
    UnmetExact(u, c.sources);
    VersionsSize(u, c.versions, c.id);
    VersionsAre(u, c.versions);
  }

  lemma ClaimEntrySize(w: WireExtraction, scope: Scope, i: nat)
    requires i < |w.claims|
    ensures var c := w.claims[i];
            |ClaimEntry(c, Taken(w.claims[..i], ClaimId(), ClaimOk(PayloadIds(w.entities), scope), c.id), PayloadIds(w.entities), scope)| ==
            ClaimCauses(w, scope, Validate(w, scope))(i)
  {
    hide Taken, ClaimOk, IsSlug, SlugWritten, CitationLog, CiteReason, ClaimReason, CiteCauses, VersionLog, ClaimGood, NamesEntity, Resolves,
      PayloadIds, Validate, Citeable;
    var c := w.claims[i];
    ClaimTakenExact(w, scope, i);
    SlugExact(c.id);
    ResolvesExactly(w, scope, c.subjectEntityId);
    ResolvesExactly(w, scope, c.objectEntityId);
    CitesSize(scope.unit, c);
  }

  lemma EdgeEntrySize(w: WireExtraction, scope: Scope, i: nat)
    requires i < |w.relationships|
    ensures var r := w.relationships[i];
            |EdgeEntry(r, Taken(w.relationships[..i], EdgeOf(scope.unit), EdgeOk(PayloadIds(w.entities), scope), EdgeOf(scope.unit)(r)),
                       PayloadIds(w.entities), ClaimIds(ClaimsOf(w, scope)), scope)| ==
            EdgeCauses(w, scope, Validate(w, scope))(i)
  {
    hide Taken, EdgeOf, EdgeOk, EdgeGood, SameEdge, NamesEntity, Resolves, PayloadIds, Validate, ClaimsOf, ClaimIds, NamesClaim;
    var r := w.relationships[i];
    EdgeTakenExact(w, scope, i);
    ResolvesExactly(w, scope, r.fromEntityId);
    ResolvesExactly(w, scope, r.toEntityId);
    ClaimNamed(w, scope, r.claimId);
  }

  // -------------------------------------------------------------------- the whole

  ghost function EntityLens(es: seq<WireEntity>): nat -> nat {
    (i: nat) => if i < |es| then |EntityEntry(es[i], Taken(es[..i], EntityId(), EntityOk(), es[i].id))| else 0
  }

  lemma {:induction false} EntitiesSize(es: seq<WireEntity>)
    ensures |EntityLog(es)| == SumTo(|es|, EntityLens(es))
    decreases |es|
  {
    hide EntityEntry, Taken;
    if es != [] {
      var f, n := Front(es), |es| - 1;
      EntitiesSize(f);
      assert forall i :: 0 <= i < n ==> f[i] == es[i] && f[..i] == es[..i];
      assert es[..n] == f;
      SumSame(n, EntityLens(f), EntityLens(es));
    }
  }

  ghost function EventLens(es: seq<WireEvent>, payload: set<string>, scope: Scope): nat -> nat {
    (i: nat) => if i < |es| then |EventEntry(es[i], Taken(es[..i], EventId(), EventOk(scope), es[i].id), payload, scope)| else 0
  }

  lemma {:induction false} EventsSize(es: seq<WireEvent>, payload: set<string>, scope: Scope)
    ensures |EventLog(es, payload, scope)| == SumTo(|es|, EventLens(es, payload, scope))
    decreases |es|
  {
    hide EventEntry, Taken, EventOk;
    if es != [] {
      var f, n := Front(es), |es| - 1;
      EventsSize(f, payload, scope);
      assert forall i :: 0 <= i < n ==> f[i] == es[i] && f[..i] == es[..i];
      assert es[..n] == f;
      SumSame(n, EventLens(f, payload, scope), EventLens(es, payload, scope));
    }
  }

  ghost function ClaimLens(cs: seq<WireClaim>, payload: set<string>, scope: Scope): nat -> nat {
    (i: nat) => if i < |cs| then |ClaimEntry(cs[i], Taken(cs[..i], ClaimId(), ClaimOk(payload, scope), cs[i].id), payload, scope)| else 0
  }

  lemma {:induction false} ClaimsSize(cs: seq<WireClaim>, payload: set<string>, scope: Scope)
    ensures |ClaimLog(cs, payload, scope)| == SumTo(|cs|, ClaimLens(cs, payload, scope))
    decreases |cs|
  {
    hide ClaimEntry, Taken, ClaimOk;
    if cs != [] {
      var f, n := Front(cs), |cs| - 1;
      ClaimsSize(f, payload, scope);
      assert forall i :: 0 <= i < n ==> f[i] == cs[i] && f[..i] == cs[..i];
      assert cs[..n] == f;
      SumSame(n, ClaimLens(f, payload, scope), ClaimLens(cs, payload, scope));
    }
  }

  ghost function EdgeLens(rs: seq<WireRelationship>, payload: set<string>, claims: set<string>, scope: Scope): nat -> nat {
    (i: nat) =>
      if i < |rs| then
        |EdgeEntry(rs[i], Taken(rs[..i], EdgeOf(scope.unit), EdgeOk(payload, scope), EdgeOf(scope.unit)(rs[i])), payload, claims, scope)|
      else 0
  }

  lemma {:induction false} EdgesSize(rs: seq<WireRelationship>, payload: set<string>, claims: set<string>, scope: Scope)
    ensures |EdgeLog(rs, payload, claims, scope)| == SumTo(|rs|, EdgeLens(rs, payload, claims, scope))
    decreases |rs|
  {
    hide EdgeEntry, Taken, EdgeOk, EdgeOf;
    if rs != [] {
      var f, n := Front(rs), |rs| - 1;
      EdgesSize(f, payload, claims, scope);
      assert forall i :: 0 <= i < n ==> f[i] == rs[i] && f[..i] == rs[..i];
      assert rs[..n] == f;
      SumSame(n, EdgeLens(f, payload, claims, scope), EdgeLens(rs, payload, claims, scope));
    }
  }

  /** The link entries of event i, if it is kept. */
  ghost function LinkLens(es: seq<WireEvent>, scope: Scope, targets: set<string>): nat -> nat {
    (i: nat) => if i < |es| && FirstOk(es, EventId(), EventOk(scope), i) then LinkLen(es[i], targets) else 0
  }

  ghost function LinkLen(e: WireEvent, targets: set<string>): nat {
    |LinkLog(e.causes, e.id, targets, DanglingCause)| + |LinkLog(e.consequences, e.id, targets, DanglingConsequence)|
  }

  lemma LinksLogLast(es: seq<WireEvent>, e: WireEvent, targets: set<string>)
    ensures |LinksLog(es + [e], targets)| == |LinksLog(es, targets)| + LinkLen(e, targets)
  {
    assert Front(es + [e]) == es;
    hide LinkLog;
  }

  lemma LinkLensFront(es: seq<WireEvent>, scope: Scope, targets: set<string>)
    requires es != []
    ensures forall i: nat :: i < |es| - 1 ==> LinkLens(Front(es), scope, targets)(i) == LinkLens(es, scope, targets)(i)
    ensures LinkLens(es, scope, targets)(|es| - 1) ==
            if FirstOk(es, EventId(), EventOk(scope), |es| - 1) then LinkLen(es[|es| - 1], targets) else 0
  {
    hide FirstOk, LinkLen, EventOk, EventId;
    FirstOkFront(es, EventId(), EventOk(scope));
  }

  lemma {:induction false} AllLinksSize(es: seq<WireEvent>, scope: Scope, targets: set<string>)
    ensures |LinksLog(Keep(es, EventId(), EventOk(scope)), targets)| == SumTo(|es|, LinkLens(es, scope, targets))
    decreases |es|
  {
    if es != [] {
      var key, ok, f, n := EventId(), EventOk(scope), Front(es), |es| - 1;
      AllLinksSize(f, scope, targets);
      hide FirstOk, Keep, LinkLen, LinkLens, LinksLog, EventOk, EventId;
      KeepOneMore(es, key, ok);
      LinkLensFront(es, scope, targets);
      SumSame(n, LinkLens(f, scope, targets), LinkLens(es, scope, targets));
      LinksLogLast(Keep(f, key, ok), es[n], targets);
    }
  }

  lemma LinkLensExact(w: WireExtraction, scope: Scope, i: nat)
    requires i < |w.events|
    ensures LinkLens(w.events, scope, LinkTargets(scope, w.events))(i) == LinkCauses(w, scope, Validate(w, scope))(i)
  {
    hide LinkTargets, Validate, Loose, FirstEvent, FirstOk, LinkLog;
    var e := w.events[i];
    FirstEventExact(w, scope, i);
    LinksSize(w, scope, e.causes, e.id, DanglingCause);
    LinksSize(w, scope, e.consequences, e.id, DanglingConsequence);
  }

  /** The log has one entry for each cause, so it names none of them twice. */
  lemma DropsCountedExactly(w: WireExtraction, scope: Scope)
    ensures var v := Validate(w, scope);
            |v.drops| == SumTo(|w.entities|, EntityCauses(w)) + SumTo(|w.events|, EventCauses(w, scope, v)) +
                         SumTo(|w.events|, LinkCauses(w, scope, v)) + SumTo(|w.claims|, ClaimCauses(w, scope, v)) +
                         SumTo(|w.relationships|, EdgeCauses(w, scope, v))
  {
    var v, payload, claims, targets := Validate(w, scope), PayloadIds(w.entities), ClaimIds(ClaimsOf(w, scope)), LinkTargets(scope, w.events);
    hide *;
    DropsLength(w, scope);
    EntitiesSize(w.entities);
    EventsSize(w.events, payload, scope);
    AllLinksSize(w.events, scope, targets);
    ClaimsSize(w.claims, payload, scope);
    EdgesSize(w.relationships, payload, claims, scope);
    forall i: nat | i < |w.entities| ensures EntityLens(w.entities)(i) == EntityCauses(w)(i) { EntityLensExact(w, i); }
    SumSame(|w.entities|, EntityLens(w.entities), EntityCauses(w));
    forall i: nat | i < |w.events| ensures EventLens(w.events, payload, scope)(i) == EventCauses(w, scope, v)(i) { EventLensExact(w, scope, i); }
    SumSame(|w.events|, EventLens(w.events, payload, scope), EventCauses(w, scope, v));
    forall i: nat | i < |w.events| ensures LinkLens(w.events, scope, targets)(i) == LinkCauses(w, scope, v)(i) { LinkLensExact(w, scope, i); }
    SumSame(|w.events|, LinkLens(w.events, scope, targets), LinkCauses(w, scope, v));
    forall i: nat | i < |w.claims| ensures ClaimLens(w.claims, payload, scope)(i) == ClaimCauses(w, scope, v)(i) { ClaimLensExact(w, scope, i); }
    SumSame(|w.claims|, ClaimLens(w.claims, payload, scope), ClaimCauses(w, scope, v));
    forall i: nat | i < |w.relationships|
      ensures EdgeLens(w.relationships, payload, claims, scope)(i) == EdgeCauses(w, scope, v)(i)
    {
      EdgeLensExact(w, scope, i);
    }
    SumSame(|w.relationships|, EdgeLens(w.relationships, payload, claims, scope), EdgeCauses(w, scope, v));
  }

  lemma DropsLength(w: WireExtraction, scope: Scope)
    ensures var payload := PayloadIds(w.entities);
            |Validate(w, scope).drops| ==
            |EntityLog(w.entities)| + |EventLog(w.events, payload, scope)| +
            |LinksLog(Keep(w.events, EventId(), EventOk(scope)), LinkTargets(scope, w.events))| +
            |ClaimLog(w.claims, payload, scope)| + |EdgeLog(w.relationships, payload, ClaimIds(ClaimsOf(w, scope)), scope)|
  {
    hide EntityLog, EventLog, LinksLog, ClaimLog, EdgeLog, Keep, LinkTargets, PayloadIds, ClaimsOf, EntitiesIn, EventsIn, ClaimsIn, EdgesIn;
  }

  lemma EntityLensExact(w: WireExtraction, i: nat)
    requires i < |w.entities|
    ensures EntityLens(w.entities)(i) == EntityCauses(w)(i)
  {
    hide EntityEntry, EntityCauses, Taken;
    EntityEntrySize(w, i);
  }

  lemma EventLensExact(w: WireExtraction, scope: Scope, i: nat)
    requires i < |w.events|
    ensures EventLens(w.events, PayloadIds(w.entities), scope)(i) == EventCauses(w, scope, Validate(w, scope))(i)
  {
    hide EventEntry, EventCauses, Taken, PayloadIds, Validate;
    EventEntrySize(w, scope, i);
  }

  lemma ClaimLensExact(w: WireExtraction, scope: Scope, i: nat)
    requires i < |w.claims|
    ensures ClaimLens(w.claims, PayloadIds(w.entities), scope)(i) == ClaimCauses(w, scope, Validate(w, scope))(i)
  {
    hide ClaimEntry, ClaimCauses, Taken, PayloadIds, Validate;
    ClaimEntrySize(w, scope, i);
  }

  lemma EdgeLensExact(w: WireExtraction, scope: Scope, i: nat)
    requires i < |w.relationships|
    ensures EdgeLens(w.relationships, PayloadIds(w.entities), ClaimIds(ClaimsOf(w, scope)), scope)(i) == EdgeCauses(w, scope, Validate(w, scope))(i)
  {
    hide EdgeEntry, EdgeCauses, Taken, PayloadIds, Validate, ClaimsOf, ClaimIds;
    EdgeEntrySize(w, scope, i);
  }
}

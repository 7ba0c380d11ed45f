/** What a load stores, column by column: every record's rows, and no others. */
module LoadContents {
  import opened Basics
  import opened Units
  import opened Wire
  import opened Validation
  import opened ValidationTheorems
  import opened Tables
  import opened Loader
  import opened LoadPlan
  import opened LoadsExactly
  import opened Integrity
  import opened LoadTheorems
  import SortedKeys

  // ---------------------------------------------------------------- contents

  /** The row is the first citation of the source. */
  ghost predicate FirstCite(cs: seq<Citation>, source: string, row: CiteRow) {
    exists i :: 0 <= i < |cs| && cs[i].sourceId == source && CiteColumns(row, cs[i])
                && forall j :: 0 <= j < i ==> cs[j].sourceId != source
  }

  ghost predicate Mentions(cs: seq<Citation>, source: string) {
    exists c :: c in cs && c.sourceId == source
  }

  /** The statement is the one given last for the tradition. */
  ghost predicate LastVersion(vs: seq<ClaimVersionRecord>, tradition: string, text: string) {
    exists i :: 0 <= i < |vs| && vs[i].tradition == tradition && vs[i].statement == text
                && forall j :: i < j < |vs| ==> vs[j].tradition != tradition
  }

  /** The row is the first citation of the source among the versions of the tradition. */
  ghost predicate FirstPinned(vs: seq<ClaimVersionRecord>, tradition: string, source: string, row: CiteRow) {
    exists i :: 0 <= i < |vs| && vs[i].tradition == tradition && FirstCite(vs[i].sources, source, row)
                && forall j :: 0 <= j < i && vs[j].tradition == tradition ==> !Mentions(vs[j].sources, source)
  }

  /** The event's columns, its participants with their roles, its causal links and its first citation of each source. */
  ghost predicate EventHeld(db: Db, e: EventRecord) {
    && e.id in db.events && EventColumns(db.events[e.id], e)
    && (forall p :: p in e.participants ==>
          (e.id, p.entityId) in db.participants && db.participants[(e.id, p.entityId)] == p.role)
    && (forall c :: c in e.causes ==> LinkKey(c, e.id, "cause") in db.links)
    && (forall c :: c in e.consequences ==> LinkKey(e.id, c, "cause") in db.links)
    && (forall c :: c in e.sources ==>
          (e.id, c.sourceId) in db.eventSources && FirstCite(e.sources, c.sourceId, db.eventSources[(e.id, c.sourceId)]))
  }

  /** The claim's columns, its first citation of each source, and its versions with theirs. */
  ghost predicate ClaimHeld(db: Db, c: ClaimRecord) {
    && c.id in db.claims && ClaimColumns(db.claims[c.id], c)
    && (forall x :: x in c.sources ==>
          var k := ClaimSourceKey(c.id, None, x.sourceId);
          k in db.claimSources && FirstCite(c.sources, x.sourceId, db.claimSources[k]))
    && (forall x :: x in c.versions ==>
          var v := VersionKey(c.id, x.tradition);
          v in db.versions && LastVersion(c.versions, x.tradition, db.versions[v].statement)
          && forall y :: y in x.sources ==>
               var k := ClaimSourceKey(c.id, Some(db.versions[v].id), y.sourceId);
               k in db.claimSources && FirstPinned(c.versions, x.tradition, y.sourceId, db.claimSources[k]))
  }

  /** Entities, names, edges and register entries are there under their keys; an earlier row keeps its columns. */
  ghost predicate KeysHeld(db: Db, v: Validated) {
    && (forall e :: e in v.entities ==> e.id in db.entities && forall n :: n in e.names ==> (e.id, n.name) in db.names)
    && (forall r :: r in v.relationships ==> RelationshipKey(r.fromEntityId, r.toEntityId, r.relType) in db.relationships)
    && (forall k :: k in v.contradictions ==>
          k.id in db.contradictions && ContradictionClaimKey(k.id, k.claimId, None) in db.contradictionClaims)
  }

  /** The graph holds everything v says. */
  ghost predicate RowsHold(db: Db, v: Validated) {
    && KeysHeld(db, v) && (forall e :: e in v.events ==> EventHeld(db, e)) && (forall c :: c in v.claims ==> ClaimHeld(db, c))
  }

  /** A new row under the claim's key is its citation as a whole or of one of its versions. */
  ghost predicate CiteAdded(b: Db, c: ClaimRecord, k: ClaimSourceKey, row: CiteRow) {
    && k.claim == c.id
    && if k.version.None? then FirstCite(c.sources, k.source, row)
       else exists x :: x in c.versions && VersionKey(c.id, x.tradition) in b.versions
                        && b.versions[VersionKey(c.id, x.tradition)].id == k.version.value
                        && FirstPinned(c.versions, x.tradition, k.source, row)
  }

  /** b has no row that a lacks but those v calls for. */
  ghost predicate AddsOnly(a: Db, b: Db, v: Validated) {
    && b.sources == a.sources && b.relTypes == a.relTypes
    && (forall s :: NewRow(a, b, s) ==> Planned(v, s))
    && (forall k :: k in b.links && k !in a.links ==> exists e :: e in v.events && LinkOf(e, k))
    && (forall k :: k in b.eventSources && k !in a.eventSources ==>
          exists e :: e in v.events && e.id == k.0 && FirstCite(e.sources, k.1, b.eventSources[k]))
    && (forall k :: k in b.versions && k !in a.versions ==>
          exists c :: c in v.claims && c.id == k.claim && LastVersion(c.versions, k.tradition, b.versions[k].statement))
    && (forall k :: k in b.claimSources && k !in a.claimSources ==>
          exists c :: c in v.claims && CiteAdded(b, c, k, b.claimSources[k]))
  }

  // ------------------------------------------------------- runs of citations

  /** The first citation of a source takes its row. */
  lemma {:induction false} EventCitesStored(db: Db, id: string, cs: seq<Citation>, source: string)
    requires ExecAll(db, EventCiteStmts(id, cs)).Some? && (id, source) !in db.eventSources && Mentions(cs, source)
    ensures var rows := ExecAll(db, EventCiteStmts(id, cs)).value.eventSources;
            (id, source) in rows && FirstCite(cs, source, rows[(id, source)])
    decreases |cs|
  {
    hide Exec;
    var s, rest := InsEventSource(id, cs[0]), EventCiteStmts(id, cs[1..]);
    ExecStep(db, s, rest);
    var next := Exec(db, s).value;
    ExecCitations(db, s);
    ExecAllGrows(next, rest);
    if cs[0].sourceId != source {
      assert cs == [cs[0]] + cs[1..];
      EventCitesStored(next, id, cs[1..], source);
      FirstCiteShift(cs, source, ExecAll(next, rest).value.eventSources[(id, source)]);
    }
  }

  lemma FirstCiteShift(cs: seq<Citation>, source: string, row: CiteRow)
    requires cs != [] && cs[0].sourceId != source && FirstCite(cs[1..], source, row)
    ensures FirstCite(cs, source, row)
  {
    var i :| 0 <= i < |cs[1..]| && cs[1..][i].sourceId == source && CiteColumns(row, cs[1..][i])
             && forall j :: 0 <= j < i ==> cs[1..][j].sourceId != source;
    assert cs[i + 1] == cs[1..][i];
    forall j | 0 <= j < i + 1
      ensures cs[j].sourceId != source
    {
      if j > 0 { assert cs[j] == cs[1..][j - 1]; }
    }
  }

  /** The key a claim citation is stored under. */
  ghost function CiteKey(db: Db, s: Stmt): ClaimSourceKey
    requires s.InsClaimSource? && Pinned(db, s)
  {
    ClaimSourceKey(s.claimId, PinId(db, s.claimId, s.pin), s.cite.sourceId)
  }

  lemma ExecClaimCite(db: Db, s: Stmt)
    requires s.InsClaimSource? && Exec(db, s).Some?
    ensures var next := Exec(db, s).value;
            && next.versions == db.versions
            && next.claimSources == (if CiteKey(db, s) in db.claimSources then db.claimSources
                                     else db.claimSources[CiteKey(db, s) := CiteRowOf(s.cite)])
  {
    hide Refs, Has, CiteRowOf;
  }

  /** A run of citations under one pin adds the first of each source under that pin, and nothing else. */
  lemma {:induction false} ClaimCitesStored(db: Db, id: string, pin: Option<string>, cs: seq<Citation>)
    requires ExecAll(db, ClaimCiteStmts(id, pin, cs)).Some? && (pin.Some? ==> VersionKey(id, pin.value) in db.versions)
    ensures var after := ExecAll(db, ClaimCiteStmts(id, pin, cs)).value;
            && after.versions == db.versions
            && (forall k :: k in after.claimSources && k !in db.claimSources ==>
                  k.claim == id && k.version == PinId(db, id, pin) && Mentions(cs, k.source)
                  && FirstCite(cs, k.source, after.claimSources[k]))
    decreases |cs|
  {
    if cs != [] {
      hide Exec, PinId, CiteRowOf;
      var s, rest := InsClaimSource(id, pin, cs[0]), ClaimCiteStmts(id, pin, cs[1..]);
      ExecStep(db, s, rest);
      var next := Exec(db, s).value;
      ExecClaimCite(db, s);
      assert PinId(next, id, pin) == PinId(db, id, pin) by { SamePin(db, next, id, pin); }
      ClaimCitesStored(next, id, pin, cs[1..]);
      ExecAllGrows(next, rest);
      var after := ExecAll(next, rest).value;
      assert cs == [cs[0]] + cs[1..];
      forall k | k in after.claimSources && k !in db.claimSources
        ensures k.claim == id && k.version == PinId(db, id, pin) && Mentions(cs, k.source)
        ensures FirstCite(cs, k.source, after.claimSources[k])
      {
        if k in next.claimSources {
          CiteRowColumns(cs[0]);
        } else {
          FirstCiteShift(cs, k.source, after.claimSources[k]);
        }
      }
    }
  }

  lemma SamePin(a: Db, b: Db, id: string, pin: Option<string>)
    requires a.versions == b.versions && (pin.Some? ==> VersionKey(id, pin.value) in a.versions)
    ensures PinId(a, id, pin) == PinId(b, id, pin)
  {
  }

  lemma CiteRowColumns(c: Citation)
    ensures CiteColumns(CiteRowOf(c), c)
  {
  }

  // ------------------------------------------------------- runs of versions

  /** Every tradition ends with the statement given last. */
  lemma {:induction false} VersionsStored(db: Db, id: string, vs: seq<ClaimVersionRecord>)
    requires ExecAll(db, VersionStmts(id, vs)).Some?
    ensures var after := ExecAll(db, VersionStmts(id, vs)).value;
            && after.claimSources == db.claimSources
            && forall x :: x in vs ==>
                 VersionKey(id, x.tradition) in after.versions
                 && LastVersion(vs, x.tradition, after.versions[VersionKey(id, x.tradition)].statement)
    decreases |vs|
  {
    if vs != [] {
      hide Exec;
      var s, rest := InsVersion(VersionKey(id, vs[0].tradition), vs[0].statement), VersionStmts(id, vs[1..]);
      ExecStep(db, s, rest);
      var next := Exec(db, s).value;
      ExecVersionRow(db, s);
      VersionsStored(next, id, vs[1..]);
      assert vs == [vs[0]] + vs[1..];
      var after := ExecAll(next, rest).value;
      forall x | x in vs
        ensures var k := VersionKey(id, x.tradition);
                k in after.versions && LastVersion(vs, x.tradition, after.versions[k].statement)
      {
        if y :| y in vs[1..] && y.tradition == x.tradition {
          LastVersionShift(vs, x.tradition, after.versions[VersionKey(id, x.tradition)].statement);
        } else {
          forall t | t in rest && t.InsVersion?
            ensures t.version != VersionKey(id, x.tradition)
          {
            VersionStmtsAre(id, vs[1..], t);
          }
          VersionStatementKept(next, rest, VersionKey(id, x.tradition));
        }
      }
    }
  }

  lemma LastVersionShift(vs: seq<ClaimVersionRecord>, tradition: string, text: string)
    requires vs != [] && LastVersion(vs[1..], tradition, text)
    ensures LastVersion(vs, tradition, text)
  {
    var i :| 0 <= i < |vs[1..]| && vs[1..][i].tradition == tradition && vs[1..][i].statement == text
             && forall j :: i < j < |vs[1..]| ==> vs[1..][j].tradition != tradition;
    assert vs[i + 1] == vs[1..][i];
    forall j | i + 1 < j < |vs|
      ensures vs[j].tradition != tradition
    {
      assert vs[j] == vs[1..][j - 1];
    }
  }

  lemma ExecVersionRow(db: Db, s: Stmt)
    requires s.InsVersion? && Exec(db, s).Some?
    ensures var next := Exec(db, s).value;
            next.claimSources == db.claimSources && s.version in next.versions && next.versions[s.version].statement == s.statement
  {
    hide Refs, Has, Insert, OnConflict;
    VersionUpdates(db, s.version, s.statement);
    if Conflicts(db, s) { OnConflictCitations(db, s); } else { InsertCitations(db, s); }
  }

  /** The pinned citations of a claim that has none yet: the first of each source for each tradition, and nothing else. */
  lemma {:induction false} PinsStored(db: Db, id: string, vs: seq<ClaimVersionRecord>)
    requires ExecAll(db, VersionCiteStmts(id, vs)).Some?
    requires forall x :: x in vs ==> VersionKey(id, x.tradition) in db.versions
    ensures var after := ExecAll(db, VersionCiteStmts(id, vs)).value;
            && after.versions == db.versions
            && (forall k :: k in after.claimSources && k !in db.claimSources ==> PinnedRow(db, id, vs, k, after.claimSources[k]))
    decreases |vs|
  {
    if vs != [] {
      hide Exec, ExecAll, PinId;
      var pin := Some(vs[0].tradition);
      var head, rest := ClaimCiteStmts(id, pin, vs[0].sources), VersionCiteStmts(id, vs[1..]);
      assert vs == [vs[0]] + vs[1..];
      ExecConcat(db, head, rest);
      var mid := ExecAll(db, head).value;
      ClaimCitesStored(db, id, pin, vs[0].sources);
      PinsStored(mid, id, vs[1..]);
      ExecAllGrows(mid, rest);
      var after := ExecAll(mid, rest).value;
      forall k | k in after.claimSources && k !in db.claimSources
        ensures PinnedRow(db, id, vs, k, after.claimSources[k])
      {
        if k in mid.claimSources {
          PinIdOf(db, id, vs[0].tradition);
          assert FirstPinned(vs, vs[0].tradition, k.source, after.claimSources[k]);
        } else {
          PinnedLater(mid, id, vs, k, after.claimSources[k], db, head);
        }
      }
    }
  }

  /** Still the first among all versions: had the head mentioned its source, the row would be the head's. */
  lemma PinnedLater(mid: Db, id: string, vs: seq<ClaimVersionRecord>, k: ClaimSourceKey, row: CiteRow, db: Db, head: seq<Stmt>)
    requires vs != [] && head == ClaimCiteStmts(id, Some(vs[0].tradition), vs[0].sources) && ExecAll(db, head) == Some(mid)
    requires PinnedRow(mid, id, vs[1..], k, row) && k !in mid.claimSources && mid.versions == db.versions
    ensures PinnedRow(db, id, vs, k, row)
  {
    hide ExecAll;
    var x :| x in vs[1..] && VersionKey(id, x.tradition) in mid.versions
             && k.version == Some(mid.versions[VersionKey(id, x.tradition)].id) && FirstPinned(vs[1..], x.tradition, k.source, row);
    if c :| vs[0].tradition == x.tradition && c in vs[0].sources && c.sourceId == k.source {
      var s := InsClaimSource(id, Some(x.tradition), c);
      ClaimCiteStmtsAre(id, Some(x.tradition), vs[0].sources, s);
      ExecAllPresent(db, head, s);
      assert false;
    }
    var i :| 0 <= i < |vs[1..]| && vs[1..][i].tradition == x.tradition && FirstCite(vs[1..][i].sources, k.source, row)
             && forall j :: 0 <= j < i && vs[1..][j].tradition == x.tradition ==> !Mentions(vs[1..][j].sources, k.source);
    assert vs[i + 1] == vs[1..][i];
    forall j | 0 <= j < i + 1 && vs[j].tradition == x.tradition
      ensures !Mentions(vs[j].sources, k.source)
    {
      if j > 0 { assert vs[j] == vs[1..][j - 1]; }
    }
    assert FirstPinned(vs, x.tradition, k.source, row);
    assert x in vs;
  }

  /** The row is the first citation of its source for the version its key pins. */
  ghost predicate PinnedRow(db: Db, id: string, vs: seq<ClaimVersionRecord>, k: ClaimSourceKey, row: CiteRow) {
    k.claim == id && exists x :: x in vs && VersionKey(id, x.tradition) in db.versions
                              && k.version == Some(db.versions[VersionKey(id, x.tradition)].id)
                              && FirstPinned(vs, x.tradition, k.source, row)
  }

  lemma PinIdOf(db: Db, id: string, tradition: string)
    requires VersionKey(id, tradition) in db.versions
    ensures PinId(db, id, Some(tradition)) == Some(db.versions[VersionKey(id, tradition)].id)
  {
  }

  // ------------------------------------------------ one record in the plan

  /** Ids of events and claims are distinct and new to the store, and no event gives an entity two roles. */
  ghost predicate Fresh(db: Db, v: Validated) {
    && (forall e, p, q :: e in v.events && p in e.participants && q in e.participants && p.entityId == q.entityId ==> p == q)
    && (forall m, n :: 0 <= m < n < |v.events| ==> v.events[m].id != v.events[n].id)
    && (forall m, n :: 0 <= m < n < |v.claims| ==> v.claims[m].id != v.claims[n].id)
    && (forall e :: e in v.events ==> e.id !in db.events)
    && (forall c :: c in v.claims ==> c.id !in db.claims)
  }

  lemma EventDetailsOf(es: seq<EventRecord>, s: Stmt)
    requires s in FlatMap(es, EventDetailStmts)
    ensures !s.InsVersion? && !s.InsClaimSource?
    ensures s.InsEventSource? ==> exists e :: e in es && e.id == s.eventId
  {
    FlatMapIn(es, EventDetailStmts, s);
    var e :| e in es && s in EventDetailStmts(e);
    DetailStmtsAre(e, s);
  }

  lemma ClaimsOfPlan(cs: seq<ClaimRecord>, s: Stmt)
    requires s in FlatMap(cs, ClaimStmts)
    ensures s.InsVersion? ==> exists c :: c in cs && c.id == s.version.claim
    ensures s.InsClaimSource? ==> exists c :: c in cs && c.id == s.claimId
  {
    FlatMapIn(cs, ClaimStmts, s);
    var c :| c in cs && s in ClaimStmts(c);
    ClaimStmtsAre(c, s);
  }

  /** Rows without citations or versions. */
  lemma PlainRows(v: Validated, s: Stmt)
    requires || s in FlatMap(v.entities, EntityStmts) || s in FlatMap(v.events, EventStmts)
             || s in FlatMap(v.relationships, RelationshipStmts) || s in FlatMap(v.contradictions, ContradictionStmts)
    ensures !s.InsEventSource? && !s.InsVersion? && !s.InsClaimSource?
  {
    FlatMapIn(v.entities, EntityStmts, s);
    FlatMapIn(v.events, EventStmts, s);
    FlatMapIn(v.relationships, RelationshipStmts, s);
    FlatMapIn(v.contradictions, ContradictionStmts, s);
    hide EntityStmts;
    if e :| e in v.entities && s in EntityStmts(e) { EntityStmtsAre(e, s); }
  }

  lemma Assoc<T>(a: seq<T>, b: seq<T>, c: seq<T>)
    ensures a + (b + c) == a + b + c
  {
  }

  /** The statements before the citations of event n. */
  ghost function BeforeCites(v: Validated, n: nat): seq<Stmt>
    requires n < |v.events|
  {
    FlatMap(v.entities, EntityStmts) + FlatMap(v.events, EventStmts) + FlatMap(v.events[..n], EventDetailStmts)
    + LinkStmts(v.events[n])
  }

  ghost function LinkStmts(e: EventRecord): seq<Stmt> {
    ParticipantStmts(e.id, e.participants) + CauseStmts(e.id, e.causes) + ConsequenceStmts(e.id, e.consequences)
  }

  lemma NoneBeforeCites(v: Validated, n: nat, s: Stmt)
    requires n < |v.events| && s in BeforeCites(v, n) && s.InsEventSource?
    ensures exists j :: 0 <= j < n && v.events[j].id == s.eventId
  {
    var e := v.events[n];
    hide EntityStmts, EventStmts, EventDetailStmts;
    if s in FlatMap(v.events[..n], EventDetailStmts) {
      EventDetailsOf(v.events[..n], s);
    } else if s in LinkStmts(e) {
      ParticipantStmtsAre(e.id, e.participants, s);
      LinkStmtsAre(e.id, e.causes, s);
      LinkStmtsAre(e.id, e.consequences, s);
    } else {
      PlainRows(v, s);
    }
  }

  /** Where the citations of event n stand in the plan. */
  lemma EventSplit(v: Validated, n: nat) returns (b: seq<Stmt>)
    requires n < |v.events|
    ensures Plan(v) == BeforeCites(v, n) + (EventCiteStmts(v.events[n].id, v.events[n].sources) + b)
  {
    var e := v.events[n];
    FlatMapAround(v.events, EventDetailStmts, n);
    hide FlatMap, EventDetailStmts, EventCiteStmts, LinkStmts, Plan;
    var ent, ev := FlatMap(v.entities, EntityStmts), FlatMap(v.events, EventStmts);
    var before, later := FlatMap(v.events[..n], EventDetailStmts), FlatMap(v.events[n + 1..], EventDetailStmts);
    var links, cites := LinkStmts(e), EventCiteStmts(e.id, e.sources);
    var rest := FlatMap(v.claims, ClaimStmts) + (FlatMap(v.relationships, RelationshipStmts) + FlatMap(v.contradictions, ContradictionStmts));
    b := later + rest;
    DetailParts(e);
    PlanAroundDetails(v);
    EventsRegrouped(ent, ev, before, links, cites, later, rest);
  }

  lemma DetailParts(e: EventRecord)
    ensures EventDetailStmts(e) == LinkStmts(e) + EventCiteStmts(e.id, e.sources)
  {
  }

  lemma PlanAroundDetails(v: Validated)
    ensures Plan(v) == FlatMap(v.entities, EntityStmts) + (FlatMap(v.events, EventStmts) + (FlatMap(v.events, EventDetailStmts) +
                       (FlatMap(v.claims, ClaimStmts) + (FlatMap(v.relationships, RelationshipStmts) + FlatMap(v.contradictions, ContradictionStmts)))))
  {
  }

  lemma EventsRegrouped<T>(ent: seq<T>, ev: seq<T>, before: seq<T>, links: seq<T>, cites: seq<T>, later: seq<T>, rest: seq<T>)
    ensures ent + (ev + ((before + ((links + cites) + later)) + rest)) == ent + ev + before + links + (cites + (later + rest))
  {
    Assoc(links, cites, later);
    Assoc(before, links, cites + later);
    Assoc(before + links, cites + later, rest);
    Assoc(cites, later, rest);
    var tail := cites + (later + rest);
    Assoc(ev, before + links, tail);
    Assoc(ev, before, links);
    Assoc(ent, ev + before + links, tail);
    Assoc(ent, ev + before, links);
    Assoc(ent, ev, before);
  }

  /** The statements before the versions of claim n, and those after its last citation. */
  ghost function BeforeClaim(v: Validated, n: nat): seq<Stmt>
    requires n < |v.claims|
  {
    FlatMap(v.entities, EntityStmts) + FlatMap(v.events, EventStmts) + FlatMap(v.events, EventDetailStmts)
    + FlatMap(v.claims[..n], ClaimStmts) + [InsClaim(v.claims[n].id, ClaimRowOf(v.claims[n]))]
  }

  ghost function AfterClaim(v: Validated, n: nat): seq<Stmt>
    requires n < |v.claims|
  {
    FlatMap(v.claims[n + 1..], ClaimStmts) + (FlatMap(v.relationships, RelationshipStmts) + FlatMap(v.contradictions, ContradictionStmts))
  }

  lemma OtherClaims(v: Validated, n: nat, s: Stmt)
    requires n < |v.claims| && (s in BeforeClaim(v, n) || s in AfterClaim(v, n))
    ensures OtherClaim(v, n, s)
  {
    hide EntityStmts, EventStmts, EventDetailStmts, ClaimStmts, ClaimRowOf;
    if s in FlatMap(v.claims[..n], ClaimStmts) {
      ClaimsOfPlan(v.claims[..n], s);
    } else if s in FlatMap(v.claims[n + 1..], ClaimStmts) {
      ClaimsOfPlan(v.claims[n + 1..], s);
    } else if s in FlatMap(v.events, EventDetailStmts) {
      EventDetailsOf(v.events, s);
    } else if !s.InsClaim? {
      PlainRows(v, s);
    }
  }

  /** Where the versions and citations of claim n stand in the plan. */
  lemma ClaimSplit(v: Validated, n: nat)
    requires n < |v.claims|
    ensures var c := v.claims[n];
            Plan(v) == BeforeClaim(v, n) + (VersionStmts(c.id, c.versions) +
                       (ClaimCiteStmts(c.id, None, c.sources) + (VersionCiteStmts(c.id, c.versions) + AfterClaim(v, n))))
  {
    var c := v.claims[n];
    FlatMapAround(v.claims, ClaimStmts, n);
    ClaimParts(c);
    PlanAroundDetails(v);
    hide FlatMap, ClaimStmts, VersionStmts, ClaimCiteStmts, VersionCiteStmts, Plan;
    ClaimsRegrouped(FlatMap(v.entities, EntityStmts), FlatMap(v.events, EventStmts), FlatMap(v.events, EventDetailStmts),
                    FlatMap(v.claims[..n], ClaimStmts), [InsClaim(c.id, ClaimRowOf(c))],
                    VersionStmts(c.id, c.versions), ClaimCiteStmts(c.id, None, c.sources), VersionCiteStmts(c.id, c.versions),
                    FlatMap(v.claims[n + 1..], ClaimStmts), FlatMap(v.relationships, RelationshipStmts) + FlatMap(v.contradictions, ContradictionStmts));
  }

  lemma ClaimParts(c: ClaimRecord)
    ensures ClaimStmts(c) == [InsClaim(c.id, ClaimRowOf(c))] +
                             (VersionStmts(c.id, c.versions) + (ClaimCiteStmts(c.id, None, c.sources) + VersionCiteStmts(c.id, c.versions)))
  {
    Assoc([InsClaim(c.id, ClaimRowOf(c))], VersionStmts(c.id, c.versions), ClaimCiteStmts(c.id, None, c.sources));
    Assoc(VersionStmts(c.id, c.versions), ClaimCiteStmts(c.id, None, c.sources), VersionCiteStmts(c.id, c.versions));
  }

  lemma ClaimsRegrouped<T>(ent: seq<T>, ev: seq<T>, details: seq<T>, before: seq<T>, row: seq<T>, versions: seq<T>, cites: seq<T>, pins: seq<T>, later: seq<T>, rest: seq<T>)
    ensures ent + (ev + (details + ((before + ((row + (versions + (cites + pins))) + later)) + rest))) ==
            ent + ev + details + before + row + (versions + (cites + (pins + (later + rest))))
  {
    var own, tail := versions + (cites + pins), later + rest;
    Assoc(row, own, later);
    Assoc(before, row, own + later);
    Assoc(before + row, own + later, rest);
    Assoc(own, later, rest);
    Assoc(versions, cites + pins, tail);
    Assoc(cites, pins, tail);
    Assoc(details, before + row, own + tail);
    Assoc(details, before, row);
    Assoc(ev, details + before + row, own + tail);
    Assoc(ev, details + before, row);
    Assoc(ev, details, before);
    Assoc(ent, ev + details + before + row, own + tail);
    Assoc(ent, ev + details + before, row);
    Assoc(ent, ev + details, before);
    Assoc(ent, ev, details);
  }

  /** A version or citation of another claim. */
  ghost predicate OtherClaim(v: Validated, n: nat, s: Stmt) {
    && (s.InsVersion? ==> exists j :: 0 <= j < |v.claims| && j != n && v.claims[j].id == s.version.claim)
    && (s.InsClaimSource? ==> exists j :: 0 <= j < |v.claims| && j != n && v.claims[j].id == s.claimId)
  }

  // ------------------------------------------------------- what a load holds

  lemma EventCiteHeld(db: Db, v: Validated, n: nat, source: string)
    requires Sound(db) && Fresh(db, v) && Load(db, v).Some? && n < |v.events| && Mentions(v.events[n].sources, source)
    ensures var k, rows := (v.events[n].id, source), Load(db, v).value.eventSources;
            k in rows && FirstCite(v.events[n].sources, source, rows[k])
  {
    hide Plan, ExecAll, Sound, BeforeCites, FirstCite;
    var e, k := v.events[n], (v.events[n].id, source);
    var a, m := BeforeCites(v, n), EventCiteStmts(e.id, e.sources);
    var b := EventSplit(v, n);
    ExecConcat(db, a, m + b);
    var mid := ExecAll(db, a).value;
    ExecConcat(mid, m, b);
    if k in mid.eventSources {
      if k in db.eventSources { EventCitesSound(db, k); }
      EventSourceOrigin(db, a, k);
      var s :| s in a && s.InsEventSource? && (s.eventId, s.cite.sourceId) == k && mid.eventSources[k] == CiteRowOf(s.cite);
      NoneBeforeCites(v, n, s);
      assert false;
    }
    EventCitesStored(mid, e.id, e.sources, source);
    ExecAllGrows(ExecAll(mid, m).value, b);
  }

  lemma EventCitesSound(db: Db, k: (string, string))
    requires Sound(db) && k in db.eventSources
    ensures k.0 in db.events
  {
  }

  /** What claim n leaves: its versions, and under its key only its own citations. */
  lemma ClaimStages(db: Db, v: Validated, n: nat)
    requires Sound(db) && Fresh(db, v) && Load(db, v).Some? && n < |v.claims|
    ensures var c, after := v.claims[n], Load(db, v).value;
            && (forall x :: x in c.versions ==>
                    VersionKey(c.id, x.tradition) in after.versions
                    && LastVersion(c.versions, x.tradition, after.versions[VersionKey(c.id, x.tradition)].statement))
            && (forall k :: k in after.claimSources && k.claim == c.id ==> CiteAdded(after, c, k, after.claimSources[k]))
  {
    hide Plan, ExecAll, Sound, BeforeClaim, AfterClaim, FirstCite, LastVersion, FirstPinned, OtherClaim, CiteAdded, Grows, PinnedRow, Mentions;
    var c, after := v.claims[n], Load(db, v).value;
    var a, m1, m2, m3, b := BeforeClaim(v, n), VersionStmts(c.id, c.versions), ClaimCiteStmts(c.id, None, c.sources), VersionCiteStmts(c.id, c.versions), AfterClaim(v, n);
    ClaimSplit(v, n);
    ExecConcat(db, a, m1 + (m2 + (m3 + b)));
    var s0 := ExecAll(db, a).value;
    ExecConcat(s0, m1, m2 + (m3 + b));
    var s1 := ExecAll(s0, m1).value;
    ExecConcat(s1, m2, m3 + b);
    var s2 := ExecAll(s1, m2).value;
    ExecConcat(s2, m3, b);
    var s3 := ExecAll(s2, m3).value;
    assert ExecAll(s3, b) == Some(after);
    VersionsStored(s0, c.id, c.versions);
    ClaimCitesStored(s1, c.id, None, c.sources);
    PinsStored(s2, c.id, c.versions);
    forall s | s in a || s in b
      ensures s.InsVersion? ==> s.version.claim != c.id
      ensures s.InsClaimSource? ==> s.claimId != c.id
    {
      OtherClaims(v, n, s);
      OtherId(v, n, s);
    }
    forall x | x in c.versions
      ensures VersionKey(c.id, x.tradition) in after.versions
      ensures after.versions[VersionKey(c.id, x.tradition)] == s1.versions[VersionKey(c.id, x.tradition)]
    {
      VersionStatementKept(s3, b, VersionKey(c.id, x.tradition));
    }
    ExecAllGrows(s3, b);
    ExecAllGrows(s2, m3);
    ExecAllGrows(s1, m2);
    forall k | k in after.claimSources && k.claim == c.id
      ensures CiteAdded(after, c, k, after.claimSources[k])
    {
      if k !in s3.claimSources {
        CiteFromElsewhere(s3, b, c.id, k);
      } else if k !in s2.claimSources {
        GrownCite(s3, after, k);
        PinAdded(s2, after, c, k, s3.claimSources[k]);
      } else if k !in s1.claimSources {
        GrownCite(s2, s3, k);
        GrownCite(s3, after, k);
        PlainAdded(s1, after, c, k, s2.claimSources[k]);
      } else {
        if k in db.claimSources { ClaimCitesSound(db, k); }
        CiteFromElsewhere(db, a, c.id, k);
      }
    }
  }

  lemma CiteFromElsewhere(db: Db, stmts: seq<Stmt>, id: string, k: ClaimSourceKey)
    requires forall s :: s in stmts && s.InsClaimSource? ==> s.claimId != id
    requires ExecAll(db, stmts).Some? && k in ExecAll(db, stmts).value.claimSources && k.claim == id
    ensures k in db.claimSources
  {
    if k !in db.claimSources { ClaimSourceOrigin(db, stmts, k); }
  }

  lemma ClaimCitesSound(db: Db, k: ClaimSourceKey)
    requires Sound(db) && k in db.claimSources
    ensures k.claim in db.claims
  {
  }

  lemma GrownCite(a: Db, b: Db, k: ClaimSourceKey)
    requires Grows(a, b) && k in a.claimSources
    ensures k in b.claimSources && b.claimSources[k] == a.claimSources[k]
  {
  }

  lemma PinAdded(s: Db, after: Db, c: ClaimRecord, k: ClaimSourceKey, row: CiteRow)
    requires PinnedRow(s, c.id, c.versions, k, row)
    requires forall x :: x in c.versions && VersionKey(c.id, x.tradition) in s.versions ==>
               VersionKey(c.id, x.tradition) in after.versions
               && after.versions[VersionKey(c.id, x.tradition)] == s.versions[VersionKey(c.id, x.tradition)]
    ensures CiteAdded(after, c, k, row)
  {
  }

  lemma PlainAdded(s: Db, after: Db, c: ClaimRecord, k: ClaimSourceKey, row: CiteRow)
    requires k.claim == c.id && k.version == PinId(s, c.id, None) && FirstCite(c.sources, k.source, row)
    ensures CiteAdded(after, c, k, row)
  {
  }

  lemma OtherId(v: Validated, n: nat, s: Stmt)
    requires n < |v.claims| && OtherClaim(v, n, s)
    requires forall i, j :: 0 <= i < j < |v.claims| ==> v.claims[i].id != v.claims[j].id
    ensures s.InsVersion? ==> s.version.claim != v.claims[n].id
    ensures s.InsClaimSource? ==> s.claimId != v.claims[n].id
  {
  }

  lemma SameEvent(db: Db, v: Validated, a: EventRecord, b: EventRecord)
    requires Fresh(db, v) && a in v.events && b in v.events && a.id == b.id
    ensures a == b
  {
  }

  lemma SameClaim(db: Db, v: Validated, a: ClaimRecord, b: ClaimRecord)
    requires Fresh(db, v) && a in v.claims && b in v.claims && a.id == b.id
    ensures a == b
  {
  }

  /** Every statement of the plan leaves its row. */
  lemma DetailPresent(db: Db, v: Validated, e: EventRecord, s: Stmt)
    requires Load(db, v).Some? && e in v.events && OfDetail(e, s)
    ensures Present(Load(db, v).value, s)
  {
    hide Plan, ExecAll, OfDetail, Present;
    PlannedExactly(v, s);
    ExecAllPresent(db, Plan(v), s);
  }

  lemma EventStored(db: Db, v: Validated, e: EventRecord)
    requires Sound(db) && Fresh(db, v) && Load(db, v).Some? && e in v.events
    ensures EventHeld(Load(db, v).value, e)
  {
    hide Load, Sound, Fresh, EventColumns, FirstCite;
    var after := Load(db, v).value;
    EventRowStored(db, v, e);
    forall p | p in e.participants
      ensures (e.id, p.entityId) in after.participants && after.participants[(e.id, p.entityId)] == p.role
    {
      RoleStored(db, v, e, p);
    }
    forall c | c in e.causes ensures LinkKey(c, e.id, "cause") in after.links {
      DetailPresent(db, v, e, InsLink(LinkKey(c, e.id, "cause")));
    }
    forall c | c in e.consequences ensures LinkKey(e.id, c, "cause") in after.links {
      DetailPresent(db, v, e, InsLink(LinkKey(e.id, c, "cause")));
    }
    forall c | c in e.sources
      ensures (e.id, c.sourceId) in after.eventSources
      ensures FirstCite(e.sources, c.sourceId, after.eventSources[(e.id, c.sourceId)])
    {
      var n :| 0 <= n < |v.events| && v.events[n] == e;
      EventCiteHeld(db, v, n, c.sourceId);
    }
  }

  lemma EventRowStored(db: Db, v: Validated, e: EventRecord)
    requires Fresh(db, v) && Load(db, v).Some? && e in v.events
    ensures e.id in Load(db, v).value.events && EventColumns(Load(db, v).value.events[e.id], e)
  {
    hide Load, EventColumns;
    LoadAddsEvents(db, v);
    assert e.id in EventIds(v.events);
    NewEventRow(db, v, e.id);
    var r :| r in v.events && r.id == e.id && EventColumns(Load(db, v).value.events[e.id], r);
    SameEvent(db, v, r, e);
  }

  lemma RoleStored(db: Db, v: Validated, e: EventRecord, p: Participant)
    requires Sound(db) && Fresh(db, v) && Load(db, v).Some? && e in v.events && p in e.participants
    ensures var rows := Load(db, v).value.participants;
            (e.id, p.entityId) in rows && rows[(e.id, p.entityId)] == p.role
  {
    hide Plan, ExecAll;
    DetailPresent(db, v, e, InsParticipant(e.id, p.entityId, p.role));
    var s := InsParticipant(e.id, p.entityId, Load(db, v).value.participants[(e.id, p.entityId)]);
    assert forall k :: k in db.participants ==> k.0 in db.events;
    RowOrigin(db, Plan(v), s);
    PlannedEvent(v, s);
    var x :| x in v.events && OfDetail(x, s);
    SameEvent(db, v, x, e);
  }

  lemma ClaimStored(db: Db, v: Validated, c: ClaimRecord)
    requires Sound(db) && Fresh(db, v) && Load(db, v).Some? && c in v.claims
    ensures ClaimHeld(Load(db, v).value, c)
  {
    hide Load, Sound, Fresh, ClaimColumns, FirstCite, FirstPinned, LastVersion, CiteAdded;
    var after := Load(db, v).value;
    ClaimRowStored(db, v, c);
    var n: nat :| n < |v.claims| && v.claims[n] == c;
    ClaimStages(db, v, n);
    forall x | x in c.sources
      ensures var k := ClaimSourceKey(c.id, None, x.sourceId);
              k in after.claimSources && FirstCite(c.sources, x.sourceId, after.claimSources[k])
    {
      PlainStored(db, v, c, x);
    }
    forall x, y | x in c.versions && y in x.sources
      ensures var k := ClaimSourceKey(c.id, Some(after.versions[VersionKey(c.id, x.tradition)].id), y.sourceId);
              k in after.claimSources && FirstPinned(c.versions, x.tradition, y.sourceId, after.claimSources[k])
    {
      PinStored(db, v, c, x, y);
    }
  }

  lemma ClaimRowStored(db: Db, v: Validated, c: ClaimRecord)
    requires Fresh(db, v) && Load(db, v).Some? && c in v.claims
    ensures c.id in Load(db, v).value.claims && ClaimColumns(Load(db, v).value.claims[c.id], c)
  {
    hide Load, ClaimColumns;
    LoadAddsClaims(db, v);
    assert c.id in ClaimRecordIds(v.claims);
    NewClaimRow(db, v, c.id);
    var r :| r in v.claims && r.id == c.id && ClaimColumns(Load(db, v).value.claims[c.id], r);
    SameClaim(db, v, r, c);
  }

  ghost predicate OwnCites(db: Db, c: ClaimRecord) {
    forall k :: k in db.claimSources && k.claim == c.id ==> CiteAdded(db, c, k, db.claimSources[k])
  }

  lemma PlainStored(db: Db, v: Validated, c: ClaimRecord, x: Citation)
    requires Load(db, v).Some? && c in v.claims && x in c.sources && OwnCites(Load(db, v).value, c)
    ensures var k, rows := ClaimSourceKey(c.id, None, x.sourceId), Load(db, v).value.claimSources;
            k in rows && FirstCite(c.sources, x.sourceId, rows[k])
  {
    hide Plan, ExecAll, FirstCite;
    ClaimCitePlanned(v, c, x);
    ExecAllPresent(db, Plan(v), InsClaimSource(c.id, None, x));
  }

  /** Version ids are unique, so the row under a version's id is that version's. */
  lemma PinStored(db: Db, v: Validated, c: ClaimRecord, x: ClaimVersionRecord, y: Citation)
    requires Sound(db) && Load(db, v).Some? && c in v.claims && x in c.versions && y in x.sources && OwnCites(Load(db, v).value, c)
    ensures var after, key := Load(db, v).value, VersionKey(c.id, x.tradition);
            && key in after.versions
            && var k := ClaimSourceKey(c.id, Some(after.versions[key].id), y.sourceId);
               k in after.claimSources && FirstPinned(c.versions, x.tradition, y.sourceId, after.claimSources[k])
  {
    hide Plan, ExecAll, FirstPinned, Sound;
    var after, key := Load(db, v).value, VersionKey(c.id, x.tradition);
    VersionCitePlanned(v, c, x, y);
    ExecAllPresent(db, Plan(v), InsClaimSource(c.id, Some(x.tradition), y));
    ExecAllSound(db, Plan(v));
    PinIdOf(after, c.id, x.tradition);
    var k := ClaimSourceKey(c.id, Some(after.versions[key].id), y.sourceId);
    var z :| z in c.versions && VersionKey(c.id, z.tradition) in after.versions
             && after.versions[VersionKey(c.id, z.tradition)].id == after.versions[key].id
             && FirstPinned(c.versions, z.tradition, y.sourceId, after.claimSources[k]);
    VersionIdsUnique(after, key, VersionKey(c.id, z.tradition));
  }

  lemma VersionIdsUnique(db: Db, a: VersionKey, b: VersionKey)
    requires Sound(db) && a in db.versions && b in db.versions && db.versions[a].id == db.versions[b].id
    ensures a == b
  {
  }

  lemma KeysStored(db: Db, v: Validated)
    requires Load(db, v).Some?
    ensures KeysHeld(Load(db, v).value, v)
  {
    hide Plan, ExecAll;
    var after := Load(db, v).value;
    forall s | Planned(v, s)
      ensures Present(after, s)
    {
      PlannedExactly(v, s);
      ExecAllPresent(db, Plan(v), s);
    }
    forall e | e in v.entities
      ensures e.id in after.entities && forall n :: n in e.names ==> (e.id, n.name) in after.names
    {
      EntityKeys(after, v, e);
    }
    forall r | r in v.relationships
      ensures RelationshipKey(r.fromEntityId, r.toEntityId, r.relType) in after.relationships
    {
      var s := InsRelationship(RelationshipKey(r.fromEntityId, r.toEntityId, r.relType), Nullable(r.claimId));
      assert OfEdge(r, s) && Present(after, s);
    }
    forall k | k in v.contradictions
      ensures k.id in after.contradictions && ContradictionClaimKey(k.id, k.claimId, None) in after.contradictionClaims
    {
      var s, t := InsContradiction(k.id, ContradictionRow(k.title, k.description)), InsContradictionClaim(k.id, k.claimId, AUTO_REGISTERED);
      assert OfContradiction(k, s) && OfContradiction(k, t);
      assert Present(after, s) && Present(after, t);
    }
  }

  lemma EntityKeys(db: Db, v: Validated, e: EntityRecord)
    requires e in v.entities && forall s :: Planned(v, s) ==> Present(db, s)
    ensures e.id in db.entities && forall n :: n in e.names ==> (e.id, n.name) in db.names
  {
    var s := InsEntity(e.id, EntityRowOf(e));
    assert OfEntity(e, s) && Present(db, s);
    forall n | n in e.names
      ensures (e.id, n.name) in db.names
    {
      var t := InsName(e.id, n.name, NameRow(n.nameKind, Nullable(n.language)));
      assert OfEntity(e, t) && Present(db, t);
    }
  }

  lemma ValidatedFresh(db: Db, w: WireExtraction, scope: Scope)
    requires Matches(db, scope)
    ensures Fresh(db, Validate(w, scope))
  {
    hide EventsIn, ClaimsIn, EdgesIn, EntitiesIn, DropsOf;
    RecordIdsDistinct(w, scope);
    forall e, p, q | e in EventsIn(w, scope) && p in e.participants && q in e.participants && p.entityId == q.entityId
      ensures p == q
    {
      OneRole(w, scope, e, p, q);
    }
  }

  /** An event lists each participant with one role. */
  lemma OneRole(w: WireExtraction, scope: Scope, e: EventRecord, p: Participant, q: Participant)
    requires e in EventsIn(w, scope) && p in e.participants && q in e.participants && p.entityId == q.entityId
    ensures p == q
  {
    var kept, payload := KeptEvents(scope, w.events), PayloadIds(w.entities);
    EventRecordsAt(kept, payload, scope, LinkTargets(scope, w.events));
    var n :| 0 <= n < |kept| && EventsIn(w, scope)[n] == e;
    ParticipantsAre(SortedKeys.Sorted(kept[n].participants.Keys), kept[n].participants, payload, scope);
  }

  /** The ids of kept events and claims are new, so what is stored under them is what was validated. */
  lemma LoadHolds(db: Db, w: WireExtraction, scope: Scope)
    requires Sound(db) && Matches(db, scope) && Load(db, Validate(w, scope)).Some?
    ensures RowsHold(Load(db, Validate(w, scope)).value, Validate(w, scope))
  {
    hide Load, Validate, EventHeld, ClaimHeld, KeysHeld, Sound, Matches, Fresh;
    var v := Validate(w, scope);
    ValidatedFresh(db, w, scope);
    KeysStored(db, v);
    forall e | e in v.events ensures EventHeld(Load(db, v).value, e) { EventStored(db, v, e); }
    forall c | c in v.claims ensures ClaimHeld(Load(db, v).value, c) { ClaimStored(db, v, c); }
  }

  /** And nothing else is stored: every row that was not there is one the records call for. */
  lemma LoadAddsOnly(db: Db, w: WireExtraction, scope: Scope)
    requires Sound(db) && Matches(db, scope) && Load(db, Validate(w, scope)).Some?
    ensures AddsOnly(db, Load(db, Validate(w, scope)).value, Validate(w, scope))
  {
    hide Plan, ExecAll, Validate, Sound, Matches, Fresh, NewRow, Planned, FirstCite, LastVersion, CiteAdded, CiteRowOf, OfDetail, OfClaim, LinkOf;
    var v := Validate(w, scope);
    var after := Load(db, v).value;
    ValidatedFresh(db, w, scope);
    ExecAllGrows(db, Plan(v));
    forall s | NewRow(db, after, s)
      ensures Planned(v, s)
    {
      RowOrigin(db, Plan(v), s);
      PlannedExactly(v, s);
    }
    forall k | k in after.links && k !in db.links
      ensures exists e :: e in v.events && LinkOf(e, k)
    {
      LinkAdded(db, v, k);
    }
    forall k | k in after.eventSources && k !in db.eventSources
      ensures exists e :: e in v.events && e.id == k.0 && FirstCite(e.sources, k.1, after.eventSources[k])
    {
      var e, c := NewEventCite(db, v, k);
      var n: nat :| n < |v.events| && v.events[n] == e;
      EventCiteHeld(db, v, n, k.1);
    }
    forall k | k in after.versions && k !in db.versions
      ensures exists c :: c in v.claims && c.id == k.claim && LastVersion(c.versions, k.tradition, after.versions[k].statement)
    {
      VersionAdded(db, v, k);
    }
    forall k | k in after.claimSources && k !in db.claimSources
      ensures exists c :: c in v.claims && CiteAdded(after, c, k, after.claimSources[k])
    {
      var c, x := NewClaimCite(db, v, k);
      var n: nat :| n < |v.claims| && v.claims[n] == c;
      ClaimStages(db, v, n);
    }
  }

  lemma LinkAdded(db: Db, v: Validated, k: LinkKey)
    requires Load(db, v).Some? && k in Load(db, v).value.links && k !in db.links
    ensures exists e :: e in v.events && LinkOf(e, k)
  {
    hide Plan, ExecAll, LinkOf;
    RowOrigin(db, Plan(v), InsLink(k));
    PlannedEvent(v, InsLink(k));
  }

  lemma VersionAdded(db: Db, v: Validated, k: VersionKey)
    requires Sound(db) && Fresh(db, v) && Load(db, v).Some? && k in Load(db, v).value.versions && k !in db.versions
    ensures exists c :: c in v.claims && c.id == k.claim && LastVersion(c.versions, k.tradition, Load(db, v).value.versions[k].statement)
  {
    hide Plan, ExecAll, OfClaim, LastVersion, Fresh, Sound;
    ExecAllRefs(db, Plan(v), VersionRef(k));
    var s :| s in Plan(v) && Gives(s) == Some(VersionRef(k));
    PlannedClaim(v, s);
    var c :| c in v.claims && OfClaim(c, s);
    OfClaimId(c, s);
    var n: nat :| n < |v.claims| && v.claims[n] == c;
    ClaimStages(db, v, n);
  }

  /** Later commits leave it there. */
  lemma RowsHoldOn(a: Db, b: Db, v: Validated)
    requires RowsHold(a, v) && Preserved(a, b)
    ensures RowsHold(b, v)
  {
    hide EventHeld, ClaimHeld;
    forall e | e in v.events ensures EventHeld(b, e) { EventHeldOn(a, b, e); }
    forall c | c in v.claims ensures ClaimHeld(b, c) { ClaimHeldOn(a, b, c); }
  }

  lemma EventHeldOn(a: Db, b: Db, e: EventRecord)
    requires EventHeld(a, e) && Preserved(a, b)
    ensures EventHeld(b, e)
  {
    hide FirstCite, EventColumns;
  }

  lemma ClaimHeldOn(a: Db, b: Db, c: ClaimRecord)
    requires ClaimHeld(a, c) && Preserved(a, b)
    ensures ClaimHeld(b, c)
  {
    hide FirstCite, FirstPinned, LastVersion, ClaimColumns;
  }
}

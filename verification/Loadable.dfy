/** When loading succeeds: the referential closure of a batch of records, and exactly when validation yields one. */
module Loadable {
  import opened Basics
  import opened Units
  import opened Wire
  import opened Validation
  import opened ValidationTheorems
  import opened Tables
  import opened Loader

  // ------------------------------------------------- what records may name

  /** The rows that records may refer to. */
  datatype Targets = Targets(
    entities: set<string>, events: set<string>, claims: set<string>, sources: set<string>, relTypes: set<string>)

  ghost predicate OptIn(id: string, ids: set<string>) {
    id == "" || id in ids
  }

  ghost predicate CitesIn(cs: seq<Citation>, t: Targets) {
    forall c :: c in cs ==> c.sourceId in t.sources
  }

  ghost predicate EntityFits(e: EntityRecord, t: Targets) {
    e.id in t.entities && forall n :: n in e.names ==> NameKindCheck(n.nameKind)
  }

  ghost predicate EventFits(e: EventRecord, t: Targets) {
    && e.id in t.events
    && OptIn(e.locationEntityId, t.entities)
    && (forall p :: p in e.participants ==> p.entityId in t.entities)
    && (forall id :: id in e.causes ==> id in t.events && id != e.id)
    && (forall id :: id in e.consequences ==> id in t.events && id != e.id)
    && CitesIn(e.sources, t)
  }

  ghost predicate ClaimFits(c: ClaimRecord, t: Targets) {
    && c.id in t.claims
    && OptIn(c.subjectEntityId, t.entities) && OptIn(c.objectEntityId, t.entities)
    && ConfidenceCheck(c.confidence) && (c.objectEntityId == "" || c.objectValue == "")
    && CitesIn(c.sources, t) && (forall v :: v in c.versions ==> CitesIn(v.sources, t))
  }

  ghost predicate EdgeFits(r: RelationshipRecord, t: Targets) {
    && r.fromEntityId in t.entities && r.toEntityId in t.entities && r.fromEntityId != r.toEntityId
    && r.relType in t.relTypes && OptIn(r.claimId, t.claims)
  }

  ghost function RecordTargets(v: Validated, db: Db): Targets {
    Targets(db.entities.Keys + set e | e in v.entities :: e.id,
            db.events.Keys + set e | e in v.events :: e.id,
            db.claims.Keys + set c | c in v.claims :: c.id,
            db.sources.Keys, db.relTypes)
  }

  /** Every reference lands on a stored row or on a record of the same batch, and every CHECK holds. */
  ghost predicate Fits(v: Validated, t: Targets) {
    && (forall e :: e in v.entities ==> EntityFits(e, t))
    && (forall e :: e in v.events ==> EventFits(e, t))
    && (forall c :: c in v.claims ==> ClaimFits(c, t))
    && (forall r :: r in v.relationships ==> EdgeFits(r, t))
    && (forall k :: k in v.contradictions ==> k.claimId in t.claims)
  }

  // -------------------------------------------------- fitting batches load

  lemma {:induction false} ClosedFlatMap<T>(g: iset<Ref>, xs: seq<T>, f: T -> seq<Stmt>)
    requires forall x :: x in xs ==> Closed(g, f(x))
    ensures Closed(g, FlatMap(xs, f))
  {
    if xs != [] {
      ClosedFlatMap(g, xs[1..], f);
      assert xs[0] in xs;
      ClosedMonotone(g, g + AllGiven(f(xs[0])), FlatMap(xs[1..], f));
      ClosedConcat(g, f(xs[0]), FlatMap(xs[1..], f));
    }
  }

  lemma GivenInFlatMap<T>(xs: seq<T>, f: T -> seq<Stmt>, x: T, s: Stmt)
    requires x in xs && s in f(x) && Gives(s).Some?
    ensures Gives(s).value in AllGiven(FlatMap(xs, f))
  {
    FlatMapIn(xs, f, s);
    assert GivenBy(FlatMap(xs, f), Gives(s).value);
  }

  lemma {:induction false} NamesClosed(g: iset<Ref>, id: string, names: seq<EntityName>)
    requires EntityRef(id) in g && forall n :: n in names ==> NameKindCheck(n.nameKind)
    ensures Closed(g, NameStmts(id, names))
  {
    if names != [] {
      assert names[0] in names;
      NamesClosed(g, id, names[1..]);
      ClosedMonotone(g, g + GivenSet(NameStmts(id, names)[0]), NameStmts(id, names[1..]));
    }
  }

  lemma EntityClosed(g: iset<Ref>, e: EntityRecord, t: Targets)
    requires EntityFits(e, t)
    ensures Closed(g, EntityStmts(e))
  {
    var s := InsEntity(e.id, EntityRowOf(e));
    NamesClosed(g + GivenSet(s), e.id, e.names);
    assert EntityStmts(e)[1..] == NameStmts(e.id, e.names);
  }

  lemma {:induction false} ParticipantsClosed(g: iset<Ref>, id: string, ps: seq<Participant>)
    requires EventRef(id) in g && forall p :: p in ps ==> EntityRef(p.entityId) in g
    ensures Closed(g, ParticipantStmts(id, ps))
  {
    if ps != [] {
      assert ps[0] in ps;
      ParticipantsClosed(g, id, ps[1..]);
      ClosedMonotone(g, g + GivenSet(ParticipantStmts(id, ps)[0]), ParticipantStmts(id, ps[1..]));
    }
  }

  lemma {:induction false} CausesClosed(g: iset<Ref>, id: string, ids: seq<string>)
    requires EventRef(id) in g && forall x :: x in ids ==> EventRef(x) in g && x != id
    ensures Closed(g, CauseStmts(id, ids)) && Closed(g, ConsequenceStmts(id, ids))
  {
    if ids != [] {
      assert ids[0] in ids;
      CausesClosed(g, id, ids[1..]);
      ClosedMonotone(g, g + GivenSet(CauseStmts(id, ids)[0]), CauseStmts(id, ids[1..]));
      ClosedMonotone(g, g + GivenSet(ConsequenceStmts(id, ids)[0]), ConsequenceStmts(id, ids[1..]));
    }
  }

  lemma {:induction false} EventCitesClosed(g: iset<Ref>, id: string, cs: seq<Citation>)
    requires EventRef(id) in g && forall c :: c in cs ==> SourceRef(c.sourceId) in g
    ensures Closed(g, EventCiteStmts(id, cs))
  {
    if cs != [] {
      assert cs[0] in cs;
      EventCitesClosed(g, id, cs[1..]);
      ClosedMonotone(g, g + GivenSet(EventCiteStmts(id, cs)[0]), EventCiteStmts(id, cs[1..]));
    }
  }

  /** The references a target set stands for. */
  ghost predicate Covered(g: iset<Ref>, t: Targets) {
    && (forall id :: id in t.entities ==> EntityRef(id) in g)
    && (forall id :: id in t.sources ==> SourceRef(id) in g)
    && (forall id :: id in t.relTypes ==> RelTypeRef(id) in g)
  }

  ghost predicate EventsCovered(g: iset<Ref>, t: Targets) {
    forall id :: id in t.events ==> EventRef(id) in g
  }

  ghost predicate ClaimsCovered(g: iset<Ref>, t: Targets) {
    forall id :: id in t.claims ==> ClaimRef(id) in g
  }

  lemma EventDetailClosed(g: iset<Ref>, e: EventRecord, t: Targets)
    requires EventFits(e, t) && Covered(g, t) && EventsCovered(g, t)
    ensures Closed(g, EventDetailStmts(e))
  {
    var a, b := ParticipantStmts(e.id, e.participants), CauseStmts(e.id, e.causes);
    var c, d := ConsequenceStmts(e.id, e.consequences), EventCiteStmts(e.id, e.sources);
    ParticipantsClosed(g, e.id, e.participants);
    CausesClosed(g, e.id, e.causes);
    CausesClosed(g, e.id, e.consequences);
    EventCitesClosed(g, e.id, e.sources);
    Concat4Closed(g, a, b, c, d);
  }

  lemma Concat4Closed(g: iset<Ref>, a: seq<Stmt>, b: seq<Stmt>, c: seq<Stmt>, d: seq<Stmt>)
    requires Closed(g, a) && Closed(g, b) && Closed(g, c) && Closed(g, d)
    ensures Closed(g, a + b + c + d)
  {
    ClosedMonotone(g, g + AllGiven(a), b);
    ClosedConcat(g, a, b);
    ClosedMonotone(g, g + AllGiven(a + b), c);
    ClosedConcat(g, a + b, c);
    ClosedMonotone(g, g + AllGiven(a + b + c), d);
    ClosedConcat(g, a + b + c, d);
  }

  lemma {:induction false} VersionsClosed(g: iset<Ref>, id: string, vs: seq<ClaimVersionRecord>)
    requires ClaimRef(id) in g
    ensures Closed(g, VersionStmts(id, vs))
    ensures forall v :: v in vs ==> VersionRef(VersionKey(id, v.tradition)) in AllGiven(VersionStmts(id, vs))
  {
    if vs != [] {
      VersionsClosed(g, id, vs[1..]);
      var stmts := VersionStmts(id, vs);
      ClosedMonotone(g, g + GivenSet(stmts[0]), VersionStmts(id, vs[1..]));
      forall v | v in vs
        ensures VersionRef(VersionKey(id, v.tradition)) in AllGiven(stmts)
      {
        GivenByFirstOrRest(stmts, VersionRef(VersionKey(id, v.tradition)));
        if v != vs[0] {
          assert v in vs[1..];
          assert VersionRef(VersionKey(id, v.tradition)) in AllGiven(VersionStmts(id, vs[1..]));
        }
      }
    }
  }

  lemma {:induction false} ClaimCitesClosed(g: iset<Ref>, id: string, pin: Option<string>, cs: seq<Citation>)
    requires ClaimRef(id) in g && forall c :: c in cs ==> SourceRef(c.sourceId) in g
    requires pin.Some? ==> VersionRef(VersionKey(id, pin.value)) in g
    ensures Closed(g, ClaimCiteStmts(id, pin, cs))
  {
    if cs != [] {
      assert cs[0] in cs;
      ClaimCitesClosed(g, id, pin, cs[1..]);
      ClosedMonotone(g, g + GivenSet(ClaimCiteStmts(id, pin, cs)[0]), ClaimCiteStmts(id, pin, cs[1..]));
    }
  }

  lemma {:induction false} VersionCitesClosed(g: iset<Ref>, id: string, vs: seq<ClaimVersionRecord>)
    requires ClaimRef(id) in g
    requires forall v :: v in vs ==> VersionRef(VersionKey(id, v.tradition)) in g
    requires forall v, c :: v in vs && c in v.sources ==> SourceRef(c.sourceId) in g
    ensures Closed(g, VersionCiteStmts(id, vs))
  {
    if vs != [] {
      assert vs[0] in vs;
      ClaimCitesClosed(g, id, Some(vs[0].tradition), vs[0].sources);
      VersionCitesClosed(g, id, vs[1..]);
      var first := ClaimCiteStmts(id, Some(vs[0].tradition), vs[0].sources);
      ClosedMonotone(g, g + AllGiven(first), VersionCiteStmts(id, vs[1..]));
      ClosedConcat(g, first, VersionCiteStmts(id, vs[1..]));
    }
  }

  lemma ClaimClosed(g: iset<Ref>, c: ClaimRecord, t: Targets)
    requires ClaimFits(c, t) && Covered(g, t)
    ensures Closed(g, ClaimStmts(c))
  {
    var row := [InsClaim(c.id, ClaimRowOf(c))];
    var b, d, e := VersionStmts(c.id, c.versions), ClaimCiteStmts(c.id, None, c.sources), VersionCiteStmts(c.id, c.versions);
    assert Closed(g, row) by { assert row[1..] == []; }
    var g1 := g + AllGiven(row);
    assert ClaimRef(c.id) in g1 by { assert row[0] in row; assert GivenBy(row, ClaimRef(c.id)); }
    VersionsClosed(g1, c.id, c.versions);
    ClosedConcat(g, row, b);
    var g2 := g + AllGiven(row + b);
    assert g1 + AllGiven(b) <= g2 by {
      forall r | r in g1 + AllGiven(b)
        ensures r in g2
      {
        GivenInConcat(row, b, r);
      }
    }
    ClaimCitesClosed(g2, c.id, None, c.sources);
    ClosedConcat(g, row + b, d);
    var g3 := g + AllGiven(row + b + d);
    assert g2 <= g3 by {
      forall r | r in g2
        ensures r in g3
      {
        GivenInConcat(row + b, d, r);
      }
    }
    VersionCitesClosed(g3, c.id, c.versions);
    ClosedConcat(g, row + b + d, e);
  }

  lemma GivenInConcat(a: seq<Stmt>, b: seq<Stmt>, r: Ref)
    ensures GivenBy(a + b, r) <==> GivenBy(a, r) || GivenBy(b, r)
  {
    assert forall s :: s in a + b <==> s in a || s in b;
  }

  lemma EdgeClosed(g: iset<Ref>, r: RelationshipRecord, t: Targets)
    requires EdgeFits(r, t) && Covered(g, t) && ClaimsCovered(g, t)
    ensures Closed(g, RelationshipStmts(r))
  {
    assert RelationshipStmts(r)[1..] == [];
  }

  lemma ContradictionClosed(g: iset<Ref>, k: ContradictionEntry, t: Targets)
    requires k.claimId in t.claims && ClaimsCovered(g, t)
    ensures Closed(g, ContradictionStmts(k))
  {
    var s := ContradictionStmts(k);
    assert s[1..] == [s[1]] && s[1..][1..] == [];
    assert Closed(g + GivenSet(s[0]), s[1..]);
  }

  lemma StepClosed(g: iset<Ref>, a: seq<Stmt>, rest: seq<Stmt>)
    requires Closed(g, a) && Closed(g + AllGiven(a), rest)
    ensures Closed(g, a + rest)
  {
    ClosedConcat(g, a, rest);
  }

  ghost function Stored(db: Db): iset<Ref> {
    iset r | Has(db, r)
  }

  lemma StoredHas(db: Db)
    ensures forall r :: r in Stored(db) ==> Has(db, r)
  {
  }

  lemma CoveredMore(g: iset<Ref>, h: iset<Ref>, t: Targets)
    requires g <= h
    ensures Covered(g, t) ==> Covered(h, t)
    ensures EventsCovered(g, t) ==> EventsCovered(h, t)
    ensures ClaimsCovered(g, t) ==> ClaimsCovered(h, t)
  {
  }

  /** The entity and event statements, each closed where it runs. */
  lemma EventsClosed(g0: iset<Ref>, g1: iset<Ref>, g2: iset<Ref>, v: Validated, t: Targets)
    requires Fits(v, t) && g1 <= g2 && Covered(g1, t) && EventsCovered(g2, t)
    ensures Closed(g0, FlatMap(v.entities, EntityStmts)) && Closed(g1, FlatMap(v.events, EventStmts))
    ensures Closed(g2, FlatMap(v.events, EventDetailStmts))
  {
    hide Covered, EventsCovered, Closed, EntityStmts, EventStmts, EventDetailStmts, EntityFits, EventFits;
    CoveredMore(g1, g2, t);
    forall x | x in v.entities
      ensures Closed(g0, EntityStmts(x))
    {
      EntityClosed(g0, x, t);
    }
    ClosedFlatMap(g0, v.entities, EntityStmts);
    forall x | x in v.events
      ensures Closed(g1, EventStmts(x)) && Closed(g2, EventDetailStmts(x))
    {
      EventRowClosed(g1, x, t);
      EventDetailClosed(g2, x, t);
    }
    ClosedFlatMap(g1, v.events, EventStmts);
    ClosedFlatMap(g2, v.events, EventDetailStmts);
  }

  lemma EventRowClosed(g: iset<Ref>, e: EventRecord, t: Targets)
    requires EventFits(e, t) && Covered(g, t)
    ensures Closed(g, EventStmts(e))
  {
    assert EventStmts(e)[1..] == [];
  }

  /** The claim, relationship and contradiction statements likewise. */
  lemma ClaimsClosed(g3: iset<Ref>, g4: iset<Ref>, g5: iset<Ref>, v: Validated, t: Targets)
    requires Fits(v, t) && g3 <= g4 <= g5 && Covered(g3, t) && ClaimsCovered(g4, t)
    ensures Closed(g3, FlatMap(v.claims, ClaimStmts)) && Closed(g4, FlatMap(v.relationships, RelationshipStmts))
    ensures Closed(g5, FlatMap(v.contradictions, ContradictionStmts))
  {
    hide Covered, ClaimsCovered, Closed, ClaimStmts, RelationshipStmts, ContradictionStmts, ClaimFits, EdgeFits;
    CoveredMore(g3, g4, t);
    CoveredMore(g4, g5, t);
    forall x | x in v.claims
      ensures Closed(g3, ClaimStmts(x))
    {
      ClaimClosed(g3, x, t);
    }
    ClosedFlatMap(g3, v.claims, ClaimStmts);
    forall x | x in v.relationships
      ensures Closed(g4, RelationshipStmts(x))
    {
      EdgeClosed(g4, x, t);
    }
    ClosedFlatMap(g4, v.relationships, RelationshipStmts);
    forall x | x in v.contradictions
      ensures Closed(g5, ContradictionStmts(x))
    {
      ContradictionClosed(g5, x, t);
    }
    ClosedFlatMap(g5, v.contradictions, ContradictionStmts);
  }

  /** A fitting batch breaks no foreign key, CHECK or NOT NULL constraint. */
  lemma FittingLoads(db: Db, v: Validated)
    requires Fits(v, RecordTargets(v, db))
    ensures Load(db, v).Some?
  {
    hide Covered, EventsCovered, ClaimsCovered, Closed, EntityStmts, EventStmts, EventDetailStmts, ClaimStmts,
      RelationshipStmts, ContradictionStmts, EntityFits, EventFits, ClaimFits, EdgeFits, AllGiven, RecordTargets, Stored, FlatMap;
    var t, g0 := RecordTargets(v, db), Stored(db);
    var a, b := FlatMap(v.entities, EntityStmts), FlatMap(v.events, EventStmts);
    var c, d := FlatMap(v.events, EventDetailStmts), FlatMap(v.claims, ClaimStmts);
    var e, f := FlatMap(v.relationships, RelationshipStmts), FlatMap(v.contradictions, ContradictionStmts);
    var g1 := g0 + AllGiven(a);
    var g2 := g1 + AllGiven(b);
    var g3 := g2 + AllGiven(c);
    var g4 := g3 + AllGiven(d);
    var g5 := g4 + AllGiven(e);
    EntitiesCovered(db, v);
    EventRowsCovered(db, v, g1);
    ClaimRowsCovered(db, v, g3);
    CoveredMore(g1, g3, t);
    EventsClosed(g0, g1, g2, v, t);
    ClaimsClosed(g3, g4, g5, v, t);
    StepClosed(g4, e, f);
    StepClosed(g3, d, e + f);
    StepClosed(g2, c, d + (e + f));
    StepClosed(g1, b, c + (d + (e + f)));
    StepClosed(g0, a, b + (c + (d + (e + f))));
    assert forall r :: r in g0 ==> Has(db, r) by { StoredHas(db); }
    ClosedSucceeds(db, g0, Plan(v));
  }

  lemma EntitiesCovered(db: Db, v: Validated)
    ensures Covered(Stored(db) + AllGiven(FlatMap(v.entities, EntityStmts)), RecordTargets(v, db))
  {
    hide AllGiven, FlatMap;
    forall x | x in v.entities
      ensures EntityRef(x.id) in AllGiven(FlatMap(v.entities, EntityStmts))
    {
      GivenInFlatMap(v.entities, EntityStmts, x, InsEntity(x.id, EntityRowOf(x)));
    }
  }

  lemma EventRowsCovered(db: Db, v: Validated, g: iset<Ref>)
    requires Stored(db) <= g
    ensures EventsCovered(g + AllGiven(FlatMap(v.events, EventStmts)), RecordTargets(v, db))
  {
    forall x | x in v.events
      ensures EventRef(x.id) in AllGiven(FlatMap(v.events, EventStmts))
    {
      GivenInFlatMap(v.events, EventStmts, x, InsEvent(x.id, EventRowOf(x)));
    }
    assert forall id :: id in db.events ==> Has(db, EventRef(id));
  }

  lemma ClaimRowsCovered(db: Db, v: Validated, g: iset<Ref>)
    requires Stored(db) <= g
    ensures ClaimsCovered(g + AllGiven(FlatMap(v.claims, ClaimStmts)), RecordTargets(v, db))
  {
    forall x | x in v.claims
      ensures ClaimRef(x.id) in AllGiven(FlatMap(v.claims, ClaimStmts))
    {
      GivenInFlatMap(v.claims, ClaimStmts, x, InsClaim(x.id, ClaimRowOf(x)));
    }
    assert forall id :: id in db.claims ==> Has(db, ClaimRef(id));
  }
}

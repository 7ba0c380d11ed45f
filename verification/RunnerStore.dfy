/** What holds of the store in every state of every run, and across runs that stop anywhere. */
module RunnerStore {
  import opened Basics
  import opened Units
  import opened Wire
  import opened Validation
  import opened Tables
  import opened Loader
  import opened Loadable
  import opened LoadsExactly
  import opened Integrity
  import opened LoadTheorems
  import opened Ledger
  import opened Runner
  import opened RunnerPool
  import opened RunnerOutcomes
  import opened RunnerRefinement

  /** The snapshots are the id sets of the store. */
  ghost predicate Snapped(b: Books) {
    b.entities == b.store.graph.entities.Keys && b.events == b.store.graph.events.Keys && b.claims == b.store.graph.claims.Keys
  }

  /** Handling one outcome, in terms of the graph. */
  lemma HandleMoves(cfg: Config, b: Books, o: Outcome)
    requires Handle(cfg, b, o).Some?
    ensures var t, u := Handle(cfg, b, o).value, o.job.unit;
            && (o.wire.None? ==>
                  t.store.graph == b.store.graph && t.entities == b.entities && t.events == b.events && t.claims == b.claims
                  && t.records == b.records && t.kept == b.kept && t.dropped == b.dropped
                  && t.done == b.done && t.failed == b.failed + 1)
            && (o.wire.Some? ==>
                  var v := ValidatedIn(b, u, o.wire.value);
                  && Load(b.store.graph, v).Some?
                  && t == Absorb(b.(store := t.store), Load(b.store.graph, v).value, v))
            && t.store.outputs == b.store.outputs + OutputsOf(cfg, u, o.responses)
            && t.store.ledger == Finish(PendUnit(cfg, b.store.ledger, u), cfg.run, u, EndingOf(b, o))
  {
    hide Load, Validate, EntityIds, EventIds, ClaimRecordIds, CountsOf, OutputsOf, LogOf, Finish, PendUnit;
  }

  /** Snapshot agreement survives one outcome. */
  lemma HandleSnaps(cfg: Config, b: Books, o: Outcome)
    requires Snapped(b) && Handle(cfg, b, o).Some?
    ensures Snapped(Handle(cfg, b, o).value)
  {
    hide Load, Validate, EntityIds, EventIds, ClaimRecordIds, CountsOf, OutputsOf, LogOf, Finish, PendUnit, Handle;
    HandleMoves(cfg, b, o);
    if w :| o.wire == Some(w) {
      SnapshotsAgree(b.store.graph, w, ScopeOf(b, o.job.unit));
    }
  }

  lemma PreservedTrans(a: Db, b: Db, c: Db)
    requires Preserved(a, b) && Preserved(b, c)
    ensures Preserved(a, c)
  {
    GrowsTrans(a, b, c);
  }

  /** One outcome keeps the graph clean and every row in place. */
  lemma HandleCleans(cfg: Config, b: Books, o: Outcome)
    requires Snapped(b) && Clean(b.store.graph) && Handle(cfg, b, o).Some?
    ensures Clean(Handle(cfg, b, o).value.store.graph)
    ensures Preserved(b.store.graph, Handle(cfg, b, o).value.store.graph)
  {
    hide Load, Validate, EntityIds, EventIds, ClaimRecordIds, CountsOf, OutputsOf, LogOf, Finish, PendUnit, Handle,
      ClaimsCited, EventsCited, ReferencesResolve, ContestedRegistered, VersionsCited, Sound, Preserved;
    HandleMoves(cfg, b, o);
    if w :| o.wire == Some(w) {
      LoadStaysClean(b.store.graph, w, ScopeOf(b, o.job.unit));
      FirstWriteWins(b.store.graph, w, ScopeOf(b, o.job.unit));
    } else { PreservedRefl(b.store.graph); }
  }

  lemma PreservedRefl(db: Db)
    ensures Preserved(db, db)
  {
  }

  lemma HandleLocates(cfg: Config, b: Books, o: Outcome)
    requires Snapped(b) && LocatorsValid(b.store.graph) && Covers(b.store.graph, o.job.unit) && Handle(cfg, b, o).Some?
    ensures LocatorsValid(Handle(cfg, b, o).value.store.graph)
  {
    hide Load, Validate, EntityIds, EventIds, ClaimRecordIds, CountsOf, OutputsOf, LogOf, Finish, PendUnit, Handle,
      LocatorsValid, Covers;
    HandleMoves(cfg, b, o);
    if w :| o.wire == Some(w) {
      LoadKeepsLocators(b.store.graph, w, ScopeOf(b, o.job.unit));
    }
  }

  // ------------------------------------------------------ the sequential run

  lemma {:induction false} SequentialKeeps(cfg: Config, b: Books, os: seq<Outcome>)
    requires Snapped(b) && Clean(b.store.graph) && Sequential(cfg, b, os).Some?
    ensures var t := Sequential(cfg, b, os).value;
            Snapped(t) && Clean(t.store.graph) && Preserved(b.store.graph, t.store.graph)
    decreases |os|
  {
    hide Clean, Snapped, Preserved, Handle;
    if os == [] { PreservedRefl(b.store.graph); }
    else {
      var m := Sequential(cfg, b, Front(os)).value;
      SequentialKeeps(cfg, b, Front(os));
      HandleSnaps(cfg, m, Last(os));
      HandleCleans(cfg, m, Last(os));
      PreservedTrans(b.store.graph, m.store.graph, Handle(cfg, m, Last(os)).value.store.graph);
    }
  }

  lemma CoversKept(a: Db, b: Db, u: Unit)
    requires Preserved(a, b) && Covers(a, u)
    ensures Covers(b, u)
  {
  }

  lemma {:induction false} SequentialLocates(cfg: Config, b: Books, os: seq<Outcome>)
    requires Snapped(b) && Clean(b.store.graph) && LocatorsValid(b.store.graph) && Sequential(cfg, b, os).Some?
    requires forall o :: o in os ==> Covers(b.store.graph, o.job.unit)
    ensures LocatorsValid(Sequential(cfg, b, os).value.store.graph)
    decreases |os|
  {
    hide Clean, Snapped, Preserved, Handle, LocatorsValid, Covers;
    if os != [] {
      var m := Sequential(cfg, b, Front(os)).value;
      SequentialLocates(cfg, b, Front(os));
      SequentialKeeps(cfg, b, Front(os));
      CoversKept(b.store.graph, m.store.graph, Last(os).job.unit);
      HandleLocates(cfg, m, Last(os));
    }
  }

  // ------------------------------------------------------- every reachable state

  lemma OpenSnapped(store: Store)
    ensures Snapped(OpenBooks(store))
  {
  }

  /**
   * Starting from a clean store, every state a run can reach is clean, agrees with the id
   * snapshots held in memory, and has changed no row of the graph that was there before.
   */
  lemma StoreStaysClean(cfg: Config, store: Store, ls: seq<Label>)
    requires DistinctKeys(cfg.units) && Valid(cfg, Init(cfg, store), ls) && Clean(store.graph)
    ensures var b := After(cfg, Init(cfg, store), ls).books;
            Clean(b.store.graph) && Snapped(b) && Preserved(store.graph, b.store.graph)
  {
    hide Clean, Preserved, Sequential, Init, After, Valid, PendAll, Outstanding;
    RefinesSequential(cfg, store, ls);
    OpenSnapped(store);
    SequentialKeeps(cfg, OpenBooks(store), After(cfg, Init(cfg, store), ls).received);
  }

  lemma PendingAreUnits(cfg: Config, ledger: Ledger)
    ensures forall u :: u in PlanUnits(cfg, ledger).pending ==> u in cfg.units && !UpToDate(cfg, ledger, u)
  {
    forall u | u in PlanUnits(cfg, ledger).pending
      ensures u in cfg.units && !UpToDate(cfg, ledger, u)
    {
      FilterIn(cfg.units, Stale(cfg, ledger), u);
    }
  }

  lemma ReceivedUnits(cfg: Config, store: Store, ls: seq<Label>)
    requires Valid(cfg, Init(cfg, store), ls)
    ensures forall o :: o in After(cfg, Init(cfg, store), ls).received ==> o.job.unit in cfg.units
  {
    hide Init, Apply, Enabled, UpToDate;
    PendingAreUnits(cfg, store.ledger);
    SamePlan(cfg, store, ls);
    forall o | o in After(cfg, Init(cfg, store), ls).received
      ensures o.job.unit in cfg.units
    {
      ReceivedKnown(cfg, store, ls, o);
    }
  }

  /** Stored locators stay valid whenever each unit's surface demands its sources' required keys. */
  lemma LocatorsStayValid(cfg: Config, store: Store, ls: seq<Label>)
    requires DistinctKeys(cfg.units) && Valid(cfg, Init(cfg, store), ls) && Clean(store.graph) && LocatorsValid(store.graph)
    requires forall u :: u in cfg.units ==> Covers(store.graph, u)
    ensures LocatorsValid(After(cfg, Init(cfg, store), ls).books.store.graph)
  {
    hide Clean, LocatorsValid, Covers, Sequential, Init, After, Valid, PendAll, Outstanding;
    RefinesSequential(cfg, store, ls);
    OpenSnapped(store);
    ReceivedUnits(cfg, store, ls);
    SequentialLocates(cfg, OpenBooks(store), After(cfg, Init(cfg, store), ls).received);
  }

  // ------------------------------------------------------------------ sessions

  /** One process life: a run taken as far as steps, then stopped, whether finished or crashed. */
  datatype Session = Session(cfg: Config, steps: seq<Label>)

  /** Every session starts over the store the previous one left. */
  ghost predicate Sessions(store: Store, rs: seq<Session>)
    decreases |rs|, 0
  {
    rs == [] ||
    (Sessions(store, Front(rs)) && DistinctKeys(Last(rs).cfg.units)
     && Valid(Last(rs).cfg, Init(Last(rs).cfg, AfterSessions(store, Front(rs))), Last(rs).steps))
  }

  ghost function AfterSessions(store: Store, rs: seq<Session>): Store
    requires Sessions(store, rs)
    decreases |rs|, 1
  {
    if rs == [] then store
    else After(Last(rs).cfg, Init(Last(rs).cfg, AfterSessions(store, Front(rs))), Last(rs).steps).books.store
  }

  /**
   * However many runs are made over a clean store, with whatever options, and wherever each
   * of them stops, the store they leave is clean and every row it started with is unchanged.
   */
  lemma {:induction false} CleanAcrossSessions(store: Store, rs: seq<Session>)
    requires Clean(store.graph) && Sessions(store, rs)
    ensures Clean(AfterSessions(store, rs).graph) && Preserved(store.graph, AfterSessions(store, rs).graph)
    decreases |rs|
  {
    hide Clean, Preserved, Init, Valid, After;
    if rs == [] { PreservedRefl(store.graph); }
    else {
      var before := AfterSessions(store, Front(rs));
      CleanAcrossSessions(store, Front(rs));
      StoreStaysClean(Last(rs).cfg, before, Last(rs).steps);
      PreservedTrans(store.graph, before.graph, AfterSessions(store, rs).graph);
    }
  }

  /** The same for locators, when every unit of every session covers its sources' required keys. */
  lemma {:induction false} LocatorsAcrossSessions(store: Store, rs: seq<Session>)
    requires Clean(store.graph) && LocatorsValid(store.graph) && Sessions(store, rs)
    requires forall r, u :: r in rs && u in r.cfg.units ==> Covers(store.graph, u)
    ensures LocatorsValid(AfterSessions(store, rs).graph)
    decreases |rs|
  {
    hide Clean, Preserved, Init, Valid, After, LocatorsValid, Covers;
    if rs != [] {
      var before, r := AfterSessions(store, Front(rs)), Last(rs);
      LocatorsAcrossSessions(store, Front(rs));
      CleanAcrossSessions(store, Front(rs));
      forall u | u in r.cfg.units
        ensures Covers(before.graph, u)
      {
        CoversKept(store.graph, before.graph, u);
      }
      LocatorsStayValid(r.cfg, before, r.steps);
    }
  }
}

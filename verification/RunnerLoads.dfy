/** Which outcomes a run can commit, and so exactly what aborts it. */
module RunnerLoads {
  import opened Basics
  import opened Units
  import opened Wire
  import opened Validation
  import opened Tables
  import opened Loader
  import opened LoadsExactly
  import opened Integrity
  import opened LoadTheorems
  import opened Ledger
  import opened Runner
  import opened RunnerFrames
  import opened RunnerPool
  import opened RunnerOutcomes
  import opened RunnerRefinement
  import opened RunnerStore

  /** A clean graph without an entity of empty id, with every unit's sources and relation types registered. */
  ghost predicate Ready(cfg: Config, graph: Db) {
    Clean(graph) && "" !in graph.entities && forall u :: u in cfg.units ==> Supplied(graph, u)
  }

  lemma LoadNamesEntities(db: Db, w: WireExtraction, scope: Scope)
    requires "" !in db.entities && Load(db, Validate(w, scope)).Some?
    ensures "" !in Load(db, Validate(w, scope)).value.entities
  {
    hide Load, EventsIn, ClaimsIn, EdgesIn, EntitiesIn, DropsOf;
    LoadAddsEntities(db, Validate(w, scope));
    EntityIdsAre(w);
  }

  lemma {:induction false} SequentialNamesEntities(cfg: Config, b: Books, os: seq<Outcome>)
    requires "" !in b.store.graph.entities && Sequential(cfg, b, os).Some?
    ensures "" !in Sequential(cfg, b, os).value.store.graph.entities
    decreases |os|
  {
    hide Handle, Load, Validate, EntityIds, EventIds, ClaimRecordIds, CountsOf, LogOf;
    if os != [] {
      var m, o := Sequential(cfg, b, Front(os)).value, Last(os);
      SequentialNamesEntities(cfg, b, Front(os));
      HandleMoves(cfg, m, o);
      if w :| o.wire == Some(w) {
        LoadNamesEntities(m.store.graph, w, ScopeOf(m, o.job.unit));
      }
    }
  }

  lemma SuppliedKept(a: Db, b: Db, u: Unit)
    requires Preserved(a, b) && Supplied(a, u)
    ensures Supplied(b, u)
  {
  }

  /** A run never makes its store unready. */
  lemma ReadyAlways(cfg: Config, store: Store, ls: seq<Label>)
    requires DistinctKeys(cfg.units) && Valid(cfg, Init(cfg, store), ls) && Ready(cfg, store.graph)
    ensures Ready(cfg, After(cfg, Init(cfg, store), ls).books.store.graph)
  {
    hide Clean, Preserved, Supplied, Sequential, Init, After, Valid, PendAll, Outstanding;
    var s := After(cfg, Init(cfg, store), ls);
    StoreStaysClean(cfg, store, ls);
    RefinesSequential(cfg, store, ls);
    SequentialNamesEntities(cfg, OpenBooks(store), s.received);
    forall u | u in cfg.units
      ensures Supplied(s.books.store.graph, u)
    {
      SuppliedKept(store.graph, s.books.store.graph, u);
    }
  }

  /** The outcome's payload holds a kept event that links to itself or has an empty participant key. */
  ghost predicate OffendsIn(b: Books, o: Outcome) {
    o.wire.Some? && Offending(o.wire.value, ScopeOf(b, o.job.unit))
  }

  lemma CommitsExactly(cfg: Config, b: Books, o: Outcome)
    requires Snapped(b) && Clean(b.store.graph) && "" !in b.store.graph.entities && Supplied(b.store.graph, o.job.unit)
    requires o.wire.Some? ==> Required(o.wire.value)
    ensures Commit(cfg, b, o).None? <==> OffendsIn(b, o)
  {
    hide Load, Validate, Offending, Supplied, Required, Absorb, Recorded;
    if w :| o.wire == Some(w) {
      LoadsExactly.LoadsExactly(b.store.graph, w, ScopeOf(b, o.job.unit));
    }
  }

  lemma ChannelUnits(cfg: Config, store: Store, ls: seq<Label>, o: Outcome)
    requires Valid(cfg, Init(cfg, store), ls) && o in After(cfg, Init(cfg, store), ls).pool.buffer
    ensures o.job.unit in cfg.units
  {
    hide Init, Apply, Enabled, UpToDate;
    PendingAreUnits(cfg, store.ledger);
    SamePlan(cfg, store, ls);
    ReceivedKnown(cfg, store, ls, o);
  }

  /**
   * In every reachable state, an outcome waiting in the channel fails to commit for a
   * constraint if and only if its payload offends against the graph as it is then.
   */
  lemma CommitFailsExactly(cfg: Config, store: Store, ls: seq<Label>, o: Outcome)
    requires DistinctKeys(cfg.units) && Valid(cfg, Init(cfg, store), ls) && Ready(cfg, store.graph)
    requires o in After(cfg, Init(cfg, store), ls).pool.buffer
    ensures var b := After(cfg, Init(cfg, store), ls).books;
            Commit(cfg, b, o).None? <==> OffendsIn(b, o)
  {
    hide Clean, Preserved, Supplied, Init, After, Valid, Commit, OffendsIn, Produced, Required;
    StoreStaysClean(cfg, store, ls);
    ReadyAlways(cfg, store, ls);
    ChannelUnits(cfg, store, ls, o);
    ProducedAlways(cfg, store, ls);
    ProducedParsed(cfg, o);
    CommitsExactly(cfg, After(cfg, Init(cfg, store), ls).books, o);
  }

  // ------------------------------------------------------------- what aborts

  /** The step is a failing database call, or receives an offending payload. */
  ghost predicate Disturbs(s: State, l: Label) {
    l.PendFails? || (l.Receive? && (!l.fault.NoFault? || (s.pool.buffer != [] && OffendsIn(s.books, s.pool.buffer[0]))))
  }

  ghost predicate Undisturbed(cfg: Config, store: Store, ls: seq<Label>)
    requires Valid(cfg, Init(cfg, store), ls)
    decreases |ls|
  {
    ls == [] || (Undisturbed(cfg, store, Front(ls)) && !Disturbs(After(cfg, Init(cfg, store), Front(ls)), Last(ls)))
  }

  /** A run over a ready store is aborted if and only if a database call failed or it received an offending payload. */
  lemma {:induction false} AbortsExactly(cfg: Config, store: Store, ls: seq<Label>)
    requires DistinctKeys(cfg.units) && Valid(cfg, Init(cfg, store), ls) && Ready(cfg, store.graph)
    ensures After(cfg, Init(cfg, store), ls).aborted <==> !Undisturbed(cfg, store, ls)
    decreases |ls|
  {
    hide Init, Apply, Enabled, Ready, Commit, OffendsIn, Valid, After;
    if ls == [] { NotAbortedYet(cfg, store); }
    else {
      Unfolded(cfg, store, ls);
      var s, l := After(cfg, Init(cfg, store), Front(ls)), Last(ls);
      AbortsExactly(cfg, store, Front(ls));
      AbortStep(cfg, s, l);
      if l.Receive? { CommitFailsExactly(cfg, store, Front(ls), s.pool.buffer[0]); }
    }
  }

  lemma AbortStep(cfg: Config, s: State, l: Label)
    requires Enabled(cfg, s, l)
    ensures l.Receive? ==> s.pool.buffer != [] && s.pool.buffer[0] in s.pool.buffer
    ensures Apply(cfg, s, l).aborted <==>
            || s.aborted || l.PendFails?
            || (l.Receive? && (!l.fault.NoFault? || Commit(cfg, s.books, s.pool.buffer[0]).None?))
  {
    hide Apply, Commit, MeterAfter, PendUnit, WithLedger, CallUnit, Affordable;
    if ByWorker(l) { WorkerFrame(cfg, s, l); }
    else if l.Submit? { SubmitMoves(cfg, s); }
    else if l.Receive? { ReceiveMoves(cfg, s, l.fault); }
    else { MainFrame(cfg, s, l); }
  }

  lemma Unfolded(cfg: Config, store: Store, ls: seq<Label>)
    requires ls != [] && Valid(cfg, Init(cfg, store), ls)
    ensures Valid(cfg, Init(cfg, store), Front(ls)) && Enabled(cfg, After(cfg, Init(cfg, store), Front(ls)), Last(ls))
    ensures After(cfg, Init(cfg, store), ls) == Apply(cfg, After(cfg, Init(cfg, store), Front(ls)), Last(ls))
  {
  }

  lemma NotAbortedYet(cfg: Config, store: Store)
    ensures !After(cfg, Init(cfg, store), []).aborted
  {
  }
}

/** The books balance: units and records are conserved over every run. */
module RunnerCounts {
  import opened Basics
  import opened Units
  import opened Wire
  import opened Validation
  import opened DropConservation
  import opened Tables
  import opened Loader
  import opened LoadTheorems
  import opened Ledger
  import opened Runner
  import opened RunnerFrames
  import opened RunnerPool
  import opened RunnerOutcomes
  import opened RunnerRefinement
  import opened RunnerStore

  // ---------------------------------------------------------------- units

  predicate ShuttingDown(pc: Pc) {
    pc == Closing || Stopped(pc)
  }

  /** Deferral and shutdown bookkeeping of a run that is not dry. */
  ghost predicate CountInv(s: State) {
    && (s.lost != [] ==> s.aborted)
    && (s.aborted ==> ShuttingDown(s.pc))
    && (ShuttingDown(s.pc) && !s.aborted ==> s.inflight == 0 && (s.stop || s.next == |s.plan.pending|))
    && s.deferred == s.plan.deferred + |s.drained| +
                     if s.pc == Finished && !s.aborted then |s.plan.pending| - s.submitted else 0
  }

  lemma CountReceive(cfg: Config, s: State, fault: Fault)
    requires CountInv(s) && PoolInv(cfg, s) && Enabled(cfg, s, Receive(fault))
    ensures CountInv(Apply(cfg, s, Receive(fault)))
  {
    hide Apply, Commit, MeterAfter;
    ReceiveMoves(cfg, s, fault);
  }

  lemma CountSubmit(cfg: Config, s: State)
    requires CountInv(s) && PoolInv(cfg, s) && Enabled(cfg, s, Submit)
    ensures CountInv(Apply(cfg, s, Submit))
  {
    hide Apply, PendUnit, WithLedger, Affordable;
    SubmitMoves(cfg, s);
  }

  lemma CountStep(cfg: Config, s: State, l: Label)
    requires CountInv(s) && PoolInv(cfg, s) && Enabled(cfg, s, l)
    ensures CountInv(Apply(cfg, s, l))
  {
    hide Affordable, FinalReport;
    if ByWorker(l) {
      hide Apply, Enabled;
      WorkerFrame(cfg, s, l);
    } else if l.Submit? { CountSubmit(cfg, s); }
    else if l.Receive? { CountReceive(cfg, s, l.fault); }
  }

  lemma {:induction false} CountAlways(cfg: Config, store: Store, ls: seq<Label>)
    requires !cfg.dryRun && Valid(cfg, Init(cfg, store), ls)
    ensures CountInv(After(cfg, Init(cfg, store), ls))
    decreases |ls|
  {
    hide PlanUnits, OpenBooks, Apply, Enabled, PoolInv;
    if ls != [] {
      hide CountInv;
      CountAlways(cfg, store, Front(ls));
      PoolAlways(cfg, store, Front(ls));
      CountStep(cfg, After(cfg, Init(cfg, store), Front(ls)), Last(ls));
    }
  }

  /** One abort at most, from a pend or from persisting an outcome. */
  lemma {:induction false} AbortsOnce(cfg: Config, store: Store, ls: seq<Label>)
    requires !cfg.dryRun && Valid(cfg, Init(cfg, store), ls)
    ensures var s := After(cfg, Init(cfg, store), ls);
            |s.lost| + Count(ls, (l: Label) => l.PendFails?) == if s.aborted then 1 else 0
    decreases |ls|
  {
    hide PlanUnits, OpenBooks, Apply, PoolInv, Affordable, Commit, MeterAfter, PendUnit;
    if ls != [] {
      var s, l := After(cfg, Init(cfg, store), Front(ls)), Last(ls);
      AbortsOnce(cfg, store, Front(ls));
      CountAlways(cfg, store, Front(ls));
      if ByWorker(l) { WorkerFrame(cfg, s, l); }
      else if l.Submit? { SubmitMoves(cfg, s); }
      else if l.Receive? { ReceiveMoves(cfg, s, l.fault); }
      else { MainFrame(cfg, s, l); }
    }
  }

  lemma {:induction false} SequentialCounts(cfg: Config, b: Books, os: seq<Outcome>)
    requires Sequential(cfg, b, os).Some?
    ensures var t := Sequential(cfg, b, os).value; t.done + t.failed == b.done + b.failed + |os|
    ensures var t := Sequential(cfg, b, os).value; t.done == b.done + Count(os, (o: Outcome) => o.wire.Some?)
    decreases |os|
  {
    hide Handle;
    if os != [] {
      SequentialCounts(cfg, b, Front(os));
      HandleMoves(cfg, Sequential(cfg, b, Front(os)).value, Last(os));
    }
  }

  lemma PlanBalances(cfg: Config, ledger: Ledger)
    ensures var p := PlanUnits(cfg, ledger); p.total == p.skipped + p.deferred + |p.pending|
  {
  }

  /**
   * Units are conserved. A run that ends without an abort accounts for each unit as
   * skipped, done, failed or deferred. An aborted run leaves out the never submitted units
   * and, exactly when persisting an outcome caused the abort, that one unit.
   */
  lemma UnitsConserved(cfg: Config, store: Store, ls: seq<Label>)
    requires !cfg.dryRun && DistinctKeys(cfg.units) && Valid(cfg, Init(cfg, store), ls)
    requires After(cfg, Init(cfg, store), ls).pc == Finished
    ensures var s := After(cfg, Init(cfg, store), ls);
            && s.plan.total == |cfg.units|
            && s.plan.total == s.plan.skipped + s.books.done + s.books.failed + s.deferred +
                               (if s.aborted then |s.plan.pending| - s.submitted + |s.lost| else 0)
            && (s.aborted ==> |s.lost| == if Count(ls, (l: Label) => l.PendFails?) == 0 then 1 else 0)
  {
    hide Init, After, Valid, Sequential, Outstanding, PendAll;
    var s := After(cfg, Init(cfg, store), ls);
    RefinesSequential(cfg, store, ls);
    SequentialCounts(cfg, OpenBooks(store), s.received);
    SamePlan(cfg, store, ls);
    PlanBalances(cfg, store.ledger);
    PoolAlways(cfg, store, ls);
    CountAlways(cfg, store, ls);
    AbortsOnce(cfg, store, ls);
  }

  /** A dry run plans and writes nothing. */
  lemma {:induction false} DryRunWritesNothing(cfg: Config, store: Store, ls: seq<Label>)
    requires cfg.dryRun && Valid(cfg, Init(cfg, store), ls)
    ensures var s := After(cfg, Init(cfg, store), ls);
            s.books.store == store && s.pc == Finished && s.received == [] && !s.pool.closed
            && s.pool.queue == [] && s.pool.busy == multiset{} && s.pool.buffer == []
    decreases |ls|
  {
    hide PlanUnits;
    if ls != [] {
      hide Apply;
      DryRunWritesNothing(cfg, store, Front(ls));
      WorkerFrame(cfg, After(cfg, Init(cfg, store), Front(ls)), Last(ls));
    }
  }

  // -------------------------------------------------------------- records

  /** The claims, events and relationships in the parsed payloads. */
  function WireRecords(os: seq<Outcome>): nat {
    if os == [] then 0
    else WireRecords(Front(os)) +
         match Last(os).wire
         case None => 0
         case Some(w) => |w.events| + |w.claims| + |w.relationships|
  }

  /** Edges kept without their justification over the sequential run. */
  ghost function UnjustifiedEdges(cfg: Config, b: Books, os: seq<Outcome>): nat {
    if os == [] then 0
    else UnjustifiedEdges(cfg, b, Front(os)) +
         match (Sequential(cfg, b, Front(os)), Last(os).wire)
         case (Some(m), Some(w)) => Count(ValidatedIn(m, Last(os).job.unit, w).drops, Unjustified())
         case (_, _) => 0
  }

  ghost function KeptRecords(b: Books): nat {
    b.records.events + b.records.claims + b.records.relationships
  }

  lemma HandleBalances(cfg: Config, b: Books, o: Outcome)
    requires Snapped(b) && Handle(cfg, b, o).Some? && o.wire.Some?
    ensures var t, w := Handle(cfg, b, o).value, o.wire.value;
            && KeptRecords(t) + t.dropped ==
               KeptRecords(b) + b.dropped + |w.events| + |w.claims| + |w.relationships| +
               Count(ValidatedIn(b, o.job.unit, w).drops, Unjustified())
            && t.records.claims - b.records.claims == |t.store.graph.claims| - |b.store.graph.claims|
            && t.records.events - b.records.events == |t.store.graph.events| - |b.store.graph.events|
            && t.kept == KeptOf(t.records)
  {
    hide Load, Validate, EntityIds, EventIds, ClaimRecordIds, OutputsOf, LogOf, Finish, PendUnit, Handle, Counted, Unjustified;
    HandleMoves(cfg, b, o);
    UnitBalances(o.wire.value, ScopeOf(b, o.job.unit));
    CountsAreGrowth(b.store.graph, o.wire.value, ScopeOf(b, o.job.unit));
  }

  lemma {:induction false} SequentialBalances(cfg: Config, b: Books, os: seq<Outcome>)
    requires Snapped(b) && Sequential(cfg, b, os).Some? && b.kept == KeptOf(b.records)
    ensures var t := Sequential(cfg, b, os).value;
            && Snapped(t)
            && KeptRecords(t) + t.dropped == KeptRecords(b) + b.dropped + WireRecords(os) + UnjustifiedEdges(cfg, b, os)
            && t.records.claims - b.records.claims == |t.store.graph.claims| - |b.store.graph.claims|
            && t.records.events - b.records.events == |t.store.graph.events| - |b.store.graph.events|
            && t.kept == KeptOf(t.records)
    decreases |os|
  {
    hide Handle, Snapped, ValidatedIn, Unjustified;
    if os != [] {
      var m, o := Sequential(cfg, b, Front(os)).value, Last(os);
      SequentialBalances(cfg, b, Front(os));
      HandleSnaps(cfg, m, o);
      HandleMoves(cfg, m, o);
      if o.wire.Some? { HandleBalances(cfg, m, o); }
    }
  }

  /**
   * Records are conserved in every reachable state: the claims and events counted are the
   * growth of those tables, and the claims, events and relationships kept or dropped are
   * those of the done units' payloads plus one per edge kept without its justification.
   */
  lemma RecordsBalance(cfg: Config, store: Store, ls: seq<Label>)
    requires DistinctKeys(cfg.units) && Valid(cfg, Init(cfg, store), ls)
    ensures var s := After(cfg, Init(cfg, store), ls);
            && |s.books.store.graph.claims| == |store.graph.claims| + s.books.records.claims
            && |s.books.store.graph.events| == |store.graph.events| + s.books.records.events
            && KeptRecords(s.books) + s.books.dropped ==
               WireRecords(s.received) + UnjustifiedEdges(cfg, OpenBooks(store), s.received)
            && s.books.kept == s.books.records.entities + KeptRecords(s.books)
  {
    hide *;
    var s := After(cfg, Init(cfg, store), ls);
    KeptIs(s.books);
    RefinesSequential(cfg, store, ls);
    OpenSnapped(store);
    OpenEmpty(store);
    RefinedBooks(cfg, OpenBooks(store), s);
    SequentialBalances(cfg, OpenBooks(store), s.received);
  }

  lemma KeptIs(b: Books)
    ensures KeptOf(b.records) == b.records.entities + KeptRecords(b)
  {
  }

  lemma OpenEmpty(store: Store)
    ensures var b := OpenBooks(store);
            b.store == store && KeptRecords(b) == 0 && b.records.claims == 0 && b.records.events == 0 && b.kept == KeptOf(b.records) && b.dropped == 0 && b.done == 0 && b.failed == 0
  {
  }

  lemma RefinedBooks(cfg: Config, start: Books, s: State)
    requires Refines(cfg, start, s)
    ensures Sequential(cfg, start, s.received).Some?
    ensures var t := Sequential(cfg, start, s.received).value;
            && KeptRecords(s.books) == KeptRecords(t) && s.books.store.graph == t.store.graph && s.books.records == t.records && s.books.kept == t.kept
            && s.books.dropped == t.dropped && s.books.done == t.done && s.books.failed == t.failed
  {
    hide Sequential, Outstanding, PendAll;
  }
}

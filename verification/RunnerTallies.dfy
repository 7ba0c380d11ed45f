/** A run's record and drop statistics against the ledger rows it finished. */
module RunnerTallies {
  import opened Basics
  import opened Units
  import opened Wire
  import opened Validation
  import opened DropConservation
  import opened Loader
  import opened LoadTheorems
  import opened Ledger
  import opened Runner
  import opened RunnerPool
  import opened RunnerOutcomes
  import opened RunnerRefinement
  import opened RunnerStore
  import opened RunnerLedger
  import opened RunnerResume
  import opened RunnerCounts

  /** Records kept and drops, counted and by kind and reason. */
  datatype Tally = Tally(records: Counts, dropped: nat, log: multiset<(DropKind, Reason)>)

  function AddTally(a: Tally, b: Tally): Tally {
    Tally(Counts(a.records.entities + b.records.entities, a.records.events + b.records.events,
                 a.records.claims + b.records.claims, a.records.relationships + b.records.relationships,
                 a.records.contradictions + b.records.contradictions),
          a.dropped + b.dropped, a.log + b.log)
  }

  const NO_TALLY := Tally(ZERO_COUNTS, 0, multiset{})

  ghost function RowTally(row: LedgerRow): Tally {
    Tally(if row.records.Some? then row.records.value else ZERO_COUNTS, Count(row.dropped, Counted()), LogOf(row.dropped))
  }

  /** What the ledger says about the units of the outcomes. */
  ghost function LedgerTally(run: RunId, l: Ledger, os: seq<Outcome>): Tally {
    if os == [] then NO_TALLY
    else
      var k := KeyOf(run, Last(os).job.unit);
      AddTally(LedgerTally(run, l, Front(os)), if k in l then RowTally(l[k]) else NO_TALLY)
  }

  function BooksTally(b: Books): Tally {
    Tally(b.records, b.dropped, b.dropLog)
  }

  lemma {:induction false} TallySameRows(run: RunId, a: Ledger, b: Ledger, os: seq<Outcome>)
    requires forall o :: o in os ==> SameRow(a, b, KeyOf(run, o.job.unit))
    ensures LedgerTally(run, a, os) == LedgerTally(run, b, os)
    decreases |os|
  {
    hide RowTally, AddTally;
    if os != [] {
      assert Last(os) in os;
      TallySameRows(run, a, b, Front(os));
    }
  }

  /** Handling an outcome adds its row's tally to the statistics. */
  lemma HandleTallies(cfg: Config, b: Books, o: Outcome)
    requires Handle(cfg, b, o).Some?
    ensures var t, k := Handle(cfg, b, o).value, KeyOf(cfg.run, o.job.unit);
            k in t.store.ledger && BooksTally(t) == AddTally(BooksTally(b), RowTally(t.store.ledger[k]))
  {
    hide Handle, ValidatedIn, Counted;
    HandleMoves(cfg, b, o);
    HandledRow(cfg, b, o);
    HandleLogs(cfg, b, o);
  }

  lemma HandleLogs(cfg: Config, b: Books, o: Outcome)
    requires Handle(cfg, b, o).Some?
    ensures Handle(cfg, b, o).value.dropLog == b.dropLog + LogOf(EndingOf(b, o).dropped)
  {
    hide Load, Validate, Finish, PendUnit, OutputsOf, Count;
  }

  lemma {:induction false} SequentialTallies(cfg: Config, b: Books, os: seq<Outcome>)
    requires Sequential(cfg, b, os).Some? && DistinctUnits(os)
    ensures var t := Sequential(cfg, b, os).value;
            BooksTally(t) == AddTally(BooksTally(b), LedgerTally(cfg.run, t.store.ledger, os))
    decreases |os|
  {
    hide Handle, RowTally, AddTally, BooksTally, HashOf, EndingOf;
    if os == [] { AddNoTally(BooksTally(b)); }
    else {
      var m, o := Sequential(cfg, b, Front(os)).value, Last(os);
      var t := Handle(cfg, m, o).value;
      SequentialTallies(cfg, b, Front(os));
      HandleTallies(cfg, m, o);
      HandledRow(cfg, m, o);
      forall x | x in Front(os)
        ensures SameRow(m.store.ledger, t.store.ledger, KeyOf(cfg.run, x.job.unit))
      {
        var i :| 0 <= i < |Front(os)| && Front(os)[i] == x;
        assert os[i].job.unit.unitKey != os[|os| - 1].job.unit.unitKey;
      }
      TallySameRows(cfg.run, m.store.ledger, t.store.ledger, Front(os));
      AddTallyAssoc(BooksTally(b), LedgerTally(cfg.run, m.store.ledger, Front(os)),
                    RowTally(t.store.ledger[KeyOf(cfg.run, o.job.unit)]));
    }
  }

  lemma AddNoTally(a: Tally)
    ensures AddTally(a, NO_TALLY) == a && AddTally(NO_TALLY, a) == a
  {
  }

  lemma AddTallyAssoc(a: Tally, b: Tally, c: Tally)
    ensures AddTally(AddTally(a, b), c) == AddTally(a, AddTally(b, c))
  {
    assert (a.log + b.log) + c.log == a.log + (b.log + c.log);
  }

  lemma OpenTally(store: Store)
    ensures BooksTally(OpenBooks(store)) == NO_TALLY
  {
  }

  lemma RefinedTally(cfg: Config, start: Books, s: State)
    requires Refines(cfg, start, s)
    ensures s.submitted <= |s.plan.pending| && Sequential(cfg, start, s.received).Some?
    ensures var t := Sequential(cfg, start, s.received).value;
            && BooksTally(s.books) == BooksTally(t)
            && s.books.store.ledger == PendAll(cfg, t.store.ledger, Outstanding(s.plan.pending, s.submitted, s.received))
  {
    hide Sequential, Outstanding, PendAll;
  }

  /**
   * In every reachable state the run's record counts, its drop count and its drop log are
   * those of the ledger rows it finished.
   */
  lemma StatisticsMatchLedger(cfg: Config, store: Store, ls: seq<Label>)
    requires DistinctKeys(cfg.units) && Valid(cfg, Init(cfg, store), ls)
    ensures var s := After(cfg, Init(cfg, store), ls);
            BooksTally(s.books) == LedgerTally(cfg.run, s.books.store.ledger, s.received)
  {
    hide Init, After, Valid, Sequential, Outstanding, PendAll, RowTally, Times, DistinctUnits, Refines, OpenBooks, AddTally,
      LedgerTally, BooksTally;
    var s := After(cfg, Init(cfg, store), ls);
    RefinesSequential(cfg, store, ls);
    RefinedTally(cfg, OpenBooks(store), s);
    OpenTally(store);
    ReceivedDistinct(cfg, store, ls);
    var b := Sequential(cfg, OpenBooks(store), s.received).value;
    var out := Outstanding(s.plan.pending, s.submitted, s.received);
    AddNoTally(LedgerTally(cfg.run, b.store.ledger, s.received));
    SequentialTallies(cfg, OpenBooks(store), s.received);
    forall o | o in s.received
      ensures SameRow(b.store.ledger, s.books.store.ledger, KeyOf(cfg.run, o.job.unit))
    {
      NotOutstanding(cfg, store, ls, o);
      PendAllRows(cfg, b.store.ledger, out, KeyOf(cfg.run, o.job.unit));
    }
    TallySameRows(cfg.run, b.store.ledger, s.books.store.ledger, s.received);
  }

  lemma NotOutstanding(cfg: Config, store: Store, ls: seq<Label>, o: Outcome)
    requires DistinctKeys(cfg.units) && Valid(cfg, Init(cfg, store), ls)
    requires var s := After(cfg, Init(cfg, store), ls); o in s.received && s.submitted <= |s.plan.pending|
    ensures var s := After(cfg, Init(cfg, store), ls);
            forall u :: u in Outstanding(s.plan.pending, s.submitted, s.received) ==>
              KeyOf(cfg.run, u) != KeyOf(cfg.run, o.job.unit)
  {
    hide Init, After, Valid, Times, Outstanding;
    var s := After(cfg, Init(cfg, store), ls);
    SamePlan(cfg, store, ls);
    PendingDistinct(cfg, store.ledger);
    ReceivedKnown(cfg, store, ls, o);
    TimesIn(s.received, o);
    forall u | u in Outstanding(s.plan.pending, s.submitted, s.received)
      ensures KeyOf(cfg.run, u) != KeyOf(cfg.run, o.job.unit)
    {
      OutstandingIn(s.plan.pending, s.submitted, s.received, u);
    }
  }
}

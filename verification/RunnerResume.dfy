/** Ledger rows step by step, and resuming: what is done stays done, and how many runs finish the work. */
module RunnerResume {
  import opened Basics
  import opened Units
  import opened Wire
  import opened Llm
  import opened Loader
  import opened Ledger
  import opened Runner
  import opened Planning
  import opened RunnerFrames
  import opened RunnerPool
  import opened RunnerOutcomes
  import opened RunnerRefinement
  import opened RunnerStore
  import opened RunnerLedger

  ghost predicate SameRow(a: Ledger, b: Ledger, k: LedgerKey) {
    (k in a <==> k in b) && (k in a ==> a[k] == b[k])
  }

  // ------------------------------------------------- rows of a sequential run

  lemma {:induction false} SequentialUntouched(cfg: Config, b: Books, os: seq<Outcome>, k: LedgerKey)
    requires Sequential(cfg, b, os).Some?
    requires forall o :: o in os ==> KeyOf(cfg.run, o.job.unit) != k
    ensures SameRow(b.store.ledger, Sequential(cfg, b, os).value.store.ledger, k)
    decreases |os|
  {
    hide Handle;
    if os != [] {
      SequentialUntouched(cfg, b, Front(os), k);
      HandledRow(cfg, Sequential(cfg, b, Front(os)).value, Last(os));
      assert Last(os) in os;
    }
  }

  ghost predicate DistinctUnits(os: seq<Outcome>) {
    forall m, n :: 0 <= m < n < |os| ==> os[m].job.unit.unitKey != os[n].job.unit.unitKey
  }

  lemma {:induction false} SequentialRow(cfg: Config, b: Books, os: seq<Outcome>, o: Outcome)
    requires Sequential(cfg, b, os).Some? && DistinctUnits(os) && o in os
    ensures var t, k := Sequential(cfg, b, os).value.store.ledger, KeyOf(cfg.run, o.job.unit);
            k in t && Concluded(cfg, b.store.ledger, o, t[k])
    decreases |os|
  {
    hide Handle, ValidatedIn;
    var m := Sequential(cfg, b, Front(os)).value;
    HandledRow(cfg, m, Last(os));
    if o != Last(os) {
      SequentialRow(cfg, b, Front(os), o);
      var i :| 0 <= i < |os| && os[i] == o;
      assert os[i].job.unit.unitKey != os[|os| - 1].job.unit.unitKey;
    } else {
      forall x | x in Front(os)
        ensures KeyOf(cfg.run, x.job.unit) != KeyOf(cfg.run, o.job.unit)
      {
        var i :| 0 <= i < |Front(os)| && Front(os)[i] == x;
        assert os[i].job.unit.unitKey != os[|os| - 1].job.unit.unitKey;
      }
      SequentialUntouched(cfg, b, Front(os), KeyOf(cfg.run, o.job.unit));
    }
  }

  /** The row of a committed outcome, the ledger having been as given before its unit was submitted. */
  ghost predicate Concluded(cfg: Config, was: Ledger, o: Outcome, row: LedgerRow) {
    var u, k := o.job.unit, LedgerKey(o.job.unit.unitKey, cfg.run.version);
    && row.status == (if o.wire.Some? then Done else Failed)
    && row.inputHash == cfg.hash(InputOf(u)) && row.model == cfg.run.model && row.runId == cfg.run.id
    && row.attempts == (if k in was then was[k].attempts else 0) + 1
    && row.documentId == (if k in was then was[k].documentId else u.documentId)
    && row.lastError == (if o.wire.Some? || o.err == "" then None else Some(o.err))
    && (o.wire.None? ==> row.records.None? && row.dropped == [])
  }

  /** The row of a submitted unit: it keeps what the ledger had of document, attempts, records and drops. */
  ghost predicate Pended(cfg: Config, was: Ledger, u: Unit, row: LedgerRow) {
    var k := LedgerKey(u.unitKey, cfg.run.version);
    && row.status == Pending && row.inputHash == cfg.hash(InputOf(u)) && row.model == cfg.run.model && row.runId == cfg.run.id
    && row.lastError == None
    && row.documentId == (if k in was then was[k].documentId else u.documentId)
    && row.attempts == (if k in was then was[k].attempts else 0)
    && row.records == (if k in was then was[k].records else None)
    && row.dropped == (if k in was then was[k].dropped else [])
  }

  // ---------------------------------------------------- rows of a reachable state

  lemma {:induction false} TimesTwice(os: seq<Outcome>, m: nat, n: nat)
    requires m < n < |os| && os[m].job == os[n].job
    ensures Times(os, os[m].job) >= 2
    decreases |os|
  {
    if n == |os| - 1 {
      assert Front(os)[m] == os[m];
      TimesIn(Front(os), os[m]);
    } else {
      assert Front(os)[m] == os[m] && Front(os)[n] == os[n];
      TimesTwice(Front(os), m, n);
    }
  }

  lemma ReceivedDistinct(cfg: Config, store: Store, ls: seq<Label>)
    requires DistinctKeys(cfg.units) && Valid(cfg, Init(cfg, store), ls)
    ensures DistinctUnits(After(cfg, Init(cfg, store), ls).received)
  {
    hide Init, After, Valid, Times;
    var s := After(cfg, Init(cfg, store), ls);
    SamePlan(cfg, store, ls);
    PendingDistinct(cfg, store.ledger);
    forall m, n | 0 <= m < n < |s.received|
      ensures s.received[m].job.unit.unitKey != s.received[n].job.unit.unitKey
    {
      ReceivedKnown(cfg, store, ls, s.received[m]);
      ReceivedKnown(cfg, store, ls, s.received[n]);
      if s.received[m].job == s.received[n].job { TimesTwice(s.received, m, n); }
    }
  }

  /** Rows of units the run has not submitted are as it found them. */
  lemma RowOutside(cfg: Config, store: Store, ls: seq<Label>, k: LedgerKey)
    requires DistinctKeys(cfg.units) && Valid(cfg, Init(cfg, store), ls)
    requires var s := After(cfg, Init(cfg, store), ls);
             forall i :: 0 <= i < s.submitted && i < |s.plan.pending| ==> KeyOf(cfg.run, s.plan.pending[i]) != k
    ensures SameRow(store.ledger, After(cfg, Init(cfg, store), ls).books.store.ledger, k)
  {
    hide Init, After, Valid, Times, Sequential, PendAll, Outstanding;
    var s := After(cfg, Init(cfg, store), ls);
    RefinesSequential(cfg, store, ls);
    var out := Outstanding(s.plan.pending, s.submitted, s.received);
    forall o | o in s.received
      ensures KeyOf(cfg.run, o.job.unit) != k
    {
      ReceivedKnown(cfg, store, ls, o);
    }
    forall u | u in out
      ensures KeyOf(cfg.run, u) != k
    {
      OutstandingIn(s.plan.pending, s.submitted, s.received, u);
    }
    SequentialUntouched(cfg, OpenBooks(store), s.received, k);
    PendAllRows(cfg, Sequential(cfg, OpenBooks(store), s.received).value.store.ledger, out, k);
  }

  lemma {:induction false} OutstandingHas(pending: seq<Unit>, n: nat, os: seq<Outcome>, i: nat)
    requires i < n <= |pending| && Times(os, Job(i, pending[i])) == 0
    ensures pending[i] in Outstanding(pending, n, os)
    decreases n
  {
    if i < n - 1 { OutstandingHas(pending, n - 1, os, i); }
  }

  /** A submitted unit without a received outcome is pending under its hash, with nothing else of its row lost. */
  lemma RowPending(cfg: Config, store: Store, ls: seq<Label>, i: nat)
    requires DistinctKeys(cfg.units) && Valid(cfg, Init(cfg, store), ls)
    requires var s := After(cfg, Init(cfg, store), ls);
             i < s.submitted <= |s.plan.pending| && Times(s.received, Job(i, s.plan.pending[i])) == 0
    ensures var s := After(cfg, Init(cfg, store), ls);
            var l, k := s.books.store.ledger, LedgerKey(s.plan.pending[i].unitKey, cfg.run.version);
            k in l && Pended(cfg, store.ledger, s.plan.pending[i], l[k])
  {
    hide Init, After, Valid, Times, Sequential, PendAll, Outstanding;
    var s := After(cfg, Init(cfg, store), ls);
    RefinesSequential(cfg, store, ls);
    SamePlan(cfg, store, ls);
    PendingDistinct(cfg, store.ledger);
    var u, out := s.plan.pending[i], Outstanding(s.plan.pending, s.submitted, s.received);
    OutstandingHas(s.plan.pending, s.submitted, s.received, i);
    forall w | w in out && w.unitKey == u.unitKey
      ensures w == u
    {
      OutstandingIn(s.plan.pending, s.submitted, s.received, w);
    }
    forall o | o in s.received
      ensures KeyOf(cfg.run, o.job.unit) != KeyOf(cfg.run, u)
    {
      ReceivedKnown(cfg, store, ls, o);
      TimesIn(s.received, o);
    }
    SequentialUntouched(cfg, OpenBooks(store), s.received, KeyOf(cfg.run, u));
    PendAllRow(cfg, Sequential(cfg, OpenBooks(store), s.received).value.store.ledger, out, u);
  }

  /** A unit with a received outcome is done if it parsed and failed if it did not, finished once more than before the run. */
  lemma RowReceived(cfg: Config, store: Store, ls: seq<Label>, o: Outcome)
    requires DistinctKeys(cfg.units) && Valid(cfg, Init(cfg, store), ls)
    requires o in After(cfg, Init(cfg, store), ls).received
    ensures var l, k := After(cfg, Init(cfg, store), ls).books.store.ledger, LedgerKey(o.job.unit.unitKey, cfg.run.version);
            k in l && Concluded(cfg, store.ledger, o, l[k])
  {
    hide Init, After, Valid, Times, Sequential, PendAll, Outstanding, Concluded;
    var s := After(cfg, Init(cfg, store), ls);
    RefinesSequential(cfg, store, ls);
    SamePlan(cfg, store, ls);
    PendingDistinct(cfg, store.ledger);
    ReceivedDistinct(cfg, store, ls);
    ReceivedKnown(cfg, store, ls, o);
    var out := Outstanding(s.plan.pending, s.submitted, s.received);
    forall u | u in out
      ensures KeyOf(cfg.run, u) != KeyOf(cfg.run, o.job.unit)
    {
      OutstandingIn(s.plan.pending, s.submitted, s.received, u);
      TimesIn(s.received, o);
    }
    SequentialRow(cfg, OpenBooks(store), s.received, o);
    PendAllRows(cfg, Sequential(cfg, OpenBooks(store), s.received).value.store.ledger, out, KeyOf(cfg.run, o.job.unit));
  }

  // ------------------------------------------------------------ transitions

  /** The row k was done and l is the step that reopened it: submitting its unit, whose hash had drifted. */
  ghost predicate Reopened(cfg: Config, s: State, l: Label, k: LedgerKey)
    requires k in s.books.store.ledger
  {
    && l.Submit? && s.next < |s.plan.pending| && k == LedgerKey(s.plan.pending[s.next].unitKey, cfg.run.version)
    && s.books.store.ledger[k].inputHash != cfg.hash(InputOf(s.plan.pending[s.next]))
  }

  /** A done row stays as it is at every step, unless its unit is resubmitted because its input hash differs. */
  lemma DoneReopensOnlyOnDrift(cfg: Config, store: Store, ls: seq<Label>, l: Label, k: LedgerKey)
    requires DistinctKeys(cfg.units) && Valid(cfg, Init(cfg, store), ls) && Enabled(cfg, After(cfg, Init(cfg, store), ls), l)
    requires var a := After(cfg, Init(cfg, store), ls).books.store.ledger; k in a && a[k].status == Done
    ensures var s := After(cfg, Init(cfg, store), ls);
            Reopened(cfg, s, l, k) || SameRow(s.books.store.ledger, Apply(cfg, s, l).books.store.ledger, k)
  {
    hide Init, After, Valid, Apply, Enabled, Times, Commit, MeterAfter, Affordable;
    var s := After(cfg, Init(cfg, store), ls);
    PoolAlways(cfg, store, ls);
    StepJob(cfg, s, l);
    if ByWorker(l) { WorkerFrame(cfg, s, l); }
    else if l.Submit? {
      SubmitMoves(cfg, s);
      if k == KeyOf(cfg.run, s.plan.pending[s.next]) { DriftedRow(cfg, store, ls); }
    } else if l.Receive? {
      ReceiveMoves(cfg, s, l.fault);
      var o := s.pool.buffer[0];
      ReceivedKnown(cfg, store, ls, o);
      HeldOnce(cfg, s, l.fault);
      RowPending(cfg, store, ls, o.job.index);
      CommitRow(cfg, s.books, o, k);
    } else { MainFrame(cfg, s, l); }
  }

  lemma CommitRow(cfg: Config, b: Books, o: Outcome, k: LedgerKey)
    requires k != KeyOf(cfg.run, o.job.unit)
    ensures Commit(cfg, b, o).Some? ==> SameRow(b.store.ledger, Commit(cfg, b, o).value.store.ledger, k)
  {
    hide ValidatedIn, EndingOf, OutputsOf;
  }

  /** If the next unit's row is done, its recorded hash is not the unit's. */
  lemma DriftedRow(cfg: Config, store: Store, ls: seq<Label>)
    requires DistinctKeys(cfg.units) && Valid(cfg, Init(cfg, store), ls)
    requires var s := After(cfg, Init(cfg, store), ls);
             PoolInv(cfg, s) && s.next < |s.plan.pending|
    ensures var s := After(cfg, Init(cfg, store), ls);
            var l, u := s.books.store.ledger, s.plan.pending[s.next];
            KeyOf(cfg.run, u) in l && l[KeyOf(cfg.run, u)].status == Done ==> l[KeyOf(cfg.run, u)].inputHash != HashOf(cfg, u)
  {
    hide Init, After, Valid, HashOf;
    var s := After(cfg, Init(cfg, store), ls);
    SamePlan(cfg, store, ls);
    PendingAreUnits(cfg, store.ledger);
    PendingDistinct(cfg, store.ledger);
    var u := s.plan.pending[s.next];
    assert u in s.plan.pending;
    RowOutside(cfg, store, ls, KeyOf(cfg.run, u));
  }

  // ------------------------------------------------------------ done stays done

  /** In this configuration the unit's key can only name the same document with the same surface. */
  ghost predicate SameUnitIn(cfg: Config, other: Config, u: Unit) {
    && other.hash == cfg.hash && other.run.version == cfg.run.version
    && forall w :: w in other.units && w.unitKey == u.unitKey ==> SameButSnapshots(u, w)
  }

  lemma SnapshotsUnhashed(u: Unit, w: Unit)
    requires SameButSnapshots(u, w)
    ensures InputOf(u) == InputOf(w)
  {
    InputOfExact(u, w);
  }

  /** A unit that is done now is never submitted, however the graph grew, and its row never changes. */
  lemma DoneNotResubmitted(cfg: Config, u: Unit, other: Config, store: Store, ls: seq<Label>)
    requires DistinctKeys(other.units) && Valid(other, Init(other, store), ls)
    requires DoneNow(cfg, store.ledger, u) && SameUnitIn(cfg, other, u)
    ensures var s := After(other, Init(other, store), ls);
            && (forall w :: w in s.plan.pending ==> w.unitKey != u.unitKey)
            && SameRow(store.ledger, s.books.store.ledger, LedgerKey(u.unitKey, cfg.run.version))
            && DoneNow(cfg, s.books.store.ledger, u)
  {
    hide Init, After, Valid;
    SamePlan(other, store, ls);
    PendingAreUnits(other, store.ledger);
    var s := After(other, Init(other, store), ls);
    forall w | w in s.plan.pending
      ensures w.unitKey != u.unitKey
    {
      if w.unitKey == u.unitKey { SnapshotsUnhashed(u, w); }
    }
    RowOutside(other, store, ls, KeyOf(cfg.run, u));
  }

  /** Once done, done for good: across any number of runs over unchanged inputs, each stopped anywhere. */
  lemma {:induction false} DoneStaysDone(cfg: Config, u: Unit, store: Store, rs: seq<Session>)
    requires Sessions(store, rs) && DoneNow(cfg, store.ledger, u)
    requires forall r :: r in rs ==> SameUnitIn(cfg, r.cfg, u)
    ensures DoneNow(cfg, AfterSessions(store, rs).ledger, u)
    ensures SameRow(store.ledger, AfterSessions(store, rs).ledger, LedgerKey(u.unitKey, cfg.run.version))
    decreases |rs|
  {
    hide Init, Valid, After, DoneNow, SameUnitIn;
    if rs != [] {
      var r := Last(rs);
      assert r in rs;
      DoneStaysDone(cfg, u, store, Front(rs));
      DoneNotResubmitted(cfg, u, r.cfg, AfterSessions(store, Front(rs)), r.steps);
    }
  }
}

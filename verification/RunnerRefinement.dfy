/** Every concurrent run is equivalent to handling the received outcomes one at a time. */
module RunnerRefinement {
  import opened Basics
  import opened Units
  import opened Validation
  import opened Loader
  import opened LoadTheorems
  import opened Ledger
  import opened Runner
  import opened RunnerFrames
  import opened RunnerPool
  import opened RunnerOutcomes

  // ------------------------------------------------------- the simple form

  /** One unit handled alone: pended, then committed. */
  ghost function Handle(cfg: Config, b: Books, o: Outcome): Option<Books> {
    Commit(cfg, WithLedger(b, PendUnit(cfg, b.store.ledger, o.job.unit)), o)
  }

  /** The outcomes handled one after another. */
  ghost function Sequential(cfg: Config, b: Books, os: seq<Outcome>): Option<Books> {
    if os == [] then Some(b)
    else match Sequential(cfg, b, Front(os))
         case None => None
         case Some(m) => Handle(cfg, m, Last(os))
  }

  ghost function PendAll(cfg: Config, l: Ledger, us: seq<Unit>): Ledger {
    if us == [] then l else PendUnit(cfg, PendAll(cfg, l, Front(us)), Last(us))
  }

  /** The submitted units without an outcome among os, in submission order. */
  ghost function Outstanding(pending: seq<Unit>, n: nat, os: seq<Outcome>): seq<Unit>
    requires n <= |pending|
  {
    if n == 0 then [] else
    Outstanding(pending, n - 1, os) + if Times(os, Job(n - 1, pending[n - 1])) == 0 then [pending[n - 1]] else []
  }

  /** The sequential books with the outstanding units pended on top. */
  ghost predicate Refines(cfg: Config, start: Books, s: State) {
    && s.submitted <= |s.plan.pending|
    && Sequential(cfg, start, s.received).Some?
    && var b := Sequential(cfg, start, s.received).value;
       s.books == WithLedger(b, PendAll(cfg, b.store.ledger, Outstanding(s.plan.pending, s.submitted, s.received)))
  }

  // ------------------------------------------------- distinct pending units

  lemma {:induction false} FilterDistinct(us: seq<Unit>, p: Unit -> bool)
    requires DistinctKeys(us)
    ensures DistinctKeys(Filter(us, p))
  {
    if us != [] {
      FilterDistinct(Front(us), p);
      forall u | u in Filter(Front(us), p)
        ensures u.unitKey != Last(us).unitKey
      {
        FilterIn(Front(us), p, u);
        var i :| 0 <= i < |Front(us)| && Front(us)[i] == u;
        assert us[i] == u;
      }
    }
  }

  lemma PendingDistinct(cfg: Config, ledger: Ledger)
    requires DistinctKeys(cfg.units)
    ensures DistinctKeys(PlanUnits(cfg, ledger).pending)
  {
    FilterDistinct(cfg.units, Stale(cfg, ledger));
  }

  // ------------------------------------------------------------- commuting

  lemma {:induction false} OutstandingIn(pending: seq<Unit>, n: nat, os: seq<Outcome>, u: Unit)
    requires n <= |pending| && u in Outstanding(pending, n, os)
    ensures exists i :: 0 <= i < n && pending[i] == u && Times(os, Job(i, u)) == 0
  {
    if u in Outstanding(pending, n - 1, os) { OutstandingIn(pending, n - 1, os, u); }
  }

  ghost predicate Unlike(u: Unit, us: seq<Unit>) {
    forall w :: w in us ==> w.unitKey != u.unitKey
  }

  lemma {:induction false} PendThrough(cfg: Config, l: Ledger, us: seq<Unit>, u: Unit)
    requires Unlike(u, us)
    ensures PendUnit(cfg, PendAll(cfg, l, us), u) == PendAll(cfg, PendUnit(cfg, l, u), us)
    decreases |us|
  {
    if us != [] {
      PendThrough(cfg, l, Front(us), u);
      PendsCommute(PendAll(cfg, l, Front(us)), cfg.run, Last(us), HashOf(cfg, Last(us)), u, HashOf(cfg, u));
    }
  }

  lemma {:induction false} FinishThrough(cfg: Config, l: Ledger, us: seq<Unit>, u: Unit, e: Ending)
    requires Unlike(u, us)
    ensures Finish(PendAll(cfg, l, us), cfg.run, u, e) == PendAll(cfg, Finish(l, cfg.run, u, e), us)
    decreases |us|
  {
    if us != [] {
      FinishThrough(cfg, l, Front(us), u, e);
      FinishCommutes(PendAll(cfg, l, Front(us)), cfg.run, Last(us), HashOf(cfg, Last(us)), u, e);
    }
  }

  lemma {:induction false} OutstandingSame(pending: seq<Unit>, n: nat, os: seq<Outcome>, o: Outcome)
    requires n <= |pending| && n <= o.job.index
    ensures Outstanding(pending, n, os + [o]) == Outstanding(pending, n, os)
  {
    if n > 0 {
      OutstandingSame(pending, n - 1, os, o);
      TimesAppend(os, o, Job(n - 1, pending[n - 1]));
    }
  }

  lemma OutstandingUnlike(pending: seq<Unit>, n: nat, os: seq<Outcome>, i: nat)
    requires DistinctKeys(pending) && n <= |pending| && i < |pending|
    requires i < n ==> Times(os, Job(i, pending[i])) > 0
    ensures Unlike(pending[i], Outstanding(pending, n, os))
  {
    forall w | w in Outstanding(pending, n, os)
      ensures w.unitKey != pending[i].unitKey
    {
      OutstandingIn(pending, n, os, w);
    }
  }

  /** Taking the unit of o off the outstanding list is pending it first. */
  lemma {:induction false} PendFirst(cfg: Config, l: Ledger, pending: seq<Unit>, n: nat, os: seq<Outcome>, o: Outcome)
    requires DistinctKeys(pending) && o.job.index < n <= |pending| && o.job.unit == pending[o.job.index]
    requires Times(os, o.job) == 0
    ensures PendAll(cfg, l, Outstanding(pending, n, os)) ==
            PendAll(cfg, PendUnit(cfg, l, o.job.unit), Outstanding(pending, n, os + [o]))
    decreases n
  {
    hide PendUnit, PendAll, Outstanding, Times;
    var last := Job(n - 1, pending[n - 1]);
    var before, now := Outstanding(pending, n - 1, os), Outstanding(pending, n - 1, os + [o]);
    TimesAppend(os, o, last);
    OutstandingNext(pending, n, os);
    OutstandingNext(pending, n, os + [o]);
    PendAllAppend(cfg, l, before, last.unit);
    if o.job == last {
      OutstandingSame(pending, n - 1, os, o);
      OutstandingUnlike(pending, n - 1, os, n - 1);
      PendThrough(cfg, l, before, o.job.unit);
    } else {
      PendFirst(cfg, l, pending, n - 1, os, o);
      PendAllAppend(cfg, PendUnit(cfg, l, o.job.unit), now, last.unit);
    }
  }

  lemma OutstandingNext(pending: seq<Unit>, n: nat, os: seq<Outcome>)
    requires 0 < n <= |pending|
    ensures Outstanding(pending, n, os) ==
            if Times(os, Job(n - 1, pending[n - 1])) == 0 then Outstanding(pending, n - 1, os) + [pending[n - 1]]
            else Outstanding(pending, n - 1, os)
  {
  }

  lemma PendAllAppend(cfg: Config, l: Ledger, us: seq<Unit>, u: Unit)
    ensures PendAll(cfg, l, us + [u]) == PendUnit(cfg, PendAll(cfg, l, us), u)
  {
    assert Front(us + [u]) == us;
  }

  /** The ledger plays no part in a commit beyond its own row. */
  lemma CommitWithLedger(cfg: Config, b: Books, l: Ledger, o: Outcome)
    ensures Commit(cfg, WithLedger(b, l), o).Some? <==> Commit(cfg, b, o).Some?
    ensures Commit(cfg, b, o).Some? ==>
              Commit(cfg, WithLedger(b, l), o) ==
              Some(WithLedger(Commit(cfg, b, o).value, Finish(l, cfg.run, o.job.unit, EndingOf(b, o))))
    ensures EndingOf(WithLedger(b, l), o) == EndingOf(b, o)
  {
    hide Load, Validate, EntityIds, EventIds, ClaimRecordIds, CountsOf, OutputsOf, LogOf, Finish;
  }

  // --------------------------------------------------------------- the steps

  lemma SubmitRefines(cfg: Config, start: Books, s: State)
    requires Refines(cfg, start, s) && PoolInv(cfg, s) && Enabled(cfg, s, Submit)
    requires OnceInv(s, Job(s.submitted, s.plan.pending[s.submitted]))
    ensures Refines(cfg, start, Apply(cfg, s, Submit))
  {
    hide Apply, PendUnit, Sequential, Affordable, Times, PendAll;
    SubmitMoves(cfg, s);
    var b := Sequential(cfg, start, s.received).value;
    var p, n := s.plan.pending, s.submitted;
    var out := Outstanding(p, n, s.received);
    assert Outstanding(p, n + 1, s.received) == out + [p[n]];
    PendAllAppend(cfg, b.store.ledger, out, p[n]);
  }

  lemma ReceiveRefines(cfg: Config, start: Books, s: State, fault: Fault)
    requires Refines(cfg, start, s) && DistinctKeys(s.plan.pending) && Enabled(cfg, s, Receive(fault))
    requires var j := s.pool.buffer[0].job; WasSubmitted(s, j) && Delivered(s, j) == 0
    ensures Refines(cfg, start, Apply(cfg, s, Receive(fault)))
  {
    hide Apply, PendUnit, Affordable, Commit, MeterAfter, PendAll, Outstanding, Finish, EndingOf, Times;
    ReceiveMoves(cfg, s, fault);
    var o := s.pool.buffer[0];
    var b := Sequential(cfg, start, s.received).value;
    var l, u := b.store.ledger, o.job.unit;
    var p, n := s.plan.pending, s.submitted;
    if fault.NoFault? && Commit(cfg, s.books, o).Some? {
      var after := Outstanding(p, n, s.received + [o]);
      var e := EndingOf(b, o);
      CommitWithLedger(cfg, b, PendAll(cfg, l, Outstanding(p, n, s.received)), o);
      CommitWithLedger(cfg, b, PendUnit(cfg, l, u), o);
      PendFirst(cfg, l, p, n, s.received, o);
      TimesAppend(s.received, o, o.job);
      OutstandingUnlike(p, n, s.received + [o], o.job.index);
      FinishThrough(cfg, PendUnit(cfg, l, u), after, u, e);
      assert Front(s.received + [o]) == s.received;
    }
  }

  lemma RefinesStep(cfg: Config, start: Books, s: State, l: Label)
    requires Refines(cfg, start, s) && PoolInv(cfg, s) && DistinctKeys(s.plan.pending) && Enabled(cfg, s, l)
    requires l.Submit? ==> OnceInv(s, Job(s.submitted, s.plan.pending[s.submitted]))
    requires l.Receive? ==> WasSubmitted(s, s.pool.buffer[0].job) && Delivered(s, s.pool.buffer[0].job) == 0
    ensures Refines(cfg, start, Apply(cfg, s, l))
  {
    if l.Submit? { SubmitRefines(cfg, start, s); }
    else if l.Receive? { ReceiveRefines(cfg, start, s, l.fault); }
    else {
      hide Apply, Enabled, Outstanding, Sequential, PendAll;
      if ByWorker(l) { WorkerFrame(cfg, s, l); } else { MainFrame(cfg, s, l); }
    }
  }

  /**
   * In every reachable state of every run, whatever the interleaving, cancellation and
   * failures, the books are those of handling the received outcomes one after another in
   * completion order, with the units still outstanding marked pending.
   */
  lemma {:induction false} RefinesSequential(cfg: Config, store: Store, ls: seq<Label>)
    requires DistinctKeys(cfg.units) && Valid(cfg, Init(cfg, store), ls)
    ensures Refines(cfg, OpenBooks(store), After(cfg, Init(cfg, store), ls))
    decreases |ls|
  {
    hide PlanUnits, OpenBooks, Apply, Enabled, PoolInv, Refines, Init;
    if ls == [] { RefinesInit(cfg, store); }
    else {
      var s, l := After(cfg, Init(cfg, store), Front(ls)), Last(ls);
      RefinesSequential(cfg, store, Front(ls));
      PoolAlways(cfg, store, Front(ls));
      SamePlan(cfg, store, Front(ls));
      PendingDistinct(cfg, store.ledger);
      StepJob(cfg, s, l);
      if l.Submit? {
        OnceAlways(cfg, store, Front(ls), Job(s.submitted, s.plan.pending[s.submitted]));
      } else if l.Receive? {
        ReceivedKnown(cfg, store, Front(ls), s.pool.buffer[0]);
        HeldOnce(cfg, s, l.fault);
      }
      RefinesStep(cfg, OpenBooks(store), s, l);
    }
  }

  lemma RefinesInit(cfg: Config, store: Store)
    ensures Refines(cfg, OpenBooks(store), Init(cfg, store))
  {
    hide PlanUnits, OpenBooks;
  }

  lemma StepJob(cfg: Config, s: State, l: Label)
    requires PoolInv(cfg, s) && Enabled(cfg, s, l)
    ensures l.Submit? ==> s.submitted < |s.plan.pending|
    ensures l.Receive? ==> s.pool.buffer != [] && s.pool.buffer[0] in s.pool.buffer
  {
    hide Affordable;
  }

  lemma HeldOnce(cfg: Config, s: State, fault: Fault)
    requires s.pool.buffer != [] && Held(s.pool, s.pool.buffer[0].job) + Delivered(s, s.pool.buffer[0].job) == 1
    ensures Delivered(s, s.pool.buffer[0].job) == 0
  {
    TimesIn(s.pool.buffer, s.pool.buffer[0]);
  }

  lemma {:induction false} SamePlan(cfg: Config, store: Store, ls: seq<Label>)
    requires Valid(cfg, Init(cfg, store), ls)
    ensures After(cfg, Init(cfg, store), ls).plan == PlanUnits(cfg, store.ledger)
    decreases |ls|
  {
    hide PlanUnits, OpenBooks, Apply, Enabled, PendUnit, Commit, MeterAfter, Affordable;
    if ls != [] {
      SamePlan(cfg, store, Front(ls));
      PlanFrame(cfg, After(cfg, Init(cfg, store), Front(ls)), Last(ls));
    }
  }

  lemma PlanFrame(cfg: Config, s: State, l: Label)
    requires Enabled(cfg, s, l)
    ensures Apply(cfg, s, l).plan == s.plan
  {
    hide Apply, PendUnit, Commit, MeterAfter, Affordable;
    if ByWorker(l) { WorkerFrame(cfg, s, l); }
    else if l.Submit? { SubmitMoves(cfg, s); }
    else if l.Receive? { ReceiveMoves(cfg, s, l.fault); }
    else { MainFrame(cfg, s, l); }
  }
}

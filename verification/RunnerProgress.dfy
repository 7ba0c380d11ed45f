/** Limited runs that go well finish the work in exactly the fewest runs the limit allows. */
module RunnerProgress {
  import opened Basics
  import opened Units
  import opened Wire
  import opened Ledger
  import opened Runner
  import opened Planning
  import opened RunnerFrames
  import opened RunnerPool
  import opened RunnerOutcomes
  import opened RunnerRefinement
  import opened RunnerStore
  import opened RunnerResume
  import opened RunnerCounts
  import opened RunnerLoads

  /**
   * A run over a ready store was carried through without a cancellation, a budget stop or a
   * failing database call, every model call succeeded, and no received payload offended.
   */
  ghost predicate Smooth(cfg: Config, store: Store, ls: seq<Label>) {
    && !cfg.dryRun && DistinctKeys(cfg.units) && Ready(cfg, store.graph) && Valid(cfg, Init(cfg, store), ls)
    && (forall l :: l in ls ==> !l.Cancel? && !l.OverBudget?) && Undisturbed(cfg, store, ls)
    && var s := After(cfg, Init(cfg, store), ls);
       s.pc == Finished && forall o :: o in s.received ==> o.wire.Some?
  }

  lemma {:induction false} NeverStopped(cfg: Config, store: Store, ls: seq<Label>)
    requires Valid(cfg, Init(cfg, store), ls)
    requires forall l :: l in ls ==> !l.Cancel? && !l.OverBudget?
    ensures var s := After(cfg, Init(cfg, store), ls); !s.stop && !s.cancelled
    decreases |ls|
  {
    hide PlanUnits, OpenBooks, Apply, Affordable, Commit, MeterAfter, PendUnit;
    if ls != [] {
      var s, l := After(cfg, Init(cfg, store), Front(ls)), Last(ls);
      assert l in ls;
      NeverStopped(cfg, store, Front(ls));
      if ByWorker(l) { WorkerFrame(cfg, s, l); }
      else if l.Submit? { SubmitMoves(cfg, s); }
      else if l.Receive? { ReceiveMoves(cfg, s, l.fault); }
      else { MainFrame(cfg, s, l); }
    }
  }

  /** A smooth run receives every pending unit. */
  lemma SmoothReceives(cfg: Config, store: Store, ls: seq<Label>, i: nat)
    requires Smooth(cfg, store, ls) && i < |After(cfg, Init(cfg, store), ls).plan.pending|
    ensures var s := After(cfg, Init(cfg, store), ls);
            exists o :: o in s.received && o.job == Job(i, s.plan.pending[i])
  {
    hide Init, After, Valid, Times, Ready, Undisturbed;
    var s := After(cfg, Init(cfg, store), ls);
    AbortsExactly(cfg, store, ls);
    NeverStopped(cfg, store, ls);
    PoolAlways(cfg, store, ls);
    CountAlways(cfg, store, ls);
    ExactlyOnce(cfg, store, ls, Job(i, s.plan.pending[i]));
    assert s.lost == [] && s.drained == [];
    TimesSome(s.received, s.lost, s.drained, Job(i, s.plan.pending[i]));
  }

  lemma {:induction false} TimesSome(os: seq<Outcome>, a: seq<Outcome>, b: seq<Outcome>, j: Job)
    requires a == [] && b == [] && Times(os, j) + Times(a, j) + Times(b, j) == 1
    ensures exists o :: o in os && o.job == j
    decreases |os|
  {
    if Last(os).job == j {
      assert Last(os) in os;
    } else {
      TimesSome(Front(os), a, b, j);
      var o :| o in Front(os) && o.job == j;
      assert o in os;
    }
  }

  // -------------------------------------------------------- what is left over

  lemma FrontDistinct(us: seq<Unit>)
    requires us != [] && DistinctKeys(us)
    ensures DistinctKeys(Front(us))
  {
  }

  /** Dropping the first m survivors of a filter leaves the rest of them. */
  lemma {:induction false} FilterTail(us: seq<Unit>, p: Unit -> bool, q: Unit -> bool, m: nat)
    requires DistinctKeys(us) && m <= |Filter(us, p)|
    requires forall u :: u in us ==> (q(u) <==> p(u) && u !in Filter(us, p)[..m])
    ensures Filter(us, q) == Filter(us, p)[m..]
    decreases |us|
  {
    if us != [] {
      var f, last, all := Front(us), Last(us), Filter(us, p);
      var kept := Filter(f, p);
      LastIsNew(us);
      FrontDistinct(us);
      FilterNext(us, p);
      FilterNext(us, q);
      if last in kept { FilterIn(f, p, last); }
      hide DistinctKeys, Filter;
      assert forall u :: u in f ==> u in us;
      assert last in us;
      if m <= |kept| {
        assert all[..m] == kept[..m];
        FilterTail(f, p, q, m);
        assert all[m..] == kept[m..] + if p(last) then [last] else [];
      } else {
        assert all[..m] == kept + [last] && kept[..|kept|] == kept && all[m..] == [];
        assert last in all[..m] && !q(last);
        FilterTail(f, p, q, |kept|);
      }
    }
  }

  lemma FilterNext(us: seq<Unit>, p: Unit -> bool)
    requires us != []
    ensures Filter(us, p) == Filter(Front(us), p) + if p(Last(us)) then [Last(us)] else []
  {
  }

  lemma LastIsNew(us: seq<Unit>)
    requires us != [] && DistinctKeys(us)
    ensures Last(us) !in Front(us)
  {
    forall u | u in Front(us)
      ensures u != Last(us)
    {
      var i :| 0 <= i < |Front(us)| && Front(us)[i] == u;
      assert us[i].unitKey != us[|us| - 1].unitKey;
    }
  }

  lemma StaleAfter(cfg: Config, store: Store, ls: seq<Label>, u: Unit)
    requires Smooth(cfg, store, ls) && u in cfg.units
    ensures var s := After(cfg, Init(cfg, store), ls);
            UpToDate(cfg, s.books.store.ledger, u) <==> UpToDate(cfg, store.ledger, u) || u in s.plan.pending
  {
    hide Init, After, Valid;
    var s := After(cfg, Init(cfg, store), ls);
    SamePlan(cfg, store, ls);
    PendingAreUnits(cfg, store.ledger);
    if i :| 0 <= i < |s.plan.pending| && s.plan.pending[i] == u {
      SmoothReceives(cfg, store, ls, i);
      var o :| o in s.received && o.job == Job(i, u);
      RowReceived(cfg, store, ls, o);
    } else {
      forall w | w in s.plan.pending
        ensures w.unitKey != u.unitKey
      {
        KeyNames(cfg.units, u, w);
      }
      RowOutside(cfg, store, ls, KeyOf(cfg.run, u));
    }
  }

  lemma KeyNames(us: seq<Unit>, u: Unit, w: Unit)
    requires DistinctKeys(us) && u in us && w in us && u != w
    ensures u.unitKey != w.unitKey
  {
    var i :| 0 <= i < |us| && us[i] == u;
    var j :| 0 <= j < |us| && us[j] == w;
    assert us[i].unitKey != us[j].unitKey;
  }

  /** A smooth run finishes exactly the units it took on, each for the input it has now. */
  lemma SmoothFinishes(cfg: Config, store: Store, ls: seq<Label>, u: Unit)
    requires Smooth(cfg, store, ls) && u in cfg.units
    ensures var s := After(cfg, Init(cfg, store), ls);
            DoneNow(cfg, s.books.store.ledger, u) <==> DoneNow(cfg, store.ledger, u) || u in s.plan.pending
  {
    hide Init, After, Valid, Smooth;
    SmoothParts(cfg, store, ls);
    StaleAfter(cfg, store, ls, u);
  }

  /** After a smooth run without a limit, and with room for every unit, every unit is done for the input it has now. */
  lemma SmoothFinishesAll(cfg: Config, store: Store, ls: seq<Label>)
    requires Smooth(cfg, store, ls) && cfg.limit <= 0 && |cfg.units| <= cfg.maxUnits
    ensures forall u :: u in cfg.units ==> DoneNow(cfg, After(cfg, Init(cfg, store), ls).books.store.ledger, u)
  {
    hide Init, After, Valid, Smooth, DoneNow, PlanUnits, PlanIs;
    SmoothParts(cfg, store, ls);
    SamePlan(cfg, store, ls);
    PlanExactly(cfg, store.ledger);
    forall u | u in cfg.units
      ensures DoneNow(cfg, After(cfg, Init(cfg, store), ls).books.store.ledger, u)
    {
      SmoothFinishes(cfg, store, ls, u);
      UncappedTakes(cfg, store.ledger, PlanUnits(cfg, store.ledger), u);
    }
  }

  /** A smooth run leaves stale exactly the units past its cap, in order. */
  lemma SmoothLeavesTail(cfg: Config, store: Store, ls: seq<Label>)
    requires Smooth(cfg, store, ls)
    ensures var s := After(cfg, Init(cfg, store), ls);
            && |s.plan.pending| <= |StaleUnits(cfg, store.ledger)|
            && StaleUnits(cfg, s.books.store.ledger) == StaleUnits(cfg, store.ledger)[|s.plan.pending|..]
  {
    hide Init, After, Valid, Smooth, UpToDate;
    SmoothParts(cfg, store, ls);
    var s := After(cfg, Init(cfg, store), ls);
    SamePlan(cfg, store, ls);
    var p, q, m := Stale(cfg, store.ledger), Stale(cfg, s.books.store.ledger), |s.plan.pending|;
    forall u | u in cfg.units
      ensures q(u) <==> p(u) && u !in Filter(cfg.units, p)[..m]
    {
      StaleAfter(cfg, store, ls, u);
    }
    FilterTail(cfg.units, p, q, m);
  }

  lemma SmoothParts(cfg: Config, store: Store, ls: seq<Label>)
    requires Smooth(cfg, store, ls)
    ensures DistinctKeys(cfg.units) && Valid(cfg, Init(cfg, store), ls)
  {
  }

  // ----------------------------------------------------------- several runs

  /** The same units, hash and prompt version, seen against whatever graph there is by then. */
  ghost predicate SameWork(cfg: Config, other: Config) {
    && other.hash == cfg.hash && other.run.version == cfg.run.version
    && |other.units| == |cfg.units| && forall i :: 0 <= i < |cfg.units| ==> SameButSnapshots(cfg.units[i], other.units[i])
  }

  lemma {:induction false} FilterSameLength(us: seq<Unit>, ws: seq<Unit>, p: Unit -> bool, q: Unit -> bool)
    requires |us| == |ws| && forall i :: 0 <= i < |us| ==> p(us[i]) == q(ws[i])
    ensures |Filter(us, p)| == |Filter(ws, q)|
    decreases |us|
  {
    if us != [] {
      assert p(us[|us| - 1]) == q(ws[|ws| - 1]);
      FilterSameLength(Front(us), Front(ws), p, q);
    }
  }

  /** How much is stale does not depend on the snapshots the units carry. */
  lemma SameWorkStale(cfg: Config, other: Config, ledger: Ledger)
    requires SameWork(cfg, other)
    ensures |StaleUnits(other, ledger)| == |StaleUnits(cfg, ledger)|
  {
    forall i | 0 <= i < |cfg.units|
      ensures Stale(cfg, ledger)(cfg.units[i]) == Stale(other, ledger)(other.units[i])
    {
      SnapshotsUnhashed(cfg.units[i], other.units[i]);
    }
    FilterSameLength(cfg.units, other.units, Stale(cfg, ledger), Stale(other, ledger));
  }

  /** Every session runs smoothly over the same work with limit k, the unit cap allowing it. */
  ghost predicate SmoothSessions(cfg: Config, store: Store, rs: seq<Session>, k: nat)
    requires Sessions(store, rs)
    decreases |rs|
  {
    rs == [] ||
    (&& SmoothSessions(cfg, store, Front(rs), k)
     && Smooth(Last(rs).cfg, AfterSessions(store, Front(rs)), Last(rs).steps)
     && SameWork(cfg, Last(rs).cfg) && Last(rs).cfg.limit == k <= Last(rs).cfg.maxUnits)
  }

  /** Each smooth run with limit k takes k off the stale units, or what is left of them. */
  lemma {:induction false} StaleLeft(cfg: Config, store: Store, rs: seq<Session>, k: nat)
    requires k > 0 && Sessions(store, rs) && SmoothSessions(cfg, store, rs, k)
    ensures |StaleUnits(cfg, AfterSessions(store, rs).ledger)| == Max(0, |StaleUnits(cfg, store.ledger)| - |rs| * k)
    decreases |rs|
  {
    hide StaleUnits, Smooth, SameWork, Init, Valid, After, Sessions;
    if rs != [] {
      var r := Last(rs);
      SessionsUnfold(store, rs);
      var before, after := AfterSessions(store, Front(rs)), AfterSessions(store, rs);
      StaleLeft(cfg, store, Front(rs), k);
      SmoothLeavesTail(r.cfg, before, r.steps);
      SamePlan(r.cfg, before, r.steps);
      PlanTakes(r.cfg, before.ledger, k);
      SameWorkStale(cfg, r.cfg, before.ledger);
      SameWorkStale(cfg, r.cfg, after.ledger);
      assert |rs| * k == (|rs| - 1) * k + k;
    }
  }

  lemma SessionsUnfold(store: Store, rs: seq<Session>)
    requires rs != [] && Sessions(store, rs)
    ensures Sessions(store, Front(rs))
    ensures Valid(Last(rs).cfg, Init(Last(rs).cfg, AfterSessions(store, Front(rs))), Last(rs).steps)
  {
  }

  lemma PlanTakes(cfg: Config, ledger: Ledger, k: nat)
    requires cfg.limit == k <= cfg.maxUnits && k > 0
    ensures |PlanUnits(cfg, ledger).pending| == Min(k, |StaleUnits(cfg, ledger)|)
  {
    hide StaleUnits;
  }

  /** n units that are not done now are all done after r smooth runs of limit k exactly when r is at least n / k, rounded up. */
  lemma FinishesInExactly(cfg: Config, store: Store, rs: seq<Session>, k: nat, at: seq<nat>)
    requires k > 0 && Sessions(store, rs) && SmoothSessions(cfg, store, rs, k) && NotDoneAt(cfg, store.ledger, at)
    ensures (forall u :: u in cfg.units ==> DoneNow(cfg, AfterSessions(store, rs).ledger, u)) <==> |rs| >= (|at| + k - 1) / k
  {
    hide *;
    StaleLeft(cfg, store, rs, k);
    StaleAre(cfg, store.ledger, at);
    var left := SomeStale(cfg, AfterSessions(store, rs).ledger);
    StaleAre(cfg, AfterSessions(store, rs).ledger, left);
    RoundUp(|at|, |rs|, k);
    MaxZero(|at| - |rs| * k);
  }

  lemma MaxZero(x: int)
    ensures Max(0, x) == 0 <==> x <= 0
  {
  }

  lemma RoundUp(n: nat, r: nat, k: nat)
    requires k > 0
    ensures n <= r * k <==> r >= (n + k - 1) / k
  {
    var q := (n + k - 1) / k;
    assert n + k - 1 == q * k + (n + k - 1) % k;
    if r >= q {
      assert r * k >= q * k;
    } else {
      assert (r + 1) * k <= q * k;
      assert (r + 1) * k == r * k + k;
    }
  }
}

/** How far the soft budget can be overshot, over every interleaving. */
module RunnerBudget {
  import opened Basics
  import opened Units
  import opened Wire
  import opened Llm
  import opened Ledger
  import opened Runner
  import opened RunnerFrames
  import opened RunnerPool
  import opened RunnerOutcomes
  import opened RunnerRefinement
  import opened RunnerCounts

  // ---------------------------------------------------------------- spend

  function CostOf(cfg: Config, o: Outcome): real {
    Spend(cfg.prices, o.responses)
  }

  /** What the outcomes cost together. */
  function Costs(cfg: Config, os: seq<Outcome>): real {
    if os == [] then 0.0 else Costs(cfg, Front(os)) + CostOf(cfg, Last(os))
  }

  /** All money spent on delivered outcomes: received, lost to an abort, drained, or still in the channel. */
  function TotalSpend(cfg: Config, s: State): real {
    Costs(cfg, s.received) + Costs(cfg, s.lost) + Costs(cfg, s.drained) + Costs(cfg, s.pool.buffer)
  }

  lemma CostsAppend(cfg: Config, os: seq<Outcome>, o: Outcome)
    ensures Costs(cfg, os + [o]) == Costs(cfg, os) + CostOf(cfg, o)
  {
    assert Front(os + [o]) == os;
  }

  /** While nothing is lost, the tracker has counted exactly the received outcomes. */
  ghost predicate Metered(cfg: Config, s: State) {
    s.lost == [] ==> CostUSD(cfg.prices, s.meter.usage) == Costs(cfg, s.received)
  }

  lemma MeteredReceive(cfg: Config, s: State, fault: Fault)
    requires Metered(cfg, s) && Enabled(cfg, s, Receive(fault))
    ensures Metered(cfg, Apply(cfg, s, Receive(fault)))
  {
    hide Apply, Commit, Costs, CostUSD, Spend;
    ReceiveMoves(cfg, s, fault);
    var o := s.pool.buffer[0];
    CostsAppend(cfg, s.received, o);
    CostIsSpend(cfg.prices, s.meter.usage, o.responses);
  }

  lemma MeteredStep(cfg: Config, s: State, l: Label)
    requires Metered(cfg, s) && Enabled(cfg, s, l)
    ensures Metered(cfg, Apply(cfg, s, l))
  {
    hide Apply, Enabled, Costs, CostUSD, PendUnit, WithLedger;
    if l.Receive? { MeteredReceive(cfg, s, l.fault); }
    else if ByWorker(l) { WorkerFrame(cfg, s, l); }
    else if l.Submit? { SubmitMoves(cfg, s); }
    else { MainFrame(cfg, s, l); }
  }

  lemma {:induction false} MeteredAlways(cfg: Config, store: Store, ls: seq<Label>)
    requires Valid(cfg, Init(cfg, store), ls)
    ensures Metered(cfg, After(cfg, Init(cfg, store), ls))
    decreases |ls|
  {
    hide PlanUnits, OpenBooks, Apply, Enabled;
    if ls != [] {
      hide Metered;
      MeteredAlways(cfg, store, Front(ls));
      MeteredStep(cfg, After(cfg, Init(cfg, store), Front(ls)), Last(ls));
    }
  }

  // ---------------------------------------------------- bound by the window

  /** Every worker's answer along the run costs between nothing and m(unit). */
  ghost predicate AnswersCost(cfg: Config, ls: seq<Label>, m: Unit -> real) {
    forall l :: l in ls && l.Answer? ==> 0.0 <= CostOf(cfg, CallUnit(cfg, l.job, l.replies)) <= m(l.job.unit)
  }

  ghost predicate Bounded(cfg: Config, os: seq<Outcome>, m: Unit -> real) {
    forall o :: o in os ==> 0.0 <= CostOf(cfg, o) <= m(o.job.unit)
  }

  ghost predicate AllBounded(cfg: Config, s: State, m: Unit -> real) {
    Bounded(cfg, s.pool.buffer, m) && Bounded(cfg, s.received, m) && Bounded(cfg, s.lost, m) && Bounded(cfg, s.drained, m)
  }

  lemma BoundedStep(cfg: Config, s: State, l: Label, m: Unit -> real)
    requires AllBounded(cfg, s, m) && Enabled(cfg, s, l) && AnswersCost(cfg, [l], m)
    ensures AllBounded(cfg, Apply(cfg, s, l), m)
  {
    hide Apply, CostOf, CallUnit, PendUnit, WithLedger, Commit, MeterAfter, Affordable;
    if ByWorker(l) {
      WorkerFrame(cfg, s, l);
      if l.Answer? {
        assert l in [l];
        CallJob(cfg, l.job, l.replies);
      }
    }
    else if l.Submit? { SubmitMoves(cfg, s); }
    else if l.Receive? { ReceiveMoves(cfg, s, l.fault); }
    else { MainFrame(cfg, s, l); }
  }

  lemma {:induction false} BoundedAlways(cfg: Config, store: Store, ls: seq<Label>, m: Unit -> real)
    requires Valid(cfg, Init(cfg, store), ls) && AnswersCost(cfg, ls, m)
    ensures AllBounded(cfg, After(cfg, Init(cfg, store), ls), m)
    decreases |ls|
  {
    hide PlanUnits, OpenBooks, Apply, Enabled, CostOf;
    if ls != [] {
      hide AllBounded;
      BoundedAlways(cfg, store, Front(ls), m);
      BoundedStep(cfg, After(cfg, Init(cfg, store), Front(ls)), Last(ls), m);
    }
  }

  /** n units at m each. */
  function Share(n: nat, m: real): real {
    n as real * m
  }

  /** n outcomes cost at most n times m. */
  lemma {:induction false} CostsAtMost(cfg: Config, os: seq<Outcome>, m: real)
    requires Bounded(cfg, os, _ => m) && m >= 0.0
    ensures 0.0 <= Costs(cfg, os) <= Share(|os|, m)
    decreases |os|
  {
    hide CostOf;
    ShareNotNegative(|os|, m);
    if os != [] {
      hide Share;
      assert forall o :: o in Front(os) ==> o in os;
      assert Last(os) in os;
      CostsAtMost(cfg, Front(os), m);
      Times1(|os| - 1, m);
    }
  }

  lemma Times1(n: nat, m: real)
    ensures Share(n + 1, m) == Share(n, m) + m
  {
  }

  lemma TimesMonotone(a: nat, b: nat, m: real)
    requires a <= b && m >= 0.0
    ensures Share(a, m) <= Share(b, m)
  {
    NotNegative((b - a) as real, m);
    assert b as real * m == a as real * m + (b - a) as real * m;
  }

  /** Money spent, plus m for each unit in flight, is covered once anything was submitted. */
  ghost predicate Covered(cfg: Config, s: State, m: real) {
    s.submitted > 0 ==>
      Costs(cfg, s.received) + Costs(cfg, s.lost) + Share(s.inflight, m) <= cfg.budget + Share(Window(cfg), m)
  }

  lemma CoveredSubmit(cfg: Config, s: State, m: real)
    requires PoolInv(cfg, s) && Metered(cfg, s) && s.lost == [] && Enabled(cfg, s, Submit) && Priced(cfg.prices) && m >= 0.0
    requires Estimate(cfg, s.plan.pending[s.next]) >= 0.0
    ensures Covered(cfg, Apply(cfg, s, Submit), m)
  {
    hide Apply, PendUnit, WithLedger, CostUSD, Estimate, Share;
    SubmitMoves(cfg, s);
    TimesMonotone(s.inflight + 1, Window(cfg), m);
  }

  lemma CoveredReceive(cfg: Config, s: State, fault: Fault, m: real)
    requires PoolInv(cfg, s) && Covered(cfg, s, m) && AllBounded(cfg, s, _ => m) && Enabled(cfg, s, Receive(fault))
    ensures Covered(cfg, Apply(cfg, s, Receive(fault)), m)
  {
    hide Apply, Commit, MeterAfter, Costs, CostOf, Share;
    ReceiveMoves(cfg, s, fault);
    var o := s.pool.buffer[0];
    CostsAppend(cfg, s.received, o);
    CostsAppend(cfg, s.lost, o);
    Times1(s.inflight - 1, m);
  }

  lemma CoveredStep(cfg: Config, s: State, l: Label, m: real)
    requires PoolInv(cfg, s) && Covered(cfg, s, m) && AllBounded(cfg, s, _ => m) && Enabled(cfg, s, l)
    requires Metered(cfg, s) && CountInv(s) && Priced(cfg.prices) && m >= 0.0 && EstimatesPositive(cfg)
    ensures Covered(cfg, Apply(cfg, s, l), m)
  {
    hide Apply, Covered, CostOf, Bounded, Metered, PoolInv, CountInv, Estimate, Priced;
    if l.Receive? { CoveredReceive(cfg, s, l.fault, m); }
    else if l.Submit? {
      SubmitNotLost(cfg, s);
      CoveredSubmit(cfg, s, m);
    } else { CoveredOther(cfg, s, l, m); }
  }

  lemma CoveredOther(cfg: Config, s: State, l: Label, m: real)
    requires Covered(cfg, s, m) && Enabled(cfg, s, l) && !l.Receive? && !l.Submit?
    ensures Covered(cfg, Apply(cfg, s, l), m)
  {
    hide Apply, Enabled, Costs, Share;
    if ByWorker(l) { WorkerFrame(cfg, s, l); } else { MainFrame(cfg, s, l); }
  }

  lemma SubmitNotLost(cfg: Config, s: State)
    requires CountInv(s) && Enabled(cfg, s, Submit)
    ensures s.lost == []
  {
    hide Affordable;
  }

  /** No estimate is negative: prices are not. */
  ghost predicate EstimatesPositive(cfg: Config) {
    forall u :: Estimate(cfg, u) >= 0.0
  }

  lemma EstimatePositive(cfg: Config)
    requires cfg.prices.inMTok >= 0.0 && cfg.prices.outMTok >= 0.0
    ensures EstimatesPositive(cfg)
  {
    forall u
      ensures Estimate(cfg, u) >= 0.0
    {
      var t := EstimateTokens(cfg.promptLength(u)) as real / 1000000.0;
      NotNegative(t, cfg.prices.inMTok);
      NotNegative(4000.0 / 1000000.0, cfg.prices.outMTok);
    }
  }

  lemma NotNegative(a: real, b: real)
    requires a >= 0.0 && b >= 0.0
    ensures a * b >= 0.0
  {
  }

  lemma {:induction false} CoveredAlways(cfg: Config, store: Store, ls: seq<Label>, m: real)
    requires !cfg.dryRun && Valid(cfg, Init(cfg, store), ls) && AnswersCost(cfg, ls, _ => m)
    requires Priced(cfg.prices) && m >= 0.0 && EstimatesPositive(cfg)
    ensures Covered(cfg, After(cfg, Init(cfg, store), ls), m)
    decreases |ls|
  {
    hide PlanUnits, OpenBooks, Apply, Enabled, CostOf, PoolInv, CountInv, Metered, AllBounded, Priced, EstimatesPositive;
    if ls != [] {
      hide Covered;
      CoveredAlways(cfg, store, Front(ls), m);
      PoolAlways(cfg, store, Front(ls));
      MeteredAlways(cfg, store, Front(ls));
      CountAlways(cfg, store, Front(ls));
      BoundedAlways(cfg, store, Front(ls), _ => m);
      CoveredStep(cfg, After(cfg, Init(cfg, store), Front(ls)), Last(ls), m);
    }
  }

  /**
   * In a priced run with a budget of at least zero, where no unit costs more than m, the
   * money spent never exceeds the budget by more than m per concurrent call, drained
   * outcomes included, at any moment of any interleaving.
   */
  lemma BudgetBound(cfg: Config, store: Store, ls: seq<Label>, m: real)
    requires !cfg.dryRun && Valid(cfg, Init(cfg, store), ls)
    requires cfg.prices.inMTok >= 0.0 && cfg.prices.outMTok >= 0.0 && Priced(cfg.prices) && cfg.budget >= 0.0
    requires m >= 0.0 && AnswersCost(cfg, ls, _ => m)
    ensures TotalSpend(cfg, After(cfg, Init(cfg, store), ls)) <= cfg.budget + Share(Window(cfg), m)
  {
    hide Init, After, Valid, CostOf, Bounded, EstimatesPositive, Share;
    var s := After(cfg, Init(cfg, store), ls);
    EstimatePositive(cfg);
    PoolAlways(cfg, store, ls);
    CoveredAlways(cfg, store, ls, m);
    BoundedAlways(cfg, store, ls, _ => m);
    CostsAtMost(cfg, s.pool.buffer, m);
    CostsAtMost(cfg, s.drained, m);
    BudgetSum(cfg, s, m);
  }

  lemma BudgetSum(cfg: Config, s: State, m: real)
    requires PoolInv(cfg, s) && Covered(cfg, s, m) && m >= 0.0 && cfg.budget >= 0.0
    requires Costs(cfg, s.pool.buffer) <= Share(|s.pool.buffer|, m) && Costs(cfg, s.drained) <= Share(|s.drained|, m)
    ensures TotalSpend(cfg, s) <= cfg.budget + Share(Window(cfg), m)
  {
    if s.submitted == 0 {
      NothingSpent(cfg, s);
      ShareNotNegative(Window(cfg), m);
    } else {
      hide Costs, Window, Share;
      SumTimes(|s.pool.buffer|, |s.drained|, m);
      TimesMonotone(|s.pool.buffer| + |s.drained|, s.inflight, m);
    }
  }

  lemma NothingSpent(cfg: Config, s: State)
    requires PoolInv(cfg, s) && s.submitted == 0
    ensures TotalSpend(cfg, s) == 0.0
  {
    assert s.received == [] && s.lost == [] && s.drained == [] && s.pool.buffer == [];
  }

  lemma ShareNotNegative(n: nat, m: real)
    requires m >= 0.0
    ensures Share(n, m) >= 0.0
  {
  }

  lemma SumTimes(a: nat, b: nat, m: real)
    ensures Share(a, m) + Share(b, m) == Share(a + b, m)
  {
  }

  // ------------------------------------------- one worker, honest estimates

  /** Neither what is spent nor any undelivered unit at its estimate goes past the budget. */
  ghost predicate WithinBudget(cfg: Config, s: State) {
    var spent := Costs(cfg, s.received) + Costs(cfg, s.lost);
    && spent <= cfg.budget
    && forall j :: WasSubmitted(s, j) && Times(s.received, j) + Times(s.lost, j) == 0 ==>
         spent + Estimate(cfg, j.unit) <= cfg.budget
  }

  ghost function Estimated(cfg: Config): Unit -> real {
    (u: Unit) => Estimate(cfg, u)
  }

  lemma WithinSubmit(cfg: Config, s: State)
    requires PoolInv(cfg, s) && Metered(cfg, s) && CountInv(s) && Enabled(cfg, s, Submit)
    requires Priced(cfg.prices) && Window(cfg) == 1 && WithinBudget(cfg, s) && forall j :: OnceInv(s, j)
    ensures WithinBudget(cfg, Apply(cfg, s, Submit))
  {
    hide Apply, PendUnit, WithLedger, CostUSD, Estimate, Costs, Times;
    SubmitNotLost(cfg, s);
    SubmitMoves(cfg, s);
    var t, u := Apply(cfg, s, Submit), s.plan.pending[s.next];
    NothingHeld(cfg, s);
    CostsNone(cfg);
    forall j | WasSubmitted(t, j) && Times(t.received, j) + Times(t.lost, j) == 0
      ensures j.unit == u
    {
      assert OnceInv(s, j);
    }
  }

  lemma NothingHeld(cfg: Config, s: State)
    requires PoolInv(cfg, s) && s.inflight == 0
    ensures forall j :: Held(s.pool, j) == 0 && Times(s.drained, j) == 0
  {
    assert s.pool.queue == [] && s.pool.busy == multiset{} && s.pool.buffer == [] && s.drained == [];
    forall j
      ensures Held(s.pool, j) == 0 && Times(s.drained, j) == 0
    {
      assert multiset(s.pool.queue)[j] == 0 && s.pool.busy[j] == 0;
    }
  }

  lemma WithinReceive(cfg: Config, s: State, fault: Fault)
    requires PoolInv(cfg, s) && WithinBudget(cfg, s) && Enabled(cfg, s, Receive(fault)) && forall j :: OnceInv(s, j)
    requires Window(cfg) == 1 && AllBounded(cfg, s, Estimated(cfg))
    ensures WithinBudget(cfg, Apply(cfg, s, Receive(fault)))
  {
    hide Apply, Commit, MeterAfter, Costs, CostOf, Estimate, Times;
    ReceiveMoves(cfg, s, fault);
    var t, o := Apply(cfg, s, Receive(fault)), s.pool.buffer[0];
    CostsAppend(cfg, s.received, o);
    CostsAppend(cfg, s.lost, o);
    OnlyHeld(cfg, s);
    assert OnceInv(s, o.job) && o in s.pool.buffer;
    forall j
      ensures !(WasSubmitted(t, j) && Times(t.received, j) + Times(t.lost, j) == 0)
    {
      assert OnceInv(s, j);
      TimesAppend(s.received, o, j);
      TimesAppend(s.lost, o, j);
    }
  }

  lemma OnlyHeld(cfg: Config, s: State)
    requires PoolInv(cfg, s) && s.pool.buffer != [] && Window(cfg) == 1
    ensures forall j :: Held(s.pool, j) == (if j == s.pool.buffer[0].job then 1 else 0) && Times(s.drained, j) == 0
  {
    assert s.pool.buffer == [s.pool.buffer[0]] && s.pool.queue == [] && s.pool.busy == multiset{} && s.drained == [];
    assert Front(s.pool.buffer) == [];
    forall j
      ensures Held(s.pool, j) == (if j == s.pool.buffer[0].job then 1 else 0) && Times(s.drained, j) == 0
    {
      assert Last(s.pool.buffer) == s.pool.buffer[0] && Times(Front(s.pool.buffer), j) == 0;
      assert multiset(s.pool.queue)[j] == 0 && s.pool.busy[j] == 0;
    }
  }

  lemma WithinStep(cfg: Config, s: State, l: Label)
    requires PoolInv(cfg, s) && Metered(cfg, s) && CountInv(s) && AllBounded(cfg, s, Estimated(cfg)) && Enabled(cfg, s, l)
    requires Priced(cfg.prices) && Window(cfg) == 1 && WithinBudget(cfg, s) && forall j :: OnceInv(s, j)
    ensures WithinBudget(cfg, Apply(cfg, s, l))
  {
    hide Apply, Enabled, Costs, CostOf, Bounded, Metered, PoolInv, CountInv, Estimate, Priced, Times, AllBounded, OnceInv;
    if l.Submit? { WithinSubmit(cfg, s); }
    else if l.Receive? { WithinReceive(cfg, s, l.fault); }
    else if ByWorker(l) { WorkerFrame(cfg, s, l); }
    else { MainFrame(cfg, s, l); }
  }

  lemma {:induction false} WithinAlways(cfg: Config, store: Store, ls: seq<Label>)
    requires !cfg.dryRun && Valid(cfg, Init(cfg, store), ls) && AnswersCost(cfg, ls, Estimated(cfg))
    requires Priced(cfg.prices) && Window(cfg) == 1 && cfg.budget >= 0.0
    ensures WithinBudget(cfg, After(cfg, Init(cfg, store), ls))
    decreases |ls|
  {
    hide PlanUnits, OpenBooks, Apply, Enabled, CostOf, PoolInv, CountInv, Metered, AllBounded, Priced, OnceInv;
    if ls != [] {
      hide WithinBudget;
      var s := After(cfg, Init(cfg, store), Front(ls));
      WithinAlways(cfg, store, Front(ls));
      PoolAlways(cfg, store, Front(ls));
      MeteredAlways(cfg, store, Front(ls));
      CountAlways(cfg, store, Front(ls));
      BoundedAlways(cfg, store, Front(ls), Estimated(cfg));
      forall j ensures OnceInv(s, j) { OnceAlways(cfg, store, Front(ls), j); }
      WithinStep(cfg, s, Last(ls));
    }
  }

  /** With one call at a time, and no unit costing more than its own estimate, the budget is never exceeded. */
  lemma BudgetKept(cfg: Config, store: Store, ls: seq<Label>)
    requires !cfg.dryRun && Valid(cfg, Init(cfg, store), ls)
    requires Priced(cfg.prices) && Window(cfg) == 1 && cfg.budget >= 0.0 && AnswersCost(cfg, ls, Estimated(cfg))
    ensures TotalSpend(cfg, After(cfg, Init(cfg, store), ls)) <= cfg.budget
  {
    hide Init, After, Valid, CostOf, Costs, Estimate, Priced, Times;
    var s := After(cfg, Init(cfg, store), ls);
    PoolAlways(cfg, store, ls);
    WithinAlways(cfg, store, ls);
    BoundedAlways(cfg, store, ls, Estimated(cfg));
    CostsNone(cfg);
    if s.pool.buffer + s.drained != [] {
      var o := (s.pool.buffer + s.drained)[0];
      OneLeft(cfg, s);
      assert o in s.pool.buffer || o in s.drained;
      OnceAlways(cfg, store, ls, o.job);
      if o in s.pool.buffer { TimesIn(s.pool.buffer, o); } else { TimesIn(s.drained, o); }
      CostsAppend(cfg, [], o);
      assert [] + [o] == [o];
    }
  }

  lemma CostsNone(cfg: Config)
    ensures Costs(cfg, []) == 0.0
  {
  }

  lemma OneLeft(cfg: Config, s: State)
    requires PoolInv(cfg, s) && Window(cfg) == 1 && s.pool.buffer + s.drained != []
    ensures var o := (s.pool.buffer + s.drained)[0];
            (s.pool.buffer == [o] && s.drained == []) || (s.pool.buffer == [] && s.drained == [o])
  {
  }
}

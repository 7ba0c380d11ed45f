/** Runs that go well exist, and enough of them finish any work. */
module SmoothRuns {
  import opened Basics
  import opened Units
  import opened Wire
  import opened Llm
  import opened Validation
  import opened LoadsExactly
  import opened Ledger
  import opened Runner
  import opened Planning
  import opened RunnerFrames
  import opened RunnerPool
  import opened RunnerOutcomes
  import opened RunnerRefinement
  import opened RunnerStore
  import opened RunnerCounts
  import opened RunnerLoads
  import opened RunnerProgress

  /** No event of the payload could offend any graph. */
  ghost predicate Innocent(w: WireExtraction) {
    forall e :: e in w.events ==> !Offends(e)
  }

  /** An answer that parses to an innocent payload. */
  ghost predicate Welcome(cfg: Config, r: Reply) {
    Parses(cfg, r) && Innocent(Payload(PayloadIn(cfg, r)))
  }

  ghost predicate Clear(o: Outcome) {
    o.wire.Some? && Innocent(o.wire.value)
  }

  ghost function Always(cfg: Config, r: Reply): seq<Reply> {
    seq(MaxAttempts(cfg), _ => r)
  }

  lemma WelcomeClears(cfg: Config, job: Job, r: Reply)
    requires Welcome(cfg, r)
    ensures Clear(CallUnit(cfg, job, Always(cfg, r)))
  {
    hide Payload, PayloadProblems, Innocent;
    assert Always(cfg, r)[0] == r;
  }

  lemma ClearCommits(b: Books, o: Outcome)
    requires Clear(o)
    ensures !OffendsIn(b, o)
  {
    var scope := ScopeOf(b, o.job.unit);
    KeepKeys(o.wire.value.events, EventId(), EventOk(scope));
  }

  // ----------------------------------------------------------- one smooth run

  ghost predicate AllClear(os: seq<Outcome>) {
    forall o :: o in os ==> Clear(o)
  }

  /** Going well so far. */
  ghost predicate Going(cfg: Config, store: Store, ls: seq<Label>) {
    && Valid(cfg, Init(cfg, store), ls) && (forall l :: l in ls ==> !l.Cancel? && !l.OverBudget?)
    && Undisturbed(cfg, store, ls)
    && var s := After(cfg, Init(cfg, store), ls);
       AllClear(s.pool.buffer) && AllClear(s.received)
  }

  /** The next step of a run in which every call is answered by r. */
  ghost function SmoothStep(cfg: Config, s: State, r: Reply): Label {
    if s.pc == Fill then if Filling(cfg, s) then Submit else EndFill
    else if s.pc == Closing then Close
    else if s.pc == Drain then if s.pool.buffer == [] then Conclude else Discard
    else if s.pc == Select && s.pool.buffer != [] then Receive(NoFault)
    else if s.pool.busy != multiset{} then
      var job :| job in s.pool.busy; Answer(job, Always(cfg, r))
    else if s.pool.queue != [] then Take
    else if s.pool.alive > 0 then Exit
    else Wait
  }

  lemma SmoothStepTaken(cfg: Config, s: State, r: Reply)
    requires PoolInv(cfg, s) && s.pc != Finished && !s.cancelled && !Priced(cfg.prices)
    ensures var l := SmoothStep(cfg, s, r);
            && Enabled(cfg, s, l) && !l.Cancel? && !l.OverBudget? && !l.PendFails? && !l.Poll?
            && (l.Receive? ==> l.fault == NoFault) && (l.Answer? ==> l.replies == Always(cfg, r))
  {
    assert s.pool.busy != multiset{} ==> exists job :: job in s.pool.busy;
  }

  lemma StaysClear(cfg: Config, s: State, l: Label, r: Reply)
    requires Welcome(cfg, r) && Enabled(cfg, s, l) && (l.Answer? ==> l.replies == Always(cfg, r))
    requires AllClear(s.pool.buffer) && AllClear(s.received)
    ensures var t := Apply(cfg, s, l); AllClear(t.pool.buffer) && AllClear(t.received)
  {
    hide Apply, Commit, MeterAfter, CallUnit, PendUnit, WithLedger, Clear, Welcome, Affordable;
    if ByWorker(l) {
      WorkerFrame(cfg, s, l);
      if l.Answer? { WelcomeClears(cfg, l.job, r); }
    }
    else if l.Submit? { SubmitMoves(cfg, s); }
    else if l.Receive? { ReceiveMoves(cfg, s, l.fault); }
    else { MainFrame(cfg, s, l); }
  }

  lemma StepTrace(cfg: Config, store: Store, ls: seq<Label>, l: Label)
    requires Valid(cfg, Init(cfg, store), ls) && Enabled(cfg, After(cfg, Init(cfg, store), ls), l)
    requires Undisturbed(cfg, store, ls) && !Disturbs(After(cfg, Init(cfg, store), ls), l)
    ensures Valid(cfg, Init(cfg, store), ls + [l]) && Undisturbed(cfg, store, ls + [l])
    ensures After(cfg, Init(cfg, store), ls + [l]) == Apply(cfg, After(cfg, Init(cfg, store), ls), l)
  {
    hide Enabled, Apply, Disturbs, Init;
    assert Front(ls + [l]) == ls;
  }

  /** A run that is going well can take another step and still go well. */
  lemma GoOn(cfg: Config, store: Store, ls: seq<Label>, r: Reply) returns (l: Label)
    requires Welcome(cfg, r) && !Priced(cfg.prices) && Going(cfg, store, ls)
    requires After(cfg, Init(cfg, store), ls).pc != Finished
    ensures Going(cfg, store, ls + [l])
    ensures Rank(After(cfg, Init(cfg, store), ls + [l])) < Rank(After(cfg, Init(cfg, store), ls))
  {
    hide Init, After, Valid, Undisturbed, Apply, Enabled, Clear, Welcome, Rank, PoolInv, OffendsIn;
    var s := After(cfg, Init(cfg, store), ls);
    PoolAlways(cfg, store, ls);
    NeverStopped(cfg, store, ls);
    l := SmoothStep(cfg, s, r);
    SmoothStepTaken(cfg, s, r);
    if l.Receive? { ReceivesClear(cfg, s); }
    StepTrace(cfg, store, ls, l);
    StaysClear(cfg, s, l, r);
    RankFalls(cfg, s, l);
  }

  lemma ReceivesClear(cfg: Config, s: State)
    requires Enabled(cfg, s, Receive(NoFault)) && AllClear(s.pool.buffer)
    ensures !Disturbs(s, Receive(NoFault))
  {
    hide Clear, OffendsIn;
    assert s.pool.buffer[0] in s.pool.buffer;
    ClearCommits(s.books, s.pool.buffer[0]);
  }

  lemma {:induction false} CarryThrough(cfg: Config, store: Store, ls: seq<Label>, r: Reply, rank: nat) returns (all: seq<Label>)
    requires Welcome(cfg, r) && !Priced(cfg.prices) && Going(cfg, store, ls)
    requires Rank(After(cfg, Init(cfg, store), ls)) <= rank
    ensures Going(cfg, store, all) && After(cfg, Init(cfg, store), all).pc == Finished
    decreases rank
  {
    hide Init, Valid, After, Undisturbed, Rank, Welcome, AllClear;
    if After(cfg, Init(cfg, store), ls).pc == Finished {
      all := ls;
    } else {
      var l := GoOn(cfg, store, ls, r);
      PoolAlways(cfg, store, ls + [l]);
      RankPositive(cfg, After(cfg, Init(cfg, store), ls + [l]));
      all := CarryThrough(cfg, store, ls + [l], r, rank - 1);
    }
  }

  /** A ready store, distinct units, no prices, and an answer that parses: nothing else is needed for a smooth run. */
  ghost predicate Startable(cfg: Config, store: Store, r: Reply) {
    && !cfg.dryRun && DistinctKeys(cfg.units) && Ready(cfg, store.graph) && !Priced(cfg.prices) && Welcome(cfg, r)
  }

  lemma GoingAtFirst(cfg: Config, store: Store)
    ensures Going(cfg, store, [])
  {
    hide PlanUnits, OpenBooks;
  }

  lemma SmoothRunExists(cfg: Config, store: Store, r: Reply) returns (ls: seq<Label>)
    requires Startable(cfg, store, r)
    ensures Smooth(cfg, store, ls)
  {
    hide Init, Valid, After, Undisturbed, Rank, Welcome, Clear, Ready, Priced;
    GoingAtFirst(cfg, store);
    PoolAlways(cfg, store, []);
    RankPositive(cfg, After(cfg, Init(cfg, store), []));
    ls := CarryThrough(cfg, store, [], r, Rank(After(cfg, Init(cfg, store), [])));
    ClearParsed(After(cfg, Init(cfg, store), ls).received);
  }

  lemma ClearParsed(os: seq<Outcome>)
    requires AllClear(os)
    ensures forall o :: o in os ==> o.wire.Some?
  {
  }

  // ------------------------------------------------------------- many of them

  lemma StillReady(cfg: Config, store: Store, ls: seq<Label>)
    requires Smooth(cfg, store, ls)
    ensures Ready(cfg, After(cfg, Init(cfg, store), ls).books.store.graph)
  {
    hide Ready, Undisturbed;
    ReadyAlways(cfg, store, ls);
  }

  lemma SameWorkAsItself(cfg: Config)
    ensures SameWork(cfg, cfg)
  {
  }

  /** Any number of smooth runs can follow one another. */
  lemma {:induction false} SmoothSessionsExist(cfg: Config, store: Store, r: Reply, k: nat, m: nat) returns (rs: seq<Session>)
    requires Startable(cfg, store, r) && cfg.limit == k <= cfg.maxUnits
    ensures |rs| == m && Sessions(store, rs) && SmoothSessions(cfg, store, rs, k) && Ready(cfg, AfterSessions(store, rs).graph)
    decreases m
  {
    hide Init, Valid, After, Smooth, SameWork, Ready, Welcome, DistinctKeys, Priced;
    if m == 0 {
      rs := [];
    } else {
      var before := SmoothSessionsExist(cfg, store, r, k, m - 1);
      var at := AfterSessions(store, before);
      var ls := SmoothRunExists(cfg, at, r);
      rs := before + [Session(cfg, ls)];
      assert Front(rs) == before;
      SmoothParts(cfg, at, ls);
      StillReady(cfg, at, ls);
      SameWorkAsItself(cfg);
    }
  }

  /** n units that are not done now can be finished in n / k runs of limit k, rounded up; by FinishesInExactly no fewer smooth runs would do. */
  lemma WorkCanFinish(cfg: Config, store: Store, r: Reply, k: nat, at: seq<nat>) returns (rs: seq<Session>)
    requires Startable(cfg, store, r) && k > 0 && cfg.limit == k <= cfg.maxUnits && NotDoneAt(cfg, store.ledger, at)
    ensures Sessions(store, rs) && SmoothSessions(cfg, store, rs, k)
    ensures |rs| == (|at| + k - 1) / k
    ensures forall u :: u in cfg.units ==> DoneNow(cfg, AfterSessions(store, rs).ledger, u)
  {
    hide *;
    var m := (|at| + k - 1) / k;
    RunsPositive(|at|, k);
    rs := SmoothSessionsExist(cfg, store, r, k, m);
    FinishesInExactly(cfg, store, rs, k, at);
  }

  lemma RunsPositive(n: nat, k: nat)
    requires k > 0
    ensures (n + k - 1) / k >= 0
  {
  }
}

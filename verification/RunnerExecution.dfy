/** The main goroutine over mutable state: every loop of execute, proved to follow the state machine to its end. */
module RunnerExecution {
  import opened Basics
  import opened Units
  import opened Wire
  import opened Llm
  import opened Validation
  import opened ValidationLoops
  import opened Tables
  import opened Ledger
  import opened Runner
  import opened RunnerFrames
  import opened RunnerPool
  import opened RunnerLoop
  import opened RunnerCounts
  import opened RunnerStore
  import opened Integrity
  import opened LoadTheorems

  lemma TraceStep(cfg: Config, s: State, ls: seq<Label>, l: Label)
    requires Runner.Valid(cfg, s, ls) && Enabled(cfg, After(cfg, s, ls), l)
    ensures Runner.Valid(cfg, s, ls + [l]) && After(cfg, s, ls + [l]) == Apply(cfg, After(cfg, s, ls), l)
  {
    hide Enabled, Apply;
    assert Front(ls + [l]) == ls;
  }

  /**
   * One run. The scheduler and the database's failures are arbitrary choices; patience
   * bounds how often the scheduler lets a cancelled context win over a waiting outcome.
   */
  class Execution {
    const cfg: Config
    const keeper: Bookkeeper
    const crew: Crew
    const pending: seq<Unit>
    const total: nat
    const skipped: nat
    const truncated: nat
    var deferred: nat
    var report: Option<Report>
    var next: nat
    var inflight: nat
    var submitted: nat
    var stop: bool
    var cancelled: bool
    var aborted: bool
    var patience: nat
    // history
    ghost const origin: Store
    ghost const postponed: nat
    ghost var pc: Pc
    ghost var received: seq<Outcome>
    ghost var lost: seq<Outcome>
    ghost var drained: seq<Outcome>
    ghost var trace: seq<Label>

    ghost function View(): State
      reads this, keeper, keeper.tracker, crew
    {
      State(Workload(pending, total, skipped, postponed, truncated), keeper.View(), keeper.Readings(), deferred, report,
            next, inflight, submitted, stop, cancelled, aborted, crew.View(), pc, received, lost, drained)
    }

    /** The object is where its history leads from the store it started on. */
    ghost predicate Consistent()
      reads this, keeper, keeper.tracker, crew
    {
      && keeper.cfg == cfg && crew.cfg == cfg && keeper.tracker.prices == cfg.prices
      && Runner.Valid(cfg, Init(cfg, origin), trace)
      && View() == After(cfg, Init(cfg, origin), trace)
      && NulFreeIds(keeper.entities)
    }

    /** What is left to do, granting the scheduler its patience. */
    ghost function Measure(): int
      reads this, keeper, keeper.tracker, crew
    {
      Rank(View()) + 2 * patience + if cancelled then 0 else 1
    }

    constructor (cfg: Config, reply: nat -> Reply, graph: Db, ledger: Ledger, outputs: seq<Output>, patience: nat)
      requires NulFreeIds(graph.entities.Keys)
      ensures Consistent() && trace == [] && origin == Store(graph, ledger, outputs) && this.cfg == cfg
      ensures fresh(keeper) && fresh(keeper.tracker) && fresh(crew) && pc == if cfg.dryRun then Finished else Fill
    {
      this.cfg, this.patience := cfg, patience;
      keeper := new Bookkeeper(cfg, graph, ledger, outputs);
      crew := new Crew(cfg, reply);
      var planned, already, later, cut := PlanRun(cfg, ledger);
      pending, skipped, deferred, truncated, total := planned, already, later, cut, |cfg.units|;
      postponed, origin, report := later, Store(graph, ledger, outputs), None;
      next, inflight, submitted, stop, cancelled, aborted := 0, 0, 0, false, false, false;
      pc := if cfg.dryRun then Finished else Fill;
      received, lost, drained, trace := [], [], [], [];
      new;
      hide PlanUnits, OpenBooks, Window, Bookkeeper.View, Bookkeeper.Readings, Crew.View, NulFreeIds;
      assert View() == Init(cfg, origin);
    }

    /** Adds a step to the history. */
    ghost method Note(l: Label)
      requires keeper.cfg == cfg && crew.cfg == cfg && keeper.tracker.prices == cfg.prices && NulFreeIds(keeper.entities)
      requires Runner.Valid(cfg, Init(cfg, origin), trace) && Enabled(cfg, After(cfg, Init(cfg, origin), trace), l)
      requires View() == Apply(cfg, After(cfg, Init(cfg, origin), trace), l)
      modifies this`trace
      ensures Consistent() && trace == old(trace) + [l]
      ensures var before := old(After(cfg, Init(cfg, origin), trace));
              Rank(View()) <= if l.Poll? then Rank(before) + 1 else if l.Cancel? then Rank(before) else Rank(before) - 1
    {
      hide Init, Enabled, Apply, Rank, PoolInv;
      PoolAlways(cfg, origin, trace);
      RankFalls(cfg, After(cfg, Init(cfg, origin), trace), l);
      TraceStep(cfg, Init(cfg, origin), trace, l);
      trace := trace + [l];
    }

    lemma Healthy()
      requires Consistent()
      ensures Measure() >= 0 && PoolInv(cfg, View())
    {
      hide Init, After, Runner.Valid;
      PoolAlways(cfg, origin, trace);
      RankPositive(cfg, View());
    }

    // ------------------------------------------------ workers and environment

    method Cancel()
      requires Consistent() && !cancelled
      modifies this`cancelled, this`trace
      ensures Consistent() && trace == old(trace) + [Label.Cancel] && Measure() < old(Measure())
    {
      hide Rank, Init, After, Runner.Valid, Apply, Enabled, Bookkeeper.View, Bookkeeper.Readings, Crew.View;
      CancelMoves(cfg, View());
      cancelled := true;
      Note(Label.Cancel);
    }

    method Take()
      requires Consistent() && crew.queue != [] && |crew.busy| < crew.alive
      modifies this`trace, crew
      ensures Consistent() && trace == old(trace) + [Label.Take] && Measure() < old(Measure())
      ensures crew.alive == old(crew.alive)
    {
      hide Rank, Init, After, Runner.Valid, Apply, Enabled, Bookkeeper.View, Bookkeeper.Readings;
      TakeMoves(cfg, View());
      crew.Take();
      Note(Label.Take);
    }

    method Answer(job: Job) returns (ghost replies: seq<Reply>)
      requires Consistent() && job in crew.busy && |crew.buffer| < Window(cfg)
      modifies this`trace, crew
      ensures Consistent() && trace == old(trace) + [Label.Answer(job, replies)] && Measure() < old(Measure())
      ensures crew.alive == old(crew.alive)
    {
      hide Rank, Init, After, Runner.Valid, Apply, Enabled, Bookkeeper.View, Bookkeeper.Readings, CallUnit, Window;
      ghost var s := View();
      replies := crew.Answer(job);
      AnswerMoves(cfg, s, job, replies);
      Note(Label.Answer(job, replies));
    }

    method Exit()
      requires Consistent() && crew.closed && crew.queue == [] && |crew.busy| < crew.alive
      modifies this`trace, crew
      ensures Consistent() && trace == old(trace) + [Label.Exit] && Measure() < old(Measure())
    {
      hide Rank, Init, After, Runner.Valid, Apply, Enabled, Bookkeeper.View, Bookkeeper.Readings;
      ExitMoves(cfg, View());
      crew.Exit();
      Note(Label.Exit);
    }

    /** Anything the workers and the environment may do between two statements of the main goroutine. */
    method Interfere()
      requires Consistent()
      modifies this`cancelled, this`trace, crew
      ensures Consistent() && Measure() <= old(Measure()) && crew.alive == old(crew.alive)
    {
      hide Consistent, Measure, PoolInv, Window;
      while *
        invariant Consistent() && Measure() <= old(Measure()) && crew.alive == old(crew.alive)
        decreases Measure()
      {
        Healthy();
        if
        case !cancelled => Cancel();
        case crew.queue != [] && |crew.busy| < crew.alive => Take();
        case |crew.busy| > 0 && |crew.buffer| < Window(cfg) =>
          assert exists job :: job in crew.busy;
          var job :| job in crew.busy;
          ghost var replies := Answer(job);
        case true => return;
      }
    }

    // ------------------------------------------------------------ the window

    method StopForCancel()
      requires Consistent() && pc == Fill && !stop && inflight < Window(cfg) && next < |pending| && cancelled
      modifies this`stop, this`trace
      ensures Consistent() && stop && trace == old(trace) + [SeeCancelled] && Measure() < old(Measure())
    {
      hide Rank, Init, After, Runner.Valid, Apply, Enabled, Affordable, Bookkeeper.View, Bookkeeper.Readings, Crew.View;
      StopMoves(cfg, View());
      stop := true;
      Note(SeeCancelled);
    }

    method StopForBudget()
      requires Consistent() && pc == Fill && !stop && inflight < Window(cfg) && next < |pending| && !cancelled
      requires !BudgetAllows(cfg, keeper.tracker.View(), Estimate(cfg, pending[next]))
      modifies this`stop, this`trace
      ensures Consistent() && stop && trace == old(trace) + [OverBudget] && Measure() < old(Measure())
    {
      hide Rank, Init, After, Runner.Valid, Apply, Enabled, BudgetAllows, Estimate, Bookkeeper.View, Crew.View;
      StopMoves(cfg, View());
      stop := true;
      Note(OverBudget);
    }

    /** Pends the next unit and hands its job to the workers. */
    method Send()
      requires Consistent() && pc == Fill && !stop && inflight < Window(cfg) && next < |pending| && !cancelled
      requires BudgetAllows(cfg, keeper.tracker.View(), Estimate(cfg, pending[next]))
      modifies this`next, this`inflight, this`submitted, this`trace, keeper, crew
      ensures Consistent() && trace == old(trace) + [Label.Submit] && Measure() < old(Measure())
    {
      hide Rank, Init, After, Runner.Valid, Apply, Enabled, BudgetAllows, Estimate, PendUnit, WithLedger;
      Healthy();
      ghost var s := View();
      RoomToSend(cfg, s);
      SubmitMoves(cfg, s);
      keeper.PendRow(pending[next]);
      crew.Send(Job(next, pending[next]));
      next, inflight, submitted := next + 1, inflight + 1, submitted + 1;
      Note(Label.Submit);
    }

    method FailPend()
      requires Consistent() && pc == Fill && !stop && inflight < Window(cfg) && next < |pending| && !cancelled
      requires BudgetAllows(cfg, keeper.tracker.View(), Estimate(cfg, pending[next]))
      modifies this`aborted, this`pc, this`trace
      ensures Consistent() && trace == old(trace) + [PendFails] && Measure() < old(Measure()) && pc == Closing
    {
      hide Rank, Init, After, Runner.Valid, Apply, Enabled, BudgetAllows, Estimate, Bookkeeper.View, Crew.View;
      PendFailsMoves(cfg, View());
      aborted, pc := true, Closing;
      Note(PendFails);
    }

    method EndFilling() returns (waiting: bool)
      requires Consistent() && pc == Fill && (stop || inflight >= Window(cfg) || next >= |pending|)
      modifies this`pc, this`trace
      ensures Consistent() && trace == old(trace) + [EndFill] && Measure() < old(Measure())
      ensures pc == if waiting then Select else Closing
    {
      hide Rank, Init, After, Runner.Valid, Apply, Enabled, Bookkeeper.View, Bookkeeper.Readings, Crew.View;
      EndFillMoves(cfg, View());
      waiting := inflight != 0;
      pc := if inflight == 0 then Closing else Select;
      Note(EndFill);
    }

    /** Fills the in-flight window; afterwards the main goroutine waits for an outcome or shuts down. */
    method FillWindow() returns (waiting: bool)
      requires Consistent() && pc == Fill
      modifies this`next, this`inflight, this`submitted, this`stop, this`cancelled, this`aborted, this`pc, this`trace,
        keeper, crew
      ensures Consistent() && Measure() < old(Measure()) && pc == if waiting then Select else Closing
    {
      hide Consistent, Measure, BudgetAllows, Estimate, Window, PoolInv;
      while !stop && inflight < Window(cfg) && next < |pending|
        invariant Consistent() && pc == Fill && Measure() <= old(Measure())
        decreases Measure()
      {
        Healthy();
        Interfere();
        if cancelled {
          StopForCancel();
          break;
        }
        if !BudgetAllows(cfg, keeper.tracker.View(), Estimate(cfg, pending[next])) {
          StopForBudget();
          break;
        }
        var ok: bool := *;
        if !ok {
          FailPend();
          return false;
        }
        Send();
      }
      waiting := EndFilling();
    }

    // ------------------------------------------------------------- the select

    /** Blocks until some outcome is in the channel. */
    method AwaitOutcome()
      requires Consistent() && pc == Select
      modifies this`cancelled, this`trace, crew
      ensures Consistent() && crew.buffer != [] && Measure() <= old(Measure())
    {
      hide Consistent, Measure, Window;
      Interfere();
      while crew.buffer == []
        invariant Consistent() && Measure() <= old(Measure())
        decreases Measure()
      {
        Healthy();
        Busy();
        if |crew.busy| > 0 {
          assert exists job :: job in crew.busy;
          var job :| job in crew.busy;
          ghost var replies := Answer(job);
        } else {
          Take();
        }
      }
    }

    lemma Busy()
      requires Consistent() && pc == Select && crew.buffer == []
      ensures Window(cfg) > 0 && (|crew.busy| == 0 ==> crew.queue != [] && crew.alive > 0)
    {
      hide Init, After, Runner.Valid, Rank;
      Healthy();
    }

    /** The select sees the cancellation although an outcome may be waiting. */
    method Poll()
      requires Consistent() && pc == Select && cancelled && patience > 0
      modifies this`stop, this`pc, this`patience, this`trace
      ensures Consistent() && pc == Fill && trace == old(trace) + [Label.Poll] && Measure() < old(Measure())
    {
      hide Rank, Init, After, Runner.Valid, Apply, Enabled, Bookkeeper.View, Bookkeeper.Readings, Crew.View;
      PollMoves(cfg, View());
      stop, pc, patience := true, Fill, patience - 1;
      Note(Label.Poll);
    }

    method Accept(ghost s: State, o: Outcome)
      requires keeper.cfg == cfg && crew.cfg == cfg && keeper.tracker.prices == cfg.prices && NulFreeIds(keeper.entities)
      requires Runner.Valid(cfg, Init(cfg, origin), trace) && s == After(cfg, Init(cfg, origin), trace)
      requires Enabled(cfg, s, Receive(NoFault)) && s.inflight > 0 && o == s.pool.buffer[0]
      requires Commit(cfg, s.books, o) == Some(keeper.View())
      requires View() == s.(pool := s.pool.(buffer := s.pool.buffer[1..]), inflight := s.inflight - 1,
                            books := keeper.View(), meter := MeterAfter(s.meter, o, NoFault))
      modifies this`received, this`pc, this`trace
      ensures Consistent() && trace == old(trace) + [Receive(NoFault)] && Rank(View()) < Rank(s) && pc == Fill
    {
      hide Rank, Init, After, Runner.Valid, Apply, Enabled, Commit, MeterAfter, NulFreeIds,
        Bookkeeper.View, Bookkeeper.Readings, Crew.View;
      AcceptMoves(cfg, s, keeper.View());
      received, pc := received + [o], Fill;
      Note(Receive(NoFault));
    }

    method Abort(ghost s: State, o: Outcome, fault: Fault)
      requires keeper.cfg == cfg && crew.cfg == cfg && keeper.tracker.prices == cfg.prices && NulFreeIds(keeper.entities)
      requires Runner.Valid(cfg, Init(cfg, origin), trace) && s == After(cfg, Init(cfg, origin), trace)
      requires Enabled(cfg, s, Receive(fault)) && s.inflight > 0 && o == s.pool.buffer[0] && !fault.NoFault?
      requires View() == s.(pool := s.pool.(buffer := s.pool.buffer[1..]), inflight := s.inflight - 1,
                            meter := MeterAfter(s.meter, o, fault))
      modifies this`lost, this`aborted, this`pc, this`trace
      ensures Consistent() && trace == old(trace) + [Receive(fault)] && Rank(View()) < Rank(s) && pc == Closing
    {
      hide Rank, Init, After, Runner.Valid, Apply, Enabled, Commit, MeterAfter, NulFreeIds,
        Bookkeeper.View, Bookkeeper.Readings, Crew.View;
      AbortMoves(cfg, s, fault);
      lost, aborted, pc := lost + [o], true, Closing;
      Note(Receive(fault));
    }

    /** persistOutcome on the oldest outcome in the channel; a failed transaction aborts the run. */
    method PersistOutcome() returns (ok: bool, ghost fault: Fault)
      requires Consistent() && pc == Select && crew.buffer != []
      modifies this`inflight, this`aborted, this`received, this`lost, this`pc, this`trace, keeper, keeper.tracker, crew
      ensures Consistent() && trace == old(trace) + [Receive(fault)] && Measure() < old(Measure())
      ensures pc == if ok then Fill else Closing
    {
      hide Rank, Init, After, Runner.Valid, Apply, Enabled, Commit, MeterAfter, NulFreeIds, FaultFits, PoolInv,
        Bookkeeper.View, Bookkeeper.Readings;
      InFlight();
      ghost var s := View();
      var o := crew.Receive();
      inflight := inflight - 1;
      var where := keeper.Transact(o);
      ok, fault := where.NoFault?, where;
      Receivable(cfg, s, where);
      if where.NoFault? { Accept(s, o); } else { Abort(s, o, where); }
    }

    lemma InFlight()
      requires Consistent() && pc == Select
      ensures inflight > 0
    {
      hide Init, After, Runner.Valid, Rank;
      Healthy();
    }

    // --------------------------------------------------------------- shutdown

    /** Closes the jobs channel and waits for every worker to finish. */
    method CloseAndWait()
      requires Consistent() && pc == Closing
      modifies this`cancelled, this`pc, this`trace, crew
      ensures Consistent() && pc == Drain && Measure() < old(Measure())
    {
      hide Consistent, Measure, Window;
      CloseJobs();
      while crew.alive > 0
        invariant Consistent() && pc == Waiting && Measure() < old(Measure())
        decreases Measure()
      {
        Healthy();
        Interfere();
        Advance();
      }
      FinishWaiting();
    }

    method CloseJobs()
      requires Consistent() && pc == Closing
      modifies this`pc, this`trace, crew
      ensures Consistent() && pc == Waiting && trace == old(trace) + [Label.Close] && Measure() < old(Measure())
    {
      hide Rank, Init, After, Runner.Valid, Apply, Enabled, Bookkeeper.View, Bookkeeper.Readings;
      CloseMoves(cfg, View());
      crew.Close();
      pc := Waiting;
      Note(Label.Close);
    }

    /** Some worker step, while any worker is left. */
    method Advance()
      requires Consistent() && pc == Waiting && crew.alive > 0
      modifies this`trace, crew
      ensures Consistent() && Measure() < old(Measure())
    {
      hide Consistent, Measure, Window;
      Leaving();
      if |crew.busy| > 0 {
        assert exists job :: job in crew.busy;
        var job :| job in crew.busy;
        ghost var replies := Answer(job);
      } else if crew.queue != [] {
        Take();
      } else {
        Exit();
      }
    }

    lemma Leaving()
      requires Consistent() && pc == Waiting
      ensures crew.closed && (|crew.busy| > 0 ==> |crew.buffer| < Window(cfg))
    {
      hide Init, After, Runner.Valid, Rank;
      Healthy();
    }

    method FinishWaiting()
      requires Consistent() && pc == Waiting && crew.alive == 0
      modifies this`pc, this`trace
      ensures Consistent() && pc == Drain && trace == old(trace) + [Label.Wait] && Measure() < old(Measure())
    {
      hide Rank, Init, After, Runner.Valid, Apply, Enabled, Bookkeeper.View, Bookkeeper.Readings;
      WaitMoves(cfg, View());
      pc := Drain;
      Note(Label.Wait);
    }

    /** Counts the outcomes that completed during the shutdown as deferred. */
    method DrainOutcomes()
      requires Consistent() && pc == Drain
      modifies this`deferred, this`drained, this`trace, crew
      ensures Consistent() && crew.buffer == []
    {
      hide Consistent, Measure;
      while crew.buffer != []
        invariant Consistent()
        decreases Measure()
      {
        Healthy();
        DiscardOne();
      }
    }

    method DiscardOne()
      requires Consistent() && pc == Drain && crew.buffer != []
      modifies this`deferred, this`drained, this`trace, crew
      ensures Consistent() && trace == old(trace) + [Label.Discard] && Measure() < old(Measure())
    {
      hide Rank, Init, After, Runner.Valid, Apply, Enabled, Bookkeeper.View, Bookkeeper.Readings;
      DiscardMoves(cfg, View());
      var o := crew.Receive();
      deferred, drained := deferred + 1, drained + [o];
      Note(Label.Discard);
    }

    /** The final statistics of a run that was not aborted. */
    method ConcludeRun()
      requires Consistent() && pc == Drain && crew.buffer == []
      modifies this`pc, this`deferred, this`report, this`trace
      ensures Consistent() && pc == Finished && trace == old(trace) + [Label.Conclude]
    {
      hide Rank, Init, After, Runner.Valid, Apply, Enabled, Bookkeeper.View;
      Healthy();
      ConcludeMoves(cfg, View());
      pc := Finished;
      if !aborted {
        deferred := deferred + (|pending| - submitted);
        var tracker := keeper.tracker;
        report := Some(Report(if Priced(cfg.prices) then Some(CostUSD(cfg.prices, tracker.View())) else None,
                              tracker.inputTokens, tracker.outputTokens));
      }
      Note(Label.Conclude);
    }

    // ---------------------------------------------------------------- execute

    /** The run loop, the shutdown, the drain and the report: every run reaches its end. */
    method Execute()
      requires Consistent() && pc == Fill
      modifies this, keeper, keeper.tracker, crew
      ensures Consistent() && pc == Finished
    {
      hide Consistent, Measure, Window;
      var running := true;
      while running
        invariant Consistent() && pc == if running then Fill else Closing
        decreases Measure()
      {
        Healthy();
        running := FillWindow();
        if !running { break; }
        Interfere();
        var wasted: bool := *;
        if cancelled && patience > 0 && wasted {
          Poll();
        } else {
          AwaitOutcome();
          ghost var fault;
          running, fault := PersistOutcome();
        }
      }
      CloseAndWait();
      DrainOutcomes();
      ConcludeRun();
    }
  }

  // ------------------------------------------------------------- the whole run

  /** The unit counters of a run's statistics. */
  datatype Summary = Summary(total: nat, skipped: nat, done: nat, failed: nat, deferred: nat, aborted: bool)

  ghost function SummaryOf(s: State): Summary {
    Summary(s.plan.total, s.plan.skipped, s.books.done, s.books.failed, s.deferred, s.aborted)
  }

  /**
   * A run from the store it finds to the store it leaves, for any client answers, database
   * failures, cancellation and scheduling: it ends, its store is one the state machine
   * reaches, a clean store is left clean with every old row in place, a dry run writes
   * nothing, and without an abort every unit is accounted for.
   */
  method RunExtraction(cfg: Config, reply: nat -> Reply, store: Store, patience: nat)
    returns (after: Store, summary: Summary, ghost trace: seq<Label>)
    requires DistinctKeys(cfg.units) && NulFreeIds(store.graph.entities.Keys)
    ensures Runner.Valid(cfg, Init(cfg, store), trace)
    ensures var s := After(cfg, Init(cfg, store), trace);
            s.pc == Finished && after == s.books.store && summary == SummaryOf(s)
    ensures Clean(store.graph) ==> Clean(after.graph) && Preserved(store.graph, after.graph)
    ensures cfg.dryRun ==> after == store
    ensures !cfg.dryRun && !summary.aborted ==>
              summary.total == summary.skipped + summary.done + summary.failed + summary.deferred
  {
    hide Init, After, Runner.Valid, Clean, Preserved, NulFreeIds, DistinctKeys;
    var e := new Execution(cfg, reply, store.graph, store.ledger, store.outputs, patience);
    if !cfg.dryRun {
      e.Execute();
    }
    var k := e.keeper;
    after := Store(k.graph, k.ledger, k.outputs);
    summary := Summary(e.total, e.skipped, k.done, k.failed, e.deferred, e.aborted);
    trace := e.trace;
    if Clean(store.graph) { StoreStaysClean(cfg, store, trace); }
    if cfg.dryRun { DryRunWritesNothing(cfg, store, trace); } else { UnitsConserved(cfg, store, trace); }
  }
}

/** The worker pool: its bound, that no send blocks, that no run can get stuck, and exactly-once delivery. */
module RunnerPool {
  import opened Basics
  import opened Units
  import opened Wire
  import opened Ledger
  import opened Runner
  import opened RunnerFrames

  // ------------------------------------------------------------ invariant

  /** Jobs handed to the pool and not yet received by the main goroutine. */
  function InPool(s: State): nat {
    |s.pool.queue| + |s.pool.busy| + |s.pool.buffer|
  }

  predicate Stopped(pc: Pc) {
    pc == Waiting || pc == Drain || pc == Finished
  }

  ghost predicate PoolInv(cfg: Config, s: State) {
    && InPool(s) + |s.drained| == s.inflight <= Window(cfg)
    && |s.pool.busy| <= s.pool.alive <= Window(cfg)
    && s.next == s.submitted <= |s.plan.pending|
    && |s.received| + |s.lost| + s.inflight == s.submitted
    && (s.pc == Select ==> s.inflight > 0)
    && (s.pool.alive < Window(cfg) ==> s.pool.closed && s.pool.queue == [])
    && (s.pc == Fill || s.pc == Select || s.pc == Closing ==> !s.pool.closed)
    && (s.pc == Waiting || s.pc == Drain ==> s.pool.closed)
    && (s.pc == Drain ==> s.pool.alive == 0)
    && (s.drained != [] ==> s.pc == Drain || s.pc == Finished)
    && (s.pc == Finished ==> InPool(s) == 0)
    && s.deferred >= s.plan.deferred
  }

  lemma PoolStepByWorker(cfg: Config, s: State, l: Label)
    requires PoolInv(cfg, s) && Enabled(cfg, s, l) && ByWorker(l)
    ensures PoolInv(cfg, Apply(cfg, s, l))
  {
    hide CallUnit;
    if l.Answer? {
      assert |s.pool.busy - multiset{l.job}| == |s.pool.busy| - 1;
    }
  }

  lemma PoolStepSubmit(cfg: Config, s: State)
    requires PoolInv(cfg, s) && Enabled(cfg, s, Submit)
    ensures PoolInv(cfg, Apply(cfg, s, Submit))
  {
    hide PendUnit, WithLedger;
  }

  lemma PoolStepReceive(cfg: Config, s: State, fault: Fault)
    requires PoolInv(cfg, s) && Enabled(cfg, s, Receive(fault))
    ensures PoolInv(cfg, Apply(cfg, s, Receive(fault)))
  {
    hide Commit, MeterAfter;
  }

  /** Every step keeps the pool within its window, whoever moves. */
  lemma PoolStep(cfg: Config, s: State, l: Label)
    requires PoolInv(cfg, s) && Enabled(cfg, s, l)
    ensures PoolInv(cfg, Apply(cfg, s, l))
  {
    if ByWorker(l) { PoolStepByWorker(cfg, s, l); }
    else if l.Submit? { PoolStepSubmit(cfg, s); }
    else if l.Receive? { PoolStepReceive(cfg, s, l.fault); }
    else {
      hide Commit, CallUnit, MeterAfter, PendUnit, FinalReport, BudgetAllows, SubmitNext, ReceiveNext;
    }
  }

  lemma PoolInit(cfg: Config, store: Store)
    ensures PoolInv(cfg, Init(cfg, store))
  {
    hide PlanUnits, OpenBooks;
  }

  /** The pool invariant holds in every reachable state of every run. */
  lemma {:induction false} PoolAlways(cfg: Config, store: Store, ls: seq<Label>)
    requires Valid(cfg, Init(cfg, store), ls)
    ensures PoolInv(cfg, After(cfg, Init(cfg, store), ls))
    decreases |ls|
  {
    hide Init, Apply, Enabled, PoolInv;
    if ls == [] { PoolInit(cfg, store); }
    else {
      PoolAlways(cfg, store, Front(ls));
      PoolStep(cfg, After(cfg, Init(cfg, store), Front(ls)), Last(ls));
    }
  }

  // --------------------------------------------------- nothing ever blocks

  /**
   * No channel send ever blocks, and the drain takes exactly what is left: a submission
   * that passed the gate always finds room in the jobs channel, a finishing worker always
   * finds room for its outcome, draining starts with every job answered, and the finished
   * run has drained precisely the outcomes still in flight.
   */
  lemma SendsNeverBlock(cfg: Config, store: Store, ls: seq<Label>)
    requires Valid(cfg, Init(cfg, store), ls)
    ensures var s := After(cfg, Init(cfg, store), ls);
            && (Filling(cfg, s) && !s.cancelled && Affordable(cfg, s) ==> Enabled(cfg, s, Submit))
            && (forall job, replies :: job in s.pool.busy && |replies| == MaxAttempts(cfg) ==> Enabled(cfg, s, Answer(job, replies)))
            && (s.pc == Drain ==> s.pool.queue == [] && s.pool.busy == multiset{} && s.pool.alive == 0)
            && (s.pc == Finished ==> InPool(s) == 0 && |s.drained| == s.inflight)
            && s.inflight <= (if cfg.concurrency < 1 then 1 else cfg.concurrency)
  {
    hide Init;
    PoolAlways(cfg, store, ls);
    var s := After(cfg, Init(cfg, store), ls);
    forall job, replies | job in s.pool.busy && |replies| == MaxAttempts(cfg)
      ensures Enabled(cfg, s, Answer(job, replies))
    {
      assert |s.pool.busy| > 0;
    }
  }

  // --------------------------------------------- progress and termination

  /** A step some participant can take that is neither a cancellation nor a wasted poll. */
  ghost function NextStep(cfg: Config, s: State): Label {
    if s.pc == Fill then
      if !Filling(cfg, s) then EndFill
      else if s.cancelled then SeeCancelled
      else if Affordable(cfg, s) then Submit else OverBudget
    else if s.pc == Closing then Close
    else if s.pc == Drain then if s.pool.buffer == [] then Conclude else Discard
    else if s.pc == Select && s.pool.buffer != [] then Receive(NoFault)
    else if s.pool.busy != multiset{} then
      var job :| job in s.pool.busy; Answer(job, seq(MaxAttempts(cfg), _ => CallFailed("")))
    else if s.pool.queue != [] then Take
    else if s.pool.alive > 0 then Exit
    else Wait
  }

  /** No reachable state is stuck before the end: closing the jobs always lets every worker finish. */
  lemma NeverStuck(cfg: Config, store: Store, ls: seq<Label>)
    requires Valid(cfg, Init(cfg, store), ls)
    ensures var s := After(cfg, Init(cfg, store), ls);
            s.pc != Finished ==> exists l :: Enabled(cfg, s, l) && !l.Cancel? && !l.Poll?
  {
    hide Init, After, Runner.Valid, PoolInv, Enabled;
    PoolAlways(cfg, store, ls);
    var s := After(cfg, Init(cfg, store), ls);
    if s.pc != Finished {
      NextStepTaken(cfg, s);
      assert Enabled(cfg, s, NextStep(cfg, s));
    }
  }

  lemma NextStepTaken(cfg: Config, s: State)
    requires PoolInv(cfg, s) && s.pc != Finished
    ensures var l := NextStep(cfg, s); Enabled(cfg, s, l) && !l.Cancel? && !l.Poll?
  {
    hide Affordable;
    assert s.pool.busy != multiset{} ==> exists job :: job in s.pool.busy;
  }

  function PcRank(pc: Pc): nat {
    match pc
    case Fill => 5
    case Select => 4
    case Closing => 3
    case Waiting => 2
    case Drain => 1
    case Finished => 0
  }

  /** Work left, counted in steps. */
  function Rank(s: State): int {
    5 * (|s.plan.pending| - s.next) + 4 * |s.pool.queue| + 3 * |s.pool.busy| + 2 * |s.pool.buffer| +
    s.pool.alive + PcRank(s.pc) + if s.stop then 0 else 1
  }

  lemma RankFalls(cfg: Config, s: State, l: Label)
    requires PoolInv(cfg, s) && Enabled(cfg, s, l)
    ensures Rank(Apply(cfg, s, l)) <= if l.Poll? then Rank(s) + 1 else if l.Cancel? then Rank(s) else Rank(s) - 1
  {
    if ByWorker(l) { RankByWorker(cfg, s, l); }
    else if l.Receive? {
      hide Apply, Commit, MeterAfter;
      ReceiveMoves(cfg, s, l.fault);
    } else {
      hide Commit, CallUnit, MeterAfter, PendUnit, FinalReport, BudgetAllows, WithLedger, ReceiveNext;
    }
  }

  lemma RankByWorker(cfg: Config, s: State, l: Label)
    requires Enabled(cfg, s, l) && ByWorker(l)
    ensures Rank(Apply(cfg, s, l)) <= if l.Cancel? then Rank(s) else Rank(s) - 1
  {
    hide CallUnit;
    if l.Answer? {
      assert |s.pool.busy - multiset{l.job}| == |s.pool.busy| - 1;
    }
  }

  function Polls(ls: seq<Label>): nat {
    Count(ls, (l: Label) => l.Poll?)
  }

  function Cancels(ls: seq<Label>): nat {
    Count(ls, (l: Label) => l.Cancel?)
  }

  lemma {:induction false} StepsBounded(cfg: Config, store: Store, ls: seq<Label>)
    requires Valid(cfg, Init(cfg, store), ls)
    ensures var s := After(cfg, Init(cfg, store), ls);
            && Rank(s) + |ls| <= Rank(Init(cfg, store)) + 2 * Polls(ls) + Cancels(ls)
            && Cancels(ls) == if s.cancelled then 1 else 0
    decreases |ls|
  {
    hide Init, Apply, Enabled, PoolInv, Rank;
    if ls != [] {
      var s, l := After(cfg, Init(cfg, store), Front(ls)), Last(ls);
      StepsBounded(cfg, store, Front(ls));
      PoolAlways(cfg, store, Front(ls));
      RankFalls(cfg, s, l);
      CancelOnce(cfg, s, l);
    } else { NotCancelledYet(cfg, store); }
  }

  lemma CancelOnce(cfg: Config, s: State, l: Label)
    requires Enabled(cfg, s, l)
    ensures Apply(cfg, s, l).cancelled == (s.cancelled || l.Cancel?)
    ensures l.Cancel? ==> !s.cancelled
  {
    hide Commit, CallUnit, MeterAfter, PendUnit, FinalReport, BudgetAllows;
  }

  lemma NotCancelledYet(cfg: Config, store: Store)
    ensures !Init(cfg, store).cancelled
  {
  }

  /**
   * Every run ends: with p pending units and window c, any schedule takes at most
   * 5p + c + 7 steps besides two for each poll of a cancelled context.
   */
  lemma RunsEnd(cfg: Config, store: Store, ls: seq<Label>)
    requires Valid(cfg, Init(cfg, store), ls)
    ensures |ls| <= 5 * |Init(cfg, store).plan.pending| + Window(cfg) + 7 + 2 * Polls(ls)
  {
    hide PlanUnits, OpenBooks, PoolInv, Apply, Enabled;
    StepsBounded(cfg, store, ls);
    PoolAlways(cfg, store, ls);
    RankPositive(cfg, After(cfg, Init(cfg, store), ls));
  }

  lemma RankPositive(cfg: Config, s: State)
    requires PoolInv(cfg, s)
    ensures Rank(s) >= 0
  {
  }

  // ------------------------------------------------------------ exactly once

  /** How often job j occurs among the outcomes. */
  function Times(os: seq<Outcome>, j: Job): nat {
    if os == [] then 0 else Times(Front(os), j) + if Last(os).job == j then 1 else 0
  }

  /** How often the main goroutine took an outcome of j from the channel. */
  function Delivered(s: State, j: Job): nat {
    Times(s.received, j) + Times(s.lost, j) + Times(s.drained, j)
  }

  function Held(p: Pool, j: Job): nat {
    multiset(p.queue)[j] + p.busy[j] + Times(p.buffer, j)
  }

  predicate WasSubmitted(s: State, j: Job) {
    j.index < s.submitted <= |s.plan.pending| && j.unit == s.plan.pending[j.index]
  }

  /** A submitted job is in exactly one place, any other job nowhere. */
  predicate OnceInv(s: State, j: Job) {
    Held(s.pool, j) + Delivered(s, j) == if WasSubmitted(s, j) then 1 else 0
  }

  lemma {:induction false} TimesFirst(os: seq<Outcome>, j: Job)
    requires os != []
    ensures Times(os, j) == Times(os[1..], j) + if os[0].job == j then 1 else 0
    decreases |os|
  {
    if |os| > 1 {
      TimesFirst(Front(os), j);
      assert Front(os)[1..] == Front(os[1..]) && Last(os[1..]) == Last(os);
    }
  }

  lemma TimesAppend(os: seq<Outcome>, o: Outcome, j: Job)
    ensures Times(os + [o], j) == Times(os, j) + if o.job == j then 1 else 0
  {
    assert Front(os + [o]) == os;
  }

  lemma JobOfCall(cfg: Config, o: Outcome, replies: seq<Reply>)
    ensures CallFrom(cfg, o, replies).job == o.job
    decreases |replies|
  {
    hide Payload, PayloadProblems;
    if replies != [] && !Ends(cfg, replies[0]) {
      JobOfCall(cfg, Attempt(cfg, o, replies[0], |replies| == 1), replies[1..]);
    }
  }

  lemma CallJob(cfg: Config, job: Job, replies: seq<Reply>)
    ensures CallUnit(cfg, job, replies).job == job
  {
    JobOfCall(cfg, NoAttempt(job), replies);
  }

  lemma OnceByWorker(cfg: Config, s: State, l: Label, j: Job)
    requires OnceInv(s, j) && Enabled(cfg, s, l) && ByWorker(l)
    ensures OnceInv(Apply(cfg, s, l), j)
  {
    hide Apply, CallUnit, Times, Held;
    WorkerFrame(cfg, s, l);
    if l.Take? {
      TakeMoves(cfg, s);
      HeldTake(s.pool, j);
    } else if l.Answer? {
      AnswerMoves(cfg, s, l.job, l.replies);
      CallJob(cfg, l.job, l.replies);
      HeldAnswer(s.pool, l.job, CallUnit(cfg, l.job, l.replies), j);
    } else if l.Exit? {
      ExitMoves(cfg, s);
      HeldExit(s.pool, j);
    }
  }

  lemma HeldTake(p: Pool, j: Job)
    requires p.queue != []
    ensures Held(p.(queue := p.queue[1..], busy := p.busy + multiset{p.queue[0]}), j) == Held(p, j)
  {
    hide Times;
    assert p.queue == [p.queue[0]] + p.queue[1..];
    assert multiset(p.queue) == multiset{p.queue[0]} + multiset(p.queue[1..]);
  }

  lemma HeldAnswer(p: Pool, job: Job, o: Outcome, j: Job)
    requires job in p.busy && o.job == job
    ensures Held(p.(busy := p.busy - multiset{job}, buffer := p.buffer + [o]), j) == Held(p, j)
  {
    hide Times;
    TimesAppend(p.buffer, o, j);
  }

  lemma HeldExit(p: Pool, j: Job)
    requires p.alive > 0
    ensures Held(p.(alive := p.alive - 1), j) == Held(p, j)
  {
  }

  lemma OnceReceive(cfg: Config, s: State, fault: Fault, j: Job)
    requires OnceInv(s, j) && Enabled(cfg, s, Receive(fault))
    ensures OnceInv(Apply(cfg, s, Receive(fault)), j)
  {
    hide Commit, MeterAfter, Times, Apply, ReceiveNext;
    var o := s.pool.buffer[0];
    ReceiveMoves(cfg, s, fault);
    TimesFirst(s.pool.buffer, j);
    TimesAppend(s.received, o, j);
    TimesAppend(s.lost, o, j);
  }

  lemma OnceStep(cfg: Config, s: State, l: Label, j: Job)
    requires OnceInv(s, j) && PoolInv(cfg, s) && Enabled(cfg, s, l)
    ensures OnceInv(Apply(cfg, s, l), j)
  {
    if ByWorker(l) { OnceByWorker(cfg, s, l, j); }
    else if l.Receive? { OnceReceive(cfg, s, l.fault, j); }
    else if l.Submit? { OnceSubmit(cfg, s, j); }
    else {
      hide Apply, Enabled, Times;
      MainFrame(cfg, s, l);
      if l.Discard? {
        TimesFirst(s.pool.buffer, j);
        TimesAppend(s.drained, s.pool.buffer[0], j);
      }
    }
  }

  lemma OnceSubmit(cfg: Config, s: State, j: Job)
    requires OnceInv(s, j) && PoolInv(cfg, s) && Enabled(cfg, s, Submit)
    ensures OnceInv(Apply(cfg, s, Submit), j)
  {
    hide Apply, Times, Affordable;
    SubmitMoves(cfg, s);
  }

  lemma {:induction false} OnceAlways(cfg: Config, store: Store, ls: seq<Label>, j: Job)
    requires Valid(cfg, Init(cfg, store), ls)
    ensures OnceInv(After(cfg, Init(cfg, store), ls), j)
    decreases |ls|
  {
    hide PlanUnits, OpenBooks, Apply, Enabled, PoolInv;
    if ls != [] {
      hide OnceInv;
      OnceAlways(cfg, store, Front(ls), j);
      PoolAlways(cfg, store, Front(ls));
      OnceStep(cfg, After(cfg, Init(cfg, store), Front(ls)), Last(ls), j);
    }
  }

  /**
   * Each submitted unit yields exactly one outcome, taken from the channel at most once:
   * no job is ever delivered twice, whatever is delivered was submitted, and when the run
   * has finished the delivered jobs are exactly the submitted ones.
   */
  lemma ExactlyOnce(cfg: Config, store: Store, ls: seq<Label>, j: Job)
    requires Valid(cfg, Init(cfg, store), ls)
    ensures var s := After(cfg, Init(cfg, store), ls);
            && Delivered(s, j) <= (if WasSubmitted(s, j) then 1 else 0)
            && (s.pc == Finished ==> Delivered(s, j) == if WasSubmitted(s, j) then 1 else 0)
  {
    hide Init, Apply, Enabled;
    OnceAlways(cfg, store, ls, j);
    PoolAlways(cfg, store, ls);
  }
}

/** The archive of model outputs, and the usage a run reports against it. */
module RunnerReport {
  import opened Basics
  import opened Units
  import opened Wire
  import opened Llm
  import opened Ledger
  import opened Runner
  import opened RunnerFrames
  import opened RunnerPool
  import opened RunnerRefinement
  import opened RunnerStore
  import opened RunnerCounts
  import opened RunnerBudget
  import opened RunnerExact

  /** The archive rows of the outcomes, in completion order. */
  function Archived(cfg: Config, os: seq<Outcome>): seq<Output> {
    if os == [] then [] else Archived(cfg, Front(os)) + OutputsOf(cfg, Last(os).job.unit, Last(os).responses)
  }

  lemma {:induction false} SequentialArchives(cfg: Config, b: Books, os: seq<Outcome>)
    requires Sequential(cfg, b, os).Some?
    ensures Sequential(cfg, b, os).value.store.outputs == b.store.outputs + Archived(cfg, os)
    decreases |os|
  {
    hide Handle, OutputsOf;
    if os != [] {
      SequentialArchives(cfg, b, Front(os));
      HandleMoves(cfg, Sequential(cfg, b, Front(os)).value, Last(os));
    }
  }

  /** Every response of every committed outcome is archived once, in completion order, and nothing else is. */
  lemma ResponsesArchived(cfg: Config, store: Store, ls: seq<Label>)
    requires DistinctKeys(cfg.units) && Valid(cfg, Init(cfg, store), ls)
    ensures var s := After(cfg, Init(cfg, store), ls);
            s.books.store.outputs == store.outputs + Archived(cfg, s.received)
            && exists stages :: Stages(cfg.run, s.received, store.outputs, stages, s.books.store.outputs)
  {
    hide Init, After, Valid, Sequential, Outstanding, PendAll, Archived, Stages;
    RefinesSequential(cfg, store, ls);
    var os := After(cfg, Init(cfg, store), ls).received;
    SequentialArchives(cfg, OpenBooks(store), os);
    var stages := ArchiveStages(cfg, os, store.outputs);
  }

  /** The archive outcome by outcome: from start to end, each adds its responses' rows. */
  ghost predicate Stages(run: RunId, os: seq<Outcome>, start: seq<Output>, stages: seq<seq<Output>>, end: seq<Output>) {
    && |stages| == |os| + 1 && stages[0] == start && stages[|os|] == end
    && forall n :: 0 <= n < |os| ==> Archives(run, os[n].job.unit, os[n].responses, stages[n], stages[n + 1])
  }

  lemma {:induction false} ArchiveStages(cfg: Config, os: seq<Outcome>, start: seq<Output>) returns (stages: seq<seq<Output>>)
    ensures Stages(cfg.run, os, start, stages, start + Archived(cfg, os))
    decreases |os|
  {
    hide Archives;
    stages := [start];
    if os == [] {
      assert start + [] == start;
    } else {
      var o := Last(os);
      var before := ArchiveStages(cfg, Front(os), start);
      var reached := start + Archived(cfg, Front(os));
      OutputsArchive(cfg, o.job.unit, o.responses, reached);
      assert start + Archived(cfg, os) == reached + OutputsOf(cfg, o.job.unit, o.responses);
      stages := before + [start + Archived(cfg, os)];
      assert forall n :: 0 <= n < |os| - 1 ==> Front(os)[n] == os[n];
    }
  }

  // ---------------------------------------------------------------- reported

  function InputTokens(outs: seq<Output>): int {
    if outs == [] then 0 else InputTokens(Front(outs)) + Last(outs).inputTokens
  }

  function OutputTokens(outs: seq<Output>): int {
    if outs == [] then 0 else OutputTokens(Front(outs)) + Last(outs).outputTokens
  }

  lemma {:induction false} TokensConcat(a: seq<Output>, b: seq<Output>)
    ensures InputTokens(a + b) == InputTokens(a) + InputTokens(b) && OutputTokens(a + b) == OutputTokens(a) + OutputTokens(b)
    decreases |b|
  {
    if b == [] {
      assert a + b == a;
    } else {
      assert Front(a + b) == a + Front(b);
      TokensConcat(a, Front(b));
    }
  }

  lemma {:induction false} UsageIsTokens(cfg: Config, u: Unit, usage: Usage, rs: seq<Response>)
    ensures var t := UsageAddAll(usage, rs);
            && t.calls == usage.calls + |rs|
            && t.inputTokens == usage.inputTokens + InputTokens(OutputsOf(cfg, u, rs))
            && t.outputTokens == usage.outputTokens + OutputTokens(OutputsOf(cfg, u, rs))
    decreases |rs|
  {
    if rs != [] {
      UsageIsTokens(cfg, u, usage, Front(rs));
      var before := OutputsOf(cfg, u, Front(rs));
      assert Front(before + [OutputOf(cfg, u, Last(rs))]) == before;
    }
  }

  function AttemptsOf(os: seq<Outcome>): nat {
    if os == [] then 0 else AttemptsOf(Front(os)) + Last(os).attempts
  }

  function RepairsOf(os: seq<Outcome>): nat {
    if os == [] then 0 else RepairsOf(Front(os)) + Last(os).repairs
  }

  /** The salvage problems of the outcomes that parsed. */
  function ProblemLog(os: seq<Outcome>): multiset<Problem> {
    if os == [] then multiset{} else ProblemLog(Front(os)) + if Last(os).wire.Some? then multiset(Last(os).problems) else multiset{}
  }

  /** While nothing is lost, the meter has read exactly the received outcomes. */
  ghost predicate ReadExactly(cfg: Config, s: State) {
    && (s.lost == [] ==>
          && s.meter.usage.inputTokens == InputTokens(Archived(cfg, s.received))
          && s.meter.usage.outputTokens == OutputTokens(Archived(cfg, s.received))
          && s.meter.attempts == AttemptsOf(s.received) && s.meter.repairs == RepairsOf(s.received)
          && s.meter.parseLog == ProblemLog(s.received))
    && (s.pc == Finished && !s.aborted && !cfg.dryRun ==> s.report == Some(FinalReport(cfg, s.meter.usage)))
  }

  lemma ReadReceive(cfg: Config, s: State, fault: Fault)
    requires ReadExactly(cfg, s) && Enabled(cfg, s, Receive(fault))
    ensures ReadExactly(cfg, Apply(cfg, s, Receive(fault)))
  {
    hide Apply, Commit, InputTokens, OutputTokens, OutputsOf, UsageAddAll, FinalReport;
    ReceiveMoves(cfg, s, fault);
    var o := s.pool.buffer[0];
    assert Front(s.received + [o]) == s.received;
    TokensConcat(Archived(cfg, s.received), OutputsOf(cfg, o.job.unit, o.responses));
    UsageIsTokens(cfg, o.job.unit, s.meter.usage, o.responses);
  }

  lemma ReadStep(cfg: Config, s: State, l: Label)
    requires ReadExactly(cfg, s) && PoolInv(cfg, s) && Enabled(cfg, s, l)
    ensures ReadExactly(cfg, Apply(cfg, s, l))
  {
    hide FinalReport, Archived, AttemptsOf, RepairsOf, ProblemLog, InputTokens, OutputTokens, Affordable;
    if l.Receive? { ReadReceive(cfg, s, l.fault); }
    else if ByWorker(l) {
      hide Apply, Enabled;
      WorkerFrame(cfg, s, l);
    } else if l.Submit? {
      hide Apply, WithLedger, PendUnit;
      SubmitMoves(cfg, s);
    } else if l.Conclude? {
      ConcludeMoves(cfg, s);
    } else {
      NotConcluding(cfg, s, l);
      hide Apply, Enabled;
      MainFrame(cfg, s, l);
    }
  }

  lemma NotConcluding(cfg: Config, s: State, l: Label)
    requires Enabled(cfg, s, l) && !ByWorker(l) && !l.Submit? && !l.Receive? && !l.Conclude?
    ensures Apply(cfg, s, l).pc != Finished
  {
    hide Affordable;
  }

  lemma {:induction false} ReadAlways(cfg: Config, store: Store, ls: seq<Label>)
    requires Valid(cfg, Init(cfg, store), ls)
    ensures ReadExactly(cfg, After(cfg, Init(cfg, store), ls))
    decreases |ls|
  {
    hide PlanUnits, OpenBooks, Apply, Enabled, PoolInv, FinalReport;
    if ls != [] {
      hide ReadExactly, Init;
      ReadAlways(cfg, store, Front(ls));
      PoolAlways(cfg, store, Front(ls));
      ReadStep(cfg, After(cfg, Init(cfg, store), Front(ls)), Last(ls));
    }
  }

  /**
   * A run that ends without an abort reports the tokens of exactly the outputs it archived,
   * in a priced run the cost of exactly the received outcomes, their attempts and repairs, and
   * the salvage problems of those that parsed.
   */
  lemma ReportMatchesArchive(cfg: Config, store: Store, ls: seq<Label>)
    requires !cfg.dryRun && DistinctKeys(cfg.units) && Valid(cfg, Init(cfg, store), ls)
    requires var s := After(cfg, Init(cfg, store), ls); s.pc == Finished && !s.aborted
    ensures var s := After(cfg, Init(cfg, store), ls);
            var archived := Archived(cfg, s.received);
            && s.books.store.outputs == store.outputs + archived && s.report.Some?
            && s.report.value.inputTokens == InputTokens(archived) && s.report.value.outputTokens == OutputTokens(archived)
            && s.report.value.cost == (if Priced(cfg.prices) then Some(Costs(cfg, s.received)) else None)
            && Priceable(cfg.prices, s.report.value)
            && s.meter.attempts == AttemptsOf(s.received) && s.meter.repairs == RepairsOf(s.received)
            && s.meter.parseLog == ProblemLog(s.received)
  {
    hide Init, After, Valid, Archived, Costs, CostUSD, Used;
    var s := After(cfg, Init(cfg, store), ls);
    ResponsesArchived(cfg, store, ls);
    ReadAlways(cfg, store, ls);
    MeteredAlways(cfg, store, ls);
    CountAlways(cfg, store, ls);
    CostExactly(cfg.prices, s.meter.usage);
    UsedIs(cfg.prices, s.meter.usage);
  }

  /** A cost is reported when a price is set: the input tokens at their price and the output tokens at theirs, per million. */
  ghost predicate Priceable(p: Prices, r: Report) {
    && (r.cost.Some? <==> p.inMTok > 0.0 || p.outMTok > 0.0)
    && (r.cost.Some? ==> 1000000.0 * r.cost.value == r.inputTokens as real * p.inMTok + r.outputTokens as real * p.outMTok)
  }

  lemma UsedIs(p: Prices, usage: Usage)
    ensures Used(p, usage) == usage.inputTokens as real * p.inMTok + usage.outputTokens as real * p.outMTok
  {
  }
}

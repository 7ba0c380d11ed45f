/** One step of a run said in full: what a pend and a commit write, when a unit may be submitted, what is reported. */
module RunnerExact {
  import opened Basics
  import opened Units
  import opened Wire
  import opened Llm
  import opened Validation
  import opened DropConservation
  import opened Tables
  import opened Loader
  import opened LoadTheorems
  import opened Ledger
  import opened Runner
  import opened RunnerFrames
  import opened RunnerPool
  import opened RunnerCounts

  // ------------------------------------------------------------------ pending

  /** Pending writes one row: it keeps the row's document, attempts, records and drops, and takes the run's model, id and the unit's digest. */
  lemma PendExactly(cfg: Config, ledger: Ledger, u: Unit)
    ensures var k := LedgerKey(u.unitKey, cfg.run.version);
            PendUnit(cfg, ledger, u) == ledger[k :=
              if k in ledger then
                LedgerRow(ledger[k].documentId, cfg.run.model, Pending, cfg.hash(InputOf(u)), ledger[k].attempts,
                          None, ledger[k].records, ledger[k].dropped, cfg.run.id)
              else
                LedgerRow(u.documentId, cfg.run.model, Pending, cfg.hash(InputOf(u)), 0, None, None, [], cfg.run.id)]
  {
  }

  // ---------------------------------------------------------------- committing

  /** The finished row of a unit whose records are v, if its answer parsed. */
  ghost predicate RowAfter(before: LedgerRow, o: Outcome, v: Option<Validated>, row: LedgerRow) {
    && row.documentId == before.documentId && row.model == before.model && row.runId == before.runId
    && row.inputHash == before.inputHash && row.attempts == before.attempts + 1
    && match v
       case Some(r) =>
         && row.status == Done && row.lastError == None && row.dropped == r.drops
         && row.records == Some(Counts(|r.entities|, |r.events|, |r.claims|, |r.relationships|, |r.contradictions|))
       case None =>
         && row.status == Failed && row.dropped == [] && row.records == None
         && row.lastError == if o.err == "" then None else Some(o.err)
  }

  /** b is a with one archive row for each response, in order. */
  ghost predicate Archives(run: RunId, u: Unit, rs: seq<Response>, a: seq<Output>, b: seq<Output>) {
    && |b| == |a| + |rs| && (forall i :: 0 <= i < |a| ==> b[i] == a[i])
    && forall n :: 0 <= n < |rs| ==>
         b[|a| + n] == Output(run, rs[n].model, u.documentId, rs[n].text, rs[n].inputTokens, rs[n].outputTokens)
  }

  ghost function LoggedAt(drops: seq<Drop>, kind: DropKind, reason: Reason): set<nat> {
    set i | 0 <= i < |drops| && drops[i].kind == kind && drops[i].reason == reason
  }

  ghost function LostAt(drops: seq<Drop>): set<nat> {
    set i | 0 <= i < |drops| && (drops[i].kind == EventDrop || drops[i].kind == ClaimDrop || drops[i].kind == RelationshipDrop)
  }

  /** The statistics and snapshots after records v were loaded. */
  ghost predicate Tallied(b: Books, v: Validated, t: Books) {
    && t.entities == b.entities + (set e | e in v.entities :: e.id)
    && t.events == b.events + (set e | e in v.events :: e.id)
    && t.claims == b.claims + (set c | c in v.claims :: c.id)
    && t.done == b.done + 1 && t.failed == b.failed
    && t.records.entities == b.records.entities + |v.entities| && t.records.events == b.records.events + |v.events|
    && t.records.claims == b.records.claims + |v.claims|
    && t.records.relationships == b.records.relationships + |v.relationships|
    && t.records.contradictions == b.records.contradictions + |v.contradictions|
    && t.kept == t.records.entities + t.records.events + t.records.claims + t.records.relationships
    && t.dropped == b.dropped + |LostAt(v.drops)|
    && forall kind, reason :: t.dropLog[(kind, reason)] == b.dropLog[(kind, reason)] + |LoggedAt(v.drops, kind, reason)|
  }

  lemma {:induction false} OutputsArchive(cfg: Config, u: Unit, rs: seq<Response>, a: seq<Output>)
    ensures Archives(cfg.run, u, rs, a, a + OutputsOf(cfg, u, rs))
    decreases |rs|
  {
    if rs != [] {
      OutputsArchive(cfg, u, Front(rs), a);
      assert a + OutputsOf(cfg, u, rs) == (a + OutputsOf(cfg, u, Front(rs))) + [OutputOf(cfg, u, Last(rs))];
    }
  }

  ghost function Like(kind: DropKind, reason: Reason): Drop -> bool {
    (d: Drop) => d.kind == kind && d.reason == reason
  }

  lemma {:induction false} LogIsCount(drops: seq<Drop>, kind: DropKind, reason: Reason)
    ensures LogOf(drops)[(kind, reason)] == Count(drops, Like(kind, reason))
    decreases |drops|
  {
    if drops != [] { LogIsCount(Front(drops), kind, reason); }
  }

  lemma LogCounts(drops: seq<Drop>, kind: DropKind, reason: Reason)
    ensures LogOf(drops)[(kind, reason)] == |LoggedAt(drops, kind, reason)|
  {
    LogIsCount(drops, kind, reason);
    CountSize(drops, Like(kind, reason));
    assert PositionsOf(drops, Like(kind, reason)) == LoggedAt(drops, kind, reason);
  }

  lemma LostCounts(drops: seq<Drop>)
    ensures Count(drops, Counted()) == |LostAt(drops)|
  {
    CountSize(drops, Counted());
    assert PositionsOf(drops, Counted()) == LostAt(drops);
  }

  lemma AbsorbTallies(b: Books, graph: Db, v: Validated)
    ensures Tallied(b, v, Absorb(b, graph, v)) && Absorb(b, graph, v).store == b.store.(graph := graph)
  {
    LostCounts(v.drops);
    forall kind, reason
      ensures LogOf(v.drops)[(kind, reason)] == |LoggedAt(v.drops, kind, reason)|
    {
      LogCounts(v.drops, kind, reason);
    }
    hide LogOf, LostAt, LoggedAt;
  }

  /**
   * A commit writes the unit's row and its archived responses; if the answer parsed it loads
   * the records validated against the snapshots and the payload, and counts each of them once.
   */
  lemma CommitExactly(cfg: Config, b: Books, o: Outcome)
    requires LedgerKey(o.job.unit.unitKey, cfg.run.version) in b.store.ledger && Commit(cfg, b, o).Some?
    ensures var t, k := Commit(cfg, b, o).value, LedgerKey(o.job.unit.unitKey, cfg.run.version);
            && k in t.store.ledger && t.store.ledger == b.store.ledger[k := t.store.ledger[k]]
            && Archives(cfg.run, o.job.unit, o.responses, b.store.outputs, t.store.outputs)
            && match o.wire
               case None =>
                 RowAfter(b.store.ledger[k], o, None, t.store.ledger[k])
                 && t == b.(store := Store(b.store.graph, t.store.ledger, t.store.outputs), failed := b.failed + 1)
               case Some(w) =>
                 var v := Validate(w, Scope(o.job.unit, b.entities, b.events, b.claims));
                 RowAfter(b.store.ledger[k], o, Some(v), t.store.ledger[k])
                 && Load(b.store.graph, v) == Some(t.store.graph) && Tallied(b, v, t)
  {
    hide Validate, Load, Absorb, OutputsOf, Tallied;
    OutputsArchive(cfg, o.job.unit, o.responses, b.store.outputs);
    if o.wire.Some? {
      var v := Validate(o.wire.value, Scope(o.job.unit, b.entities, b.events, b.claims));
      var recorded := b.(store := Recorded(cfg, b, o));
      AbsorbTallies(recorded, Load(b.store.graph, v).value, v);
      assert Tallied(b, v, Absorb(recorded, Load(b.store.graph, v).value, v)) by { TalliedAnyStore(b, recorded, v, Absorb(recorded, Load(b.store.graph, v).value, v)); }
    }
  }

  lemma TalliedAnyStore(b: Books, c: Books, v: Validated, t: Books)
    requires c == b.(store := c.store) && Tallied(c, v, t)
    ensures Tallied(b, v, t)
  {
  }

  /** How many of the outcome's responses were counted before the transaction failed, if it did. */
  ghost function Reached(fault: Fault, o: Outcome): nat {
    if fault.BeginFails? then 0 else if fault.OutputFails? then fault.added else |o.responses|
  }

  ghost function TokensIn(rs: seq<Response>): int {
    if rs == [] then 0 else rs[0].inputTokens + TokensIn(rs[1..])
  }

  ghost function TokensOut(rs: seq<Response>): int {
    if rs == [] then 0 else rs[0].outputTokens + TokensOut(rs[1..])
  }

  lemma {:induction false} UsageSums(u: Usage, rs: seq<Response>)
    ensures UsageAddAll(u, rs) == Usage(u.calls + |rs|, u.inputTokens + TokensIn(rs), u.outputTokens + TokensOut(rs))
    decreases |rs|
  {
    if rs != [] {
      UsageSums(u, Front(rs));
      TokensAppend(Front(rs), Last(rs));
      assert rs == Front(rs) + [Last(rs)];
    }
  }

  lemma {:induction false} TokensAppend(rs: seq<Response>, r: Response)
    ensures TokensIn(rs + [r]) == TokensIn(rs) + r.inputTokens && TokensOut(rs + [r]) == TokensOut(rs) + r.outputTokens
  {
    if rs != [] {
      TokensAppend(rs[1..], r);
      assert (rs + [r])[0] == rs[0] && (rs + [r])[1..] == rs[1..] + [r];
    }
  }

  /**
   * What a transaction leaves in the statistics even when it fails: all attempts and repairs,
   * the usage of the responses it got to, and the salvage problems once every response is archived.
   */
  lemma MeterExactly(m: Meter, o: Outcome, fault: Fault)
    requires FaultFits(fault, o)
    ensures var t, heard := MeterAfter(m, o, fault), o.responses[..Reached(fault, o)];
            && t.attempts == m.attempts + o.attempts && t.repairs == m.repairs + o.repairs
            && t.usage.calls == m.usage.calls + Reached(fault, o)
            && t.usage.inputTokens == m.usage.inputTokens + TokensIn(heard)
            && t.usage.outputTokens == m.usage.outputTokens + TokensOut(heard)
            && forall p :: t.parseLog[p] == m.parseLog[p] +
                 if o.wire.Some? && !fault.BeginFails? && !fault.OutputFails? then multiset(o.problems)[p] else 0
  {
    UsageSums(m.usage, o.responses[..Reached(fault, o)]);
    assert o.responses[..|o.responses|] == o.responses;
  }

  // ------------------------------------------------------------- the budget gate

  /** A token of the prompt for every four characters, at least one, and 4000 for the answer. */
  ghost function Foreseen(cfg: Config, u: Unit): real {
    (if cfg.promptLength(u) < 4 then 1 else cfg.promptLength(u) / 4) as real * cfg.prices.inMTok + 4000.0 * cfg.prices.outMTok
  }

  /** What the usage costs so far, in millionths of the currency. */
  ghost function Used(p: Prices, usage: Usage): real {
    usage.inputTokens as real * p.inMTok + usage.outputTokens as real * p.outMTok
  }

  lemma Millionth(x: real, k: real)
    ensures 1000000.0 * (x / 1000000.0 * k) == x * k
  {
    assert 1000000.0 * (x / 1000000.0) == x;
    assert 1000000.0 * (x / 1000000.0 * k) == (1000000.0 * (x / 1000000.0)) * k;
  }

  lemma CostExactly(p: Prices, usage: Usage)
    ensures 1000000.0 * CostUSD(p, usage) == Used(p, usage)
  {
    Millionth(usage.inputTokens as real, p.inMTok);
    Millionth(usage.outputTokens as real, p.outMTok);
  }

  lemma EstimateExactly(cfg: Config, u: Unit)
    ensures 1000000.0 * Estimate(cfg, u) == Foreseen(cfg, u)
  {
    Millionth(EstimateTokens(cfg.promptLength(u)) as real, cfg.prices.inMTok);
    Millionth(4000.0, cfg.prices.outMTok);
  }

  /** The gate stops a unit exactly when a price is set and what was spent plus what the unit may cost exceeds the budget. */
  lemma GateExactly(cfg: Config, s: State)
    requires s.pc == Fill && !s.stop && !s.cancelled && s.inflight < Window(cfg) && s.next < |s.plan.pending|
    ensures var over := (cfg.prices.inMTok > 0.0 || cfg.prices.outMTok > 0.0) &&
                        Used(cfg.prices, s.meter.usage) + Foreseen(cfg, s.plan.pending[s.next]) > 1000000.0 * cfg.budget;
            (Enabled(cfg, s, OverBudget) <==> over) && (Enabled(cfg, s, Submit) ==> !over) && (Enabled(cfg, s, PendFails) <==> !over)
  {
    CostExactly(cfg.prices, s.meter.usage);
    EstimateExactly(cfg, s.plan.pending[s.next]);
    hide CostUSD, Estimate, Used, Foreseen;
  }

  // ------------------------------------------------------------------ the window

  /** Main waits for an outcome only with a full window, nothing left to submit, or a stop. */
  ghost predicate WindowUsed(cfg: Config, s: State) {
    s.pc == Select ==>
      s.inflight > 0 && (s.stop || s.next == |s.plan.pending| || s.inflight == if cfg.concurrency < 1 then 1 else cfg.concurrency)
  }

  lemma WindowStep(cfg: Config, s: State, l: Label)
    requires WindowUsed(cfg, s) && PoolInv(cfg, s) && Enabled(cfg, s, l)
    ensures WindowUsed(cfg, Apply(cfg, s, l))
  {
    hide Commit, MeterAfter, CallUnit, PendUnit, WithLedger, FinalReport, Affordable;
  }

  lemma {:induction false} WindowAlwaysUsed(cfg: Config, store: Store, ls: seq<Label>)
    requires Valid(cfg, Init(cfg, store), ls)
    ensures WindowUsed(cfg, After(cfg, Init(cfg, store), ls))
    decreases |ls|
  {
    hide PlanUnits, OpenBooks, Apply, Enabled, PoolInv;
    if ls != [] {
      hide WindowUsed, Init;
      WindowAlwaysUsed(cfg, store, Front(ls));
      PoolAlways(cfg, store, Front(ls));
      WindowStep(cfg, After(cfg, Init(cfg, store), Front(ls)), Last(ls));
    }
  }

  // ------------------------------------------------------------------- stopping

  /** The steps after which nothing more may be submitted. */
  ghost predicate Halts(l: Label) {
    l.Cancel? || l.SeeCancelled? || l.OverBudget? || l.PendFails? || l.Poll? || l.Close? || (l.Receive? && !l.fault.NoFault?)
  }

  ghost predicate Halted(s: State) {
    s.stop || s.cancelled || ShuttingDown(s.pc)
  }

  lemma HaltStep(cfg: Config, s: State, l: Label)
    requires Enabled(cfg, s, l)
    ensures Halts(l) ==> Halted(Apply(cfg, s, l))
    ensures Halted(s) ==> !l.Submit? && Halted(Apply(cfg, s, l))
  {
    hide Commit, MeterAfter, CallUnit, PendUnit, WithLedger, FinalReport, Affordable;
  }

  /** Once cancelled, over budget or failed, a run submits nothing more. */
  lemma {:induction false} NoSubmitAfterHalt(cfg: Config, s: State, ls: seq<Label>, i: nat)
    requires Valid(cfg, s, ls) && i < |ls| && Halts(ls[i])
    ensures Halted(After(cfg, s, ls)) && forall j :: i < j < |ls| ==> !ls[j].Submit?
    decreases |ls|
  {
    hide Apply, Enabled, Halts, Halted;
    HaltStep(cfg, After(cfg, s, Front(ls)), Last(ls));
    if i < |ls| - 1 {
      NoSubmitAfterHalt(cfg, s, Front(ls), i);
      assert forall j :: i < j < |ls| - 1 ==> Front(ls)[j] == ls[j];
    }
  }
}

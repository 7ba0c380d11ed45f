/**
 * The concurrent extraction run as a state machine. The main goroutine fills a window,
 * receives outcomes and commits them; workers turn jobs into outcomes; the environment
 * may cancel, and any database transaction may fail. A label names one atomic step.
 */
module Runner {
  import opened Basics
  import opened Units
  import opened Wire
  import opened Llm
  import opened Validation
  import opened DropConservation
  import opened Tables
  import opened Loader
  import opened LoadTheorems
  import opened Ledger

  // -------------------------------------------------------- configuration

  /** Decoding a response: the payload inside it, or the parser's complaint. */
  datatype Parsed = Unparseable(error: string) | Parsed(payload: RawPayload)

  /** Options, units and the functions the run cannot see into: digest, prompt size, decoder. */
  datatype Config = Config(
    units: seq<Unit>, dryRun: bool, limit: int, maxUnits: nat, budget: real,
    maxAttempts: int, concurrency: int, prices: Prices, run: RunId,
    hash: HashInput -> string, promptLength: Unit -> nat, decode: string -> Parsed)

  /** Concurrency below one counts as one. */
  function Window(cfg: Config): nat {
    Max(1, cfg.concurrency)
  }

  function MaxAttempts(cfg: Config): nat {
    Max(1, cfg.maxAttempts)
  }

  function HashOf(cfg: Config, u: Unit): string {
    cfg.hash(InputOf(u))
  }

  /** Unit keys name ledger rows; one run never builds the same key twice. */
  ghost predicate DistinctKeys(units: seq<Unit>) {
    forall i, j :: 0 <= i < j < |units| ==> units[i].unitKey != units[j].unitKey
  }

  // ------------------------------------------------------------- planning

  /** Done under this prompt version, with the same input. */
  predicate UpToDate(cfg: Config, ledger: Ledger, u: Unit) {
    var k := KeyOf(cfg.run, u);
    k in ledger && ledger[k].status == Done && ledger[k].inputHash == HashOf(cfg, u)
  }

  ghost function Stale(cfg: Config, ledger: Ledger): Unit -> bool {
    (u: Unit) => !UpToDate(cfg, ledger, u)
  }

  ghost function StaleUnits(cfg: Config, ledger: Ledger): seq<Unit> {
    Filter(cfg.units, Stale(cfg, ledger))
  }

  /** How many units one run takes on. */
  function Cap(cfg: Config, stale: nat): nat {
    Min(cfg.maxUnits, if cfg.limit > 0 then Min(cfg.limit, stale) else stale)
  }

  datatype Workload = Workload(pending: seq<Unit>, total: nat, skipped: nat, deferred: nat, truncated: nat)

  ghost function IsTruncated(): Unit -> bool {
    (u: Unit) => u.truncated
  }

  ghost function PlanUnits(cfg: Config, ledger: Ledger): Workload {
    var stale := StaleUnits(cfg, ledger);
    var pending := stale[..Min(|stale|, Cap(cfg, |stale|))];
    Workload(pending, |cfg.units|, |cfg.units| - |stale|, |stale| - |pending|, Count(pending, IsTruncated()))
  }

  // ------------------------------------------------- one unit's model calls

  /** One model call as the worker sees it. */
  datatype Reply = Answered(response: Response) | CallFailed(message: string) | TooLarge(message: string)

  datatype Job = Job(index: nat, unit: Unit)

  datatype Outcome = Outcome(
    job: Job, responses: seq<Response>, wire: Option<WireExtraction>, problems: seq<Problem>,
    err: string, attempts: nat, repairs: nat)

  function NoAttempt(job: Job): Outcome {
    Outcome(job, [], None, [], "", 0, 0)
  }

  /** An oversized input or a parsed answer ends the retries. */
  predicate Ends(cfg: Config, r: Reply) {
    r.TooLarge? || (r.Answered? && cfg.decode(r.response.text).Parsed?)
  }

  predicate Garbled(cfg: Config, r: Reply) {
    r.Answered? && cfg.decode(r.response.text).Unparseable?
  }

  ghost function Attempt(cfg: Config, o: Outcome, r: Reply, last: bool): Outcome {
    var tried := o.(attempts := o.attempts + 1);
    match r
    case TooLarge(m) => tried.(err := "input too large: " + m)
    case CallFailed(m) => tried.(err := m)
    case Answered(response) =>
      var heard := tried.(responses := o.responses + [response]);
      match cfg.decode(response.text)
      case Unparseable(e) =>
        heard.(err := "unparseable response: " + e, wire := None, repairs := o.repairs + if last then 0 else 1)
      case Parsed(payload) =>
        heard.(wire := Some(Payload(payload)), problems := PayloadProblems(payload), err := "")
  }

  ghost function CallFrom(cfg: Config, o: Outcome, replies: seq<Reply>): Outcome
    decreases |replies|
  {
    if replies == [] then o
    else
      var tried := Attempt(cfg, o, replies[0], |replies| == 1);
      if Ends(cfg, replies[0]) then tried else CallFrom(cfg, tried, replies[1..])
  }

  /** The outcome of a job when the model would answer the i-th attempt with replies[i]. */
  ghost function CallUnit(cfg: Config, job: Job, replies: seq<Reply>): Outcome {
    CallFrom(cfg, NoAttempt(job), replies)
  }

  // ------------------------------------------------------------- one commit

  datatype Output = Output(
    run: RunId, model: string, documentId: int, text: string, inputTokens: int, outputTokens: int)

  /** The committed database: the knowledge graph, the ledger and the archived model outputs. */
  datatype Store = Store(graph: Db, ledger: Ledger, outputs: seq<Output>)

  function OutputOf(cfg: Config, u: Unit, r: Response): Output {
    Output(cfg.run, r.model, u.documentId, r.text, r.inputTokens, r.outputTokens)
  }

  function OutputsOf(cfg: Config, u: Unit, rs: seq<Response>): seq<Output> {
    if rs == [] then [] else OutputsOf(cfg, u, Front(rs)) + [OutputOf(cfg, u, Last(rs))]
  }

  /** The committed store, the id snapshots beside it, and the statistics that only a commit changes. */
  datatype Books = Books(
    store: Store, entities: set<string>, events: set<string>, claims: set<string>,
    done: nat, failed: nat, records: Counts, kept: nat, dropped: nat, dropLog: multiset<(DropKind, Reason)>)

  function AddCounts(a: Counts, b: Counts): Counts {
    Counts(a.entities + b.entities, a.events + b.events, a.claims + b.claims,
           a.relationships + b.relationships, a.contradictions + b.contradictions)
  }

  function KeptOf(c: Counts): nat {
    c.entities + c.events + c.claims + c.relationships
  }

  function LogOf(drops: seq<Drop>): multiset<(DropKind, Reason)> {
    if drops == [] then multiset{} else LogOf(Front(drops)) + multiset{(Last(drops).kind, Last(drops).reason)}
  }

  ghost function ScopeOf(b: Books, u: Unit): Scope {
    Scope(u, b.entities, b.events, b.claims)
  }

  ghost function ValidatedIn(b: Books, u: Unit, w: WireExtraction): Validated {
    Validate(w, ScopeOf(b, u))
  }

  ghost function EndingOf(b: Books, o: Outcome): Ending {
    match o.wire
    case None => Ending(Failed, None, [], o.err)
    case Some(w) =>
      var v := ValidatedIn(b, o.job.unit, w);
      Ending(Done, Some(CountsOf(v)), v.drops, "")
  }

  /** The books once the records v are loaded. */
  ghost function Absorb(b: Books, graph: Db, v: Validated): Books {
    var records := AddCounts(b.records, CountsOf(v));
    b.(store := b.store.(graph := graph),
       entities := b.entities + EntityIds(v.entities), events := b.events + EventIds(v.events),
       claims := b.claims + ClaimRecordIds(v.claims),
       done := b.done + 1, records := records, kept := KeptOf(records),
       dropped := b.dropped + Count(v.drops, Counted()), dropLog := b.dropLog + LogOf(v.drops))
  }

  /** What the transaction writes beside the graph. */
  ghost function Recorded(cfg: Config, b: Books, o: Outcome): Store {
    b.store.(ledger := Finish(b.store.ledger, cfg.run, o.job.unit, EndingOf(b, o)),
             outputs := b.store.outputs + OutputsOf(cfg, o.job.unit, o.responses))
  }

  /** One unit's transaction: none when a constraint of the graph rejects its records. */
  ghost function Commit(cfg: Config, b: Books, o: Outcome): Option<Books> {
    var recorded := b.(store := Recorded(cfg, b, o));
    match o.wire
    case None => Some(recorded.(failed := b.failed + 1))
    case Some(w) =>
      var v := ValidatedIn(b, o.job.unit, w);
      match Load(b.store.graph, v)
      case None => None
      case Some(graph) => Some(Absorb(recorded, graph, v))
  }

  function PendUnit(cfg: Config, ledger: Ledger, u: Unit): Ledger {
    Pend(ledger, cfg.run, u, HashOf(cfg, u))
  }

  ghost function WithLedger(b: Books, ledger: Ledger): Books {
    b.(store := b.store.(ledger := ledger))
  }

  // ---------------------------------------------------------------- meters

  /** Statistics that move even when the transaction is rolled back. */
  datatype Meter = Meter(attempts: nat, repairs: nat, usage: Usage, parseLog: multiset<Problem>)

  /** Where a unit's transaction fails, if it does: beginning, after adding some responses, or later. */
  datatype Fault = NoFault | BeginFails | OutputFails(added: nat) | LaterFails

  ghost predicate FaultFits(fault: Fault, o: Outcome) {
    fault.OutputFails? ==> 1 <= fault.added <= |o.responses|
  }

  function Added(fault: Fault, o: Outcome): seq<Response> {
    match fault
    case BeginFails => []
    case OutputFails(n) => if n <= |o.responses| then o.responses[..n] else o.responses
    case _ => o.responses
  }

  function MeterAfter(m: Meter, o: Outcome, fault: Fault): Meter {
    Meter(m.attempts + o.attempts, m.repairs + o.repairs, UsageAddAll(m.usage, Added(fault, o)),
          if (fault.NoFault? || fault.LaterFails?) && o.wire.Some? then m.parseLog + multiset(o.problems) else m.parseLog)
  }

  // ----------------------------------------------------------------- state

  /** The jobs channel, the workers and the outcomes channel. busy holds the jobs being worked on. */
  datatype Pool = Pool(queue: seq<Job>, closed: bool, alive: nat, busy: multiset<Job>, buffer: seq<Outcome>)

  /** Where the main goroutine stands. */
  datatype Pc = Fill | Select | Closing | Waiting | Drain | Finished

  datatype Report = Report(cost: Option<real>, inputTokens: int, outputTokens: int)

  datatype State = State(
    plan: Workload, books: Books, meter: Meter, deferred: nat, report: Option<Report>,
    next: nat, inflight: nat, submitted: nat, stop: bool, cancelled: bool, aborted: bool,
    pool: Pool, pc: Pc,
    received: seq<Outcome>, lost: seq<Outcome>, drained: seq<Outcome>)

  ghost function OpenBooks(store: Store): Books {
    Books(store, store.graph.entities.Keys, store.graph.events.Keys, store.graph.claims.Keys,
          0, 0, ZERO_COUNTS, 0, 0, multiset{})
  }

  /** A run over the committed store, ready to fill. A dry run ends with its plan. */
  ghost function Init(cfg: Config, store: Store): State {
    var plan := PlanUnits(cfg, store.ledger);
    State(plan, OpenBooks(store), Meter(0, 0, NO_USAGE, multiset{}), plan.deferred, None,
          0, 0, 0, false, false, false,
          Pool([], false, Window(cfg), multiset{}, []), if cfg.dryRun then Finished else Fill,
          [], [], [])
  }

  // ---------------------------------------------------------------- budget

  function EstimateTokens(length: nat): nat {
    Max(1, length / 4)
  }

  function Estimate(cfg: Config, u: Unit): real {
    EstimateTokens(cfg.promptLength(u)) as real / 1000000.0 * cfg.prices.inMTok +
    4000.0 / 1000000.0 * cfg.prices.outMTok
  }

  predicate BudgetAllows(cfg: Config, usage: Usage, estimate: real) {
    !Priced(cfg.prices) || CostUSD(cfg.prices, usage) + estimate <= cfg.budget
  }

  // ----------------------------------------------------------------- steps

  datatype Label =
    | Cancel
    | Take                                        // an idle worker receives the oldest job
    | Answer(job: Job, replies: seq<Reply>)       // a busy worker sends its outcome
    | Exit                                        // an idle worker finds the jobs closed and drained
    | SeeCancelled | OverBudget | PendFails | Submit | EndFill
    | Poll                                        // the select sees the cancellation
    | Receive(fault: Fault)
    | Close | Wait | Discard | Conclude

  /** The fill loop's guard. */
  predicate Filling(cfg: Config, s: State) {
    s.pc == Fill && !s.stop && s.inflight < Window(cfg) && s.next < |s.plan.pending|
  }

  /** The next unit passes the budget gate. */
  predicate Affordable(cfg: Config, s: State)
    requires Filling(cfg, s)
  {
    BudgetAllows(cfg, s.meter.usage, Estimate(cfg, s.plan.pending[s.next]))
  }

  ghost predicate Enabled(cfg: Config, s: State, l: Label) {
    match l
    case Cancel => !s.cancelled
    case Take => s.pool.queue != [] && |s.pool.busy| < s.pool.alive
    case Answer(job, replies) => job in s.pool.busy && |replies| == MaxAttempts(cfg) && |s.pool.buffer| < Window(cfg)
    case Exit => s.pool.closed && s.pool.queue == [] && |s.pool.busy| < s.pool.alive
    case SeeCancelled => Filling(cfg, s) && s.cancelled
    case OverBudget => Filling(cfg, s) && !s.cancelled && !Affordable(cfg, s)
    case PendFails => Filling(cfg, s) && !s.cancelled && Affordable(cfg, s)
    case Submit => Filling(cfg, s) && !s.cancelled && Affordable(cfg, s) && |s.pool.queue| < Window(cfg)
    case EndFill => s.pc == Fill && !Filling(cfg, s)
    case Poll => s.pc == Select && s.cancelled
    case Receive(fault) => s.pc == Select && s.pool.buffer != [] && FaultFits(fault, s.pool.buffer[0])
    case Close => s.pc == Closing
    case Wait => s.pc == Waiting && s.pool.alive == 0
    case Discard => s.pc == Drain && s.pool.buffer != []
    case Conclude => s.pc == Drain && s.pool.buffer == []
  }

  ghost function SubmitNext(cfg: Config, s: State): State
    requires s.next < |s.plan.pending|
  {
    var u := s.plan.pending[s.next];
    s.(books := WithLedger(s.books, PendUnit(cfg, s.books.store.ledger, u)),
       pool := s.pool.(queue := s.pool.queue + [Job(s.next, u)]),
       next := s.next + 1, inflight := s.inflight + 1, submitted := s.submitted + 1)
  }

  /** persistOutcome on the oldest outcome; a failed transaction rolls back and aborts the run. */
  ghost function ReceiveNext(cfg: Config, s: State, fault: Fault): State
    requires s.pool.buffer != []
  {
    var o := s.pool.buffer[0];
    var taken := s.(pool := s.pool.(buffer := s.pool.buffer[1..]),
                    inflight := if s.inflight > 0 then s.inflight - 1 else 0,
                    meter := MeterAfter(s.meter, o, fault));
    var committed := Commit(cfg, s.books, o);
    if fault.NoFault? && committed.Some? then
      taken.(books := committed.value, pc := Fill, received := s.received + [o])
    else
      taken.(aborted := true, pc := Closing, lost := s.lost + [o])
  }

  ghost function FinalReport(cfg: Config, usage: Usage): Report {
    Report(if Priced(cfg.prices) then Some(CostUSD(cfg.prices, usage)) else None, usage.inputTokens, usage.outputTokens)
  }

  ghost function Apply(cfg: Config, s: State, l: Label): State
    requires Enabled(cfg, s, l)
  {
    match l
    case Cancel => s.(cancelled := true)
    case Take => s.(pool := s.pool.(queue := s.pool.queue[1..], busy := s.pool.busy + multiset{s.pool.queue[0]}))
    case Answer(job, replies) =>
      s.(pool := s.pool.(busy := s.pool.busy - multiset{job}, buffer := s.pool.buffer + [CallUnit(cfg, job, replies)]))
    case Exit => s.(pool := s.pool.(alive := s.pool.alive - 1))
    case SeeCancelled => s.(stop := true)
    case OverBudget => s.(stop := true)
    case PendFails => s.(aborted := true, pc := Closing)
    case Submit => SubmitNext(cfg, s)
    case EndFill => s.(pc := if s.inflight == 0 then Closing else Select)
    case Poll => s.(stop := true, pc := Fill)
    case Receive(fault) => ReceiveNext(cfg, s, fault)
    case Close => s.(pool := s.pool.(closed := true), pc := Waiting)
    case Wait => s.(pc := Drain)
    case Discard =>
      s.(pool := s.pool.(buffer := s.pool.buffer[1..]), deferred := s.deferred + 1,
         drained := s.drained + [s.pool.buffer[0]])
    case Conclude =>
      if s.aborted then s.(pc := Finished)
      else s.(pc := Finished, report := Some(FinalReport(cfg, s.meter.usage)),
              deferred := s.deferred + if s.submitted <= |s.plan.pending| then |s.plan.pending| - s.submitted else 0)
  }

  // ------------------------------------------------------------------ runs

  /** The steps ls can be taken from s in this order. */
  ghost predicate Valid(cfg: Config, s: State, ls: seq<Label>)
    decreases |ls|, 1
  {
    ls == [] || (Valid(cfg, s, Front(ls)) && Enabled(cfg, After(cfg, s, Front(ls)), Last(ls)))
  }

  ghost function After(cfg: Config, s: State, ls: seq<Label>): State
    requires Valid(cfg, s, ls)
    decreases |ls|, 2
  {
    if ls == [] then s else Apply(cfg, After(cfg, s, Front(ls)), Last(ls))
  }
}

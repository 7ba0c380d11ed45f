/** The run as the program performs it: mutable state, loops and all, proved to follow the state machine. */
module RunnerLoop {
  import opened Basics
  import opened Units
  import opened Wire
  import opened Llm
  import opened Validation
  import opened ValidationLoops
  import opened DropConservation
  import opened Tables
  import opened Loader
  import opened LoadsExactly
  import opened LoadTheorems
  import opened Ledger
  import opened Runner
  import opened Planning
  import opened RunnerFrames
  import opened RunnerPool
  import opened RunnerOutcomes

  // ------------------------------------------------------------- planning

  method SkipDone(cfg: Config, ledger: Ledger) returns (pending: seq<Unit>, skipped: nat)
    ensures pending == StaleUnits(cfg, ledger) && skipped == |cfg.units| - |pending|
  {
    hide UpToDate;
    pending, skipped := [], 0;
    for i := 0 to |cfg.units|
      invariant pending == Filter(cfg.units[..i], Stale(cfg, ledger))
      invariant skipped == i - |pending|
    {
      FrontOfPrefix(cfg.units, i);
      if UpToDate(cfg, ledger, cfg.units[i]) {
        skipped := skipped + 1;
      } else {
        pending := pending + [cfg.units[i]];
      }
    }
    assert cfg.units[..|cfg.units|] == cfg.units;
  }

  method CountTruncated(pending: seq<Unit>) returns (truncated: nat)
    ensures truncated == Count(pending, IsTruncated())
  {
    truncated := 0;
    for i := 0 to |pending|
      invariant truncated == Count(pending[..i], IsTruncated())
    {
      FrontOfPrefix(pending, i);
      if pending[i].truncated {
        truncated := truncated + 1;
      }
    }
    assert pending[..|pending|] == pending;
  }

  /** The skip, limit and cap of one run. */
  method PlanRun(cfg: Config, ledger: Ledger) returns (pending: seq<Unit>, skipped: nat, deferred: nat, truncated: nat)
    ensures Workload(pending, |cfg.units|, skipped, deferred, truncated) == PlanUnits(cfg, ledger)
    ensures PlanIs(cfg, ledger, Workload(pending, |cfg.units|, skipped, deferred, truncated))
  {
    PlanExactly(cfg, ledger);
    hide StaleUnits, Count, PlanIs;
    pending, skipped := SkipDone(cfg, ledger);
    deferred := 0;
    if cfg.limit > 0 && |pending| > cfg.limit {
      deferred := deferred + |pending| - cfg.limit;
      pending := pending[..cfg.limit];
    }
    if |pending| > cfg.maxUnits {
      deferred := deferred + |pending| - cfg.maxUnits;
      pending := pending[..cfg.maxUnits];
    }
    ghost var stale := StaleUnits(cfg, ledger);
    assert pending == stale[..Min(|stale|, Cap(cfg, |stale|))];
    truncated := CountTruncated(pending);
  }

  // ---------------------------------------------------------- one model call

  /** What the client answers to calls from, from + 1, ... */
  function Replies(reply: nat -> Reply, from: nat, n: nat): seq<Reply> {
    seq(n, i requires 0 <= i < n => reply(from + i))
  }

  lemma RepliedTo(cfg: Config, job: Job, reply: nat -> Reply, from: nat)
    ensures var n := if cfg.maxAttempts < 1 then 1 else cfg.maxAttempts;
            MaxAttempts(cfg) == n && AsReplied(cfg, CallUnit(cfg, job, Replies(reply, from, n)), Replies(reply, from, n))
  {
    hide CallUnit, EndedBy, Used;
    CallUnitExact(cfg, job, Replies(reply, from, MaxAttempts(cfg)));
  }

  /** The worker's retry loop. */
  method CallModel(cfg: Config, job: Job, reply: nat -> Reply, from: nat) returns (outcome: Outcome)
    ensures outcome == CallUnit(cfg, job, Replies(reply, from, MaxAttempts(cfg)))
    ensures AsReplied(cfg, outcome, Replies(reply, from, if cfg.maxAttempts < 1 then 1 else cfg.maxAttempts))
  {
    hide *;
    RepliedTo(cfg, job, reply, from);
    outcome := Retry(cfg, job, reply, from);
  }

  method Retry(cfg: Config, job: Job, reply: nat -> Reply, from: nat) returns (outcome: Outcome)
    ensures outcome == CallUnit(cfg, job, Replies(reply, from, MaxAttempts(cfg)))
  {
    hide Payload, PayloadProblems;
    outcome := NoAttempt(job);
    ghost var replies := Replies(reply, from, MaxAttempts(cfg));
    assert replies[0..] == replies;
    for attempt := 1 to MaxAttempts(cfg) + 1
      invariant CallFrom(cfg, outcome, replies[attempt - 1..]) == CallUnit(cfg, job, replies)
    {
      ghost var rest := replies[attempt - 1..];
      assert rest[0] == replies[attempt - 1] == reply(from + (attempt - 1)) && rest[1..] == replies[attempt..];
      ghost var before := outcome;
      outcome := outcome.(attempts := outcome.attempts + 1);
      match reply(from + (attempt - 1))
      case TooLarge(m) =>
        outcome := outcome.(err := "input too large: " + m);
        assert CallFrom(cfg, before, rest) == outcome;
        return;
      case CallFailed(m) =>
        outcome := outcome.(err := m);
      case Answered(response) =>
        outcome := outcome.(responses := outcome.responses + [response]);
        match cfg.decode(response.text)
        case Unparseable(e) =>
          outcome := outcome.(err := "unparseable response: " + e, wire := None);
          if attempt < MaxAttempts(cfg) {
            outcome := outcome.(repairs := outcome.repairs + 1);
          }
        case Parsed(raw) =>
          var wire, problems := SalvagePayload(raw);
          outcome := outcome.(wire := Some(wire), problems := problems, err := "");
          assert CallFrom(cfg, before, rest) == outcome;
          return;
    }
    assert replies[MaxAttempts(cfg)..] == [];
  }

  // ------------------------------------------------------------ the machine

  lemma LoadedIdsNulFree(w: WireExtraction, scope: Scope)
    ensures NulFreeIds(EntityIds(Validate(w, scope).entities))
  {
    hide EventsIn, ClaimsIn, EdgesIn, DropsOf, EntitiesIn;
    EntityIdsAre(w);
    KeepKeys(w.entities, EntityId(), EntityOk());
  }

  function EndingWith(v: Validated): Ending {
    Ending(Done, Some(CountsOf(v)), v.drops, "")
  }

  lemma CommitLoads(cfg: Config, b: Books, o: Outcome, graph: Db)
    requires o.wire.Some? && Load(b.store.graph, ValidatedIn(b, o.job.unit, o.wire.value)) == Some(graph)
    ensures var v := ValidatedIn(b, o.job.unit, o.wire.value);
            Recorded(cfg, b, o) == Store(b.store.graph, Finish(b.store.ledger, cfg.run, o.job.unit, EndingWith(v)),
                                       b.store.outputs + OutputsOf(cfg, o.job.unit, o.responses))
            && Commit(cfg, b, o) == Some(Absorb(b.(store := Recorded(cfg, b, o)), graph, v))
  {
    hide Load, ValidatedIn, OutputsOf, Finish, Absorb;
  }

  lemma AbsorbedIds(b: Books, graph: Db, v: Validated)
    requires NulFreeIds(b.entities) && NulFreeIds(EntityIds(v.entities))
    ensures NulFreeIds(Absorb(b, graph, v).entities)
  {
    hide EntityIds, EventIds, ClaimRecordIds, LogOf, Count;
  }

  lemma UsageNone(u: Usage)
    ensures UsageAddAll(u, []) == u
  {
  }

  // -------------------------------------------------------- the main's books

  /** The database and the statistics, as the main goroutine writes them. */
  class Bookkeeper {
    const cfg: Config
    const tracker: CostTracker
    // the committed database
    var graph: Db
    var ledger: Ledger
    var outputs: seq<Output>
    // the id snapshots
    var entities: set<string>
    var events: set<string>
    var claims: set<string>
    // statistics
    var done: nat
    var failed: nat
    var records: Counts
    var kept: nat
    var dropped: nat
    var dropLog: multiset<(DropKind, Reason)>
    var attempts: nat
    var repairs: nat
    var parseLog: multiset<Problem>

    ghost function View(): Books
      reads this
    {
      Books(Store(graph, ledger, outputs), entities, events, claims, done, failed, records, kept, dropped, dropLog)
    }

    ghost function Readings(): Meter
      reads this, tracker
    {
      Meter(attempts, repairs, tracker.View(), parseLog)
    }

    constructor (cfg: Config, graph: Db, ledger: Ledger, outputs: seq<Output>)
      requires NulFreeIds(graph.entities.Keys)
      ensures this.cfg == cfg && fresh(tracker) && tracker.prices == cfg.prices && NulFreeIds(entities)
      ensures View() == OpenBooks(Store(graph, ledger, outputs)) && Readings() == Meter(0, 0, NO_USAGE, multiset{})
    {
      this.cfg := cfg;
      tracker := new CostTracker(cfg.prices);
      this.graph, this.ledger, this.outputs := graph, ledger, outputs;
      entities, events, claims := graph.entities.Keys, graph.events.Keys, graph.claims.Keys;
      done, failed, attempts, repairs, kept, dropped := 0, 0, 0, 0, 0, 0;
      records, dropLog, parseLog := ZERO_COUNTS, multiset{}, multiset{};
    }

    /** Marks a unit pending in its own transaction. */
    method PendRow(u: Unit)
      modifies this`ledger
      ensures View() == WithLedger(old(View()), PendUnit(cfg, old(ledger), u)) && Readings() == old(Readings())
      ensures entities == old(entities)
    {
      ledger := PendUnit(cfg, ledger, u);
    }

    /** Adds each response to the tracker and archives it; an insert may fail. */
    method RecordOutputs(o: Outcome) returns (ok: bool, added: nat, archived: seq<Output>)
      modifies tracker
      ensures added <= |o.responses| && tracker.View() == UsageAddAll(old(tracker.View()), o.responses[..added])
      ensures if ok then added == |o.responses| else added >= 1
      ensures ok ==> archived == outputs + OutputsOf(cfg, o.job.unit, o.responses)
    {
      archived, added := outputs, 0;
      for i := 0 to |o.responses|
        invariant added == i && tracker.View() == UsageAddAll(old(tracker.View()), o.responses[..i])
        invariant archived == outputs + OutputsOf(cfg, o.job.unit, o.responses[..i])
      {
        FrontOfPrefix(o.responses, i);
        tracker.Add(o.responses[i]);
        added := added + 1;
        ok := *;
        if !ok { return; }
        archived := archived + [OutputOf(cfg, o.job.unit, o.responses[i])];
      }
      assert o.responses[..|o.responses|] == o.responses;
      ok := true;
    }

    /** Finishes a unit that never parsed; the transaction may fail. */
    method CommitFailure(o: Outcome, archived: seq<Output>) returns (ok: bool)
      requires o.wire.None? && archived == outputs + OutputsOf(cfg, o.job.unit, o.responses)
      modifies this`ledger, this`outputs, this`failed
      ensures if ok then Commit(cfg, old(View()), o) == Some(View()) else View() == old(View())
    {
      ok := *;
      if ok {
        ledger := Finish(ledger, cfg.run, o.job.unit, Ending(Failed, None, [], o.err));
        outputs, failed := archived, failed + 1;
      }
    }

    /** The drop counters of one unit. */
    method RecordDrops(drops: seq<Drop>)
      modifies this`dropped, this`dropLog
      ensures dropped == old(dropped) + Count(drops, Counted()) && dropLog == old(dropLog) + LogOf(drops)
    {
      for i := 0 to |drops|
        invariant dropped == old(dropped) + Count(drops[..i], Counted())
        invariant dropLog == old(dropLog) + LogOf(drops[..i])
      {
        FrontOfPrefix(drops, i);
        if drops[i].kind.ClaimDrop? || drops[i].kind.EventDrop? || drops[i].kind.RelationshipDrop? {
          dropped := dropped + 1;
        }
        dropLog := dropLog + multiset{(drops[i].kind, drops[i].reason)};
      }
      assert drops[..|drops|] == drops;
    }

    // The kept ids join the snapshots.

    method AddEntities(rs: seq<EntityRecord>)
      modifies this`entities
      ensures entities == old(entities) + EntityIds(rs)
    {
      for i := 0 to |rs|
        invariant entities == old(entities) + EntityIds(rs[..i])
      {
        entities := entities + {rs[i].id};
      }
      assert rs[..|rs|] == rs;
    }

    method AddEvents(rs: seq<EventRecord>)
      modifies this`events
      ensures events == old(events) + EventIds(rs)
    {
      for i := 0 to |rs|
        invariant events == old(events) + EventIds(rs[..i])
      {
        events := events + {rs[i].id};
      }
      assert rs[..|rs|] == rs;
    }

    method AddClaims(rs: seq<ClaimRecord>)
      modifies this`claims
      ensures claims == old(claims) + ClaimRecordIds(rs)
    {
      for i := 0 to |rs|
        invariant claims == old(claims) + ClaimRecordIds(rs[..i])
      {
        claims := claims + {rs[i].id};
      }
      assert rs[..|rs|] == rs;
    }

    /** What the commit of the loaded records v changes in memory and on disk. */
    method Book(u: Unit, loaded: Db, v: Validated, archived: seq<Output>)
      modifies this`graph, this`ledger, this`outputs, this`entities, this`events, this`claims, this`done, this`records,
        this`kept, this`dropped, this`dropLog
      ensures View() == Absorb(
                old(View()).(store := Store(old(graph), Finish(old(ledger), cfg.run, u, EndingWith(v)), archived)), loaded, v)
    {
      hide EntityIds, EventIds, ClaimRecordIds, LogOf, Finish, Count, AddCounts, CountsOf, KeptOf, EndingWith;
      graph := loaded;
      ledger := Finish(ledger, cfg.run, u, EndingWith(v));
      outputs, done := archived, done + 1;
      records := AddCounts(records, CountsOf(v));
      kept := KeptOf(records);
      RecordDrops(v.drops);
      AddEntities(v.entities);
      AddEvents(v.events);
      AddClaims(v.claims);
    }

    /** Validates and loads a parsed unit in one transaction, which a constraint or the database may roll back. */
    method CommitRecords(o: Outcome, archived: seq<Output>) returns (ok: bool)
      requires o.wire.Some? && archived == outputs + OutputsOf(cfg, o.job.unit, o.responses) && NulFreeIds(entities)
      modifies this`graph, this`ledger, this`outputs, this`entities, this`events, this`claims, this`done, this`records,
        this`kept, this`dropped, this`dropLog
      ensures if ok then Commit(cfg, old(View()), o) == Some(View()) else View() == old(View())
      ensures NulFreeIds(entities)
    {
      hide Validate, Load, EntityIds, EventIds, ClaimRecordIds, OutputsOf, LogOf, Finish, Count, Absorb, Commit;
      var scope := Scope(o.job.unit, entities, events, claims);
      var v := Run(o.wire.value, scope);
      var tx := new Transaction(graph);
      ok := tx.LoadRecords(v);
      if ok { ok := *; }
      if !ok { return; }
      LoadedIdsNulFree(o.wire.value, scope);
      CommitLoads(cfg, View(), o, tx.View());
      AbsorbedIds(View().(store := Recorded(cfg, View(), o)), tx.View(), v);
      Book(o.job.unit, tx.View(), v, archived);
    }

    /** Finishes or loads the unit, and logs the parse problems of a parsed one. */
    method Settle(o: Outcome, archived: seq<Output>) returns (committed: bool)
      requires archived == outputs + OutputsOf(cfg, o.job.unit, o.responses) && NulFreeIds(entities)
      modifies this`graph, this`ledger, this`outputs, this`entities, this`events, this`claims, this`done, this`failed,
        this`records, this`kept, this`dropped, this`dropLog, this`parseLog
      ensures parseLog == old(parseLog) + if o.wire.Some? then multiset(o.problems) else multiset{}
      ensures if committed then Commit(cfg, old(View()), o) == Some(View()) else View() == old(View())
      ensures NulFreeIds(entities)
    {
      hide Commit, NulFreeIds, OutputsOf;
      if o.wire.None? {
        committed := CommitFailure(o, archived);
      } else {
        parseLog := parseLog + multiset(o.problems);
        committed := CommitRecords(o, archived);
      }
    }

    /** Begins the unit's transaction and archives its responses; either may fail. */
    method Archive(o: Outcome) returns (fault: Fault, archived: seq<Output>)
      modifies this`attempts, this`repairs, tracker
      ensures Readings() == MeterAfter(old(Readings()), o.(wire := None), fault) && FaultFits(fault, o) && !fault.LaterFails?
      ensures View() == old(View()) && entities == old(entities) && outputs == old(outputs)
      ensures fault.NoFault? ==> archived == outputs + OutputsOf(cfg, o.job.unit, o.responses)
    {
      hide UsageAddAll, OutputsOf;
      UsageNone(tracker.View());
      attempts, repairs := attempts + o.attempts, repairs + o.repairs;
      var began: bool := *;
      if !began { return BeginFails, []; }
      var ok, added;
      ok, added, archived := RecordOutputs(o);
      if !ok { return OutputFails(added), []; }
      assert o.responses[..|o.responses|] == o.responses;
      fault := NoFault;
    }

    /** The unit's transaction: begin, archive, then finish or load. fault says where it failed. */
    method Transact(o: Outcome) returns (fault: Fault)
      requires NulFreeIds(entities)
      modifies this, tracker
      ensures Readings() == MeterAfter(old(Readings()), o, fault) && FaultFits(fault, o) && NulFreeIds(entities)
      ensures if fault.NoFault? then Commit(cfg, old(View()), o) == Some(View()) else View() == old(View())
    {
      hide Commit, NulFreeIds, UsageAddAll, OutputsOf, View;
      var archived;
      fault, archived := Archive(o);
      if fault.NoFault? {
        var committed := Settle(o, archived);
        fault := if committed then NoFault else LaterFails;
      }
    }
  }

  // ---------------------------------------------------- channels and workers

  /** The jobs channel, the workers and the outcomes channel. */
  class Crew {
    const cfg: Config
    const reply: nat -> Reply
    var queue: seq<Job>
    var closed: bool
    var alive: nat
    var busy: multiset<Job>
    var buffer: seq<Outcome>
    // model calls made so far
    var calls: nat

    ghost function View(): Pool
      reads this
    {
      Pool(queue, closed, alive, busy, buffer)
    }

    constructor (cfg: Config, reply: nat -> Reply)
      ensures this.cfg == cfg && View() == Pool([], false, Window(cfg), multiset{}, [])
    {
      this.cfg, this.reply, calls := cfg, reply, 0;
      queue, closed, alive, busy, buffer := [], false, Window(cfg), multiset{}, [];
    }

    method Send(job: Job)
      modifies this
      ensures View() == old(View()).(queue := old(queue) + [job])
    {
      queue := queue + [job];
    }

    method Take()
      requires queue != []
      modifies this
      ensures View() == old(View()).(queue := old(queue)[1..], busy := old(busy) + multiset{old(queue)[0]})
    {
      queue, busy := queue[1..], busy + multiset{queue[0]};
    }

    method Answer(job: Job) returns (ghost replies: seq<Reply>)
      requires job in busy
      modifies this
      ensures |replies| == MaxAttempts(cfg) && replies == Replies(reply, old(calls), MaxAttempts(cfg))
      ensures View() == old(View()).(busy := old(busy) - multiset{job}, buffer := old(buffer) + [CallUnit(cfg, job, replies)])
    {
      hide CallUnit;
      var outcome := CallModel(cfg, job, reply, calls);
      replies := Replies(reply, calls, MaxAttempts(cfg));
      busy, buffer, calls := busy - multiset{job}, buffer + [outcome], calls + outcome.attempts;
    }

    method Exit()
      requires alive > 0
      modifies this
      ensures View() == old(View()).(alive := old(alive) - 1)
    {
      alive := alive - 1;
    }

    method Receive() returns (o: Outcome)
      requires buffer != []
      modifies this
      ensures o == old(buffer)[0] && View() == old(View()).(buffer := old(buffer)[1..])
    {
      o, buffer := buffer[0], buffer[1..];
    }

    method Close()
      modifies this
      ensures View() == old(View()).(closed := true)
    {
      closed := true;
    }
  }
}

/** What the ledger says in every reachable state, and what a done row proves. */
module RunnerLedger {
  import opened Basics
  import opened Units
  import opened Wire
  import opened Llm
  import opened Validation
  import opened Tables
  import opened Loader
  import opened Loadable
  import opened LoadsExactly
  import opened Integrity
  import opened LoadTheorems
  import opened LoadContents
  import opened Ledger
  import opened Runner
  import opened RunnerFrames
  import opened RunnerPool
  import opened RunnerOutcomes
  import opened RunnerRefinement
  import opened RunnerStore

  // ------------------------------------------------------------- evidence

  /**
   * Why a row may say done: its hash is that of a unit with its key, an archived response
   * for the unit's document parses, and what validating the payload in some scope of the
   * unit yields is in the graph: a row for every statement of its load, and each of its
   * events and claims with all its columns, links and citations. The row holds the counts
   * and the drops.
   */
  ghost predicate Evidence(cfg: Config, st: Store, k: LedgerKey, row: LedgerRow, scope: Scope, out: Output) {
    && scope.unit.unitKey == k.unitKey && row.inputHash == cfg.hash(InputOf(scope.unit))
    && out in st.outputs && out.documentId == scope.unit.documentId
    && cfg.decode(out.text).Parsed?
    && var v := Validate(Payload(cfg.decode(out.text).payload), scope);
       row.records == Some(Counts(|v.entities|, |v.events|, |v.claims|, |v.relationships|, |v.contradictions|))
       && row.dropped == v.drops
       && (forall s :: s in Plan(v) ==> Present(st.graph, s)) && RowsHold(st.graph, v)
  }

  ghost predicate Proven(cfg: Config, st: Store, k: LedgerKey, row: LedgerRow) {
    exists scope, out :: Evidence(cfg, st, k, row, scope, out)
  }

  /** The declared constraints hold, and every done row has its evidence. */
  ghost predicate Faithful(cfg: Config, st: Store) {
    Sound(st.graph) && forall k :: k in st.ledger && st.ledger[k].status == Done ==> Proven(cfg, st, k, st.ledger[k])
  }

  ghost predicate Extends(a: Store, b: Store) {
    Preserved(a.graph, b.graph) && forall out :: out in a.outputs ==> out in b.outputs
  }

  lemma EvidenceKept(cfg: Config, a: Store, b: Store, k: LedgerKey, row: LedgerRow)
    requires Proven(cfg, a, k, row) && Extends(a, b)
    ensures Proven(cfg, b, k, row)
  {
    hide Validate, Plan, Grows, Present, Payload, RowsHold, SubMap;
    var scope, out :| Evidence(cfg, a, k, row, scope, out);
    var v := Validate(Payload(cfg.decode(out.text).payload), scope);
    forall s | s in Plan(v)
      ensures Present(b.graph, s)
    {
      PresentKept(a.graph, b.graph, s);
    }
    RowsHoldOn(a.graph, b.graph, v);
    assert Evidence(cfg, b, k, row, scope, out);
  }

  lemma GraphExtends(cfg: Config, b: Books, o: Outcome)
    requires Snapped(b) && Sound(b.store.graph) && Handle(cfg, b, o).Some?
    ensures Sound(Handle(cfg, b, o).value.store.graph) && Extends(b.store, Handle(cfg, b, o).value.store)
  {
    hide Load, Validate, EntityIds, EventIds, ClaimRecordIds, CountsOf, OutputsOf, LogOf, Finish, PendUnit, Handle, Preserved, Sound;
    HandleMoves(cfg, b, o);
    if w :| o.wire == Some(w) {
      LoadStaysSound(b.store.graph, ValidatedIn(b, o.job.unit, w));
      FirstWriteWins(b.store.graph, w, ScopeOf(b, o.job.unit));
    } else { PreservedRefl(b.store.graph); }
  }

  lemma LoadStaysSound(db: Db, v: Validated)
    requires Sound(db) && Load(db, v).Some?
    ensures Sound(Load(db, v).value)
  {
    hide Plan, ExecAll, Sound;
    ExecAllSound(db, Plan(v));
  }

  lemma LoadPresent(db: Db, v: Validated)
    requires Load(db, v).Some?
    ensures forall s :: s in Plan(v) ==> Present(Load(db, v).value, s)
  {
    hide Plan, ExecAll, Present;
    forall s | s in Plan(v)
      ensures Present(Load(db, v).value, s)
    {
      ExecAllPresent(db, Plan(v), s);
    }
  }

  /** How often the unit's row was finished before. */
  function AttemptsIn(l: Ledger, k: LedgerKey): nat {
    if k in l then l[k].attempts else 0
  }

  /** The row of the handled unit. */
  lemma HandledRow(cfg: Config, b: Books, o: Outcome)
    requires Handle(cfg, b, o).Some?
    ensures var t, k := Handle(cfg, b, o).value.store.ledger, KeyOf(cfg.run, o.job.unit);
            && k in t && t[k].status == (if o.wire.Some? then Done else Failed)
            && t[k].inputHash == HashOf(cfg, o.job.unit)
            && t[k].records == EndingOf(b, o).records && t[k].dropped == EndingOf(b, o).dropped
            && t[k].lastError == Nullable(EndingOf(b, o).error)
            && t[k].model == cfg.run.model && t[k].runId == cfg.run.id
            && t[k].attempts == AttemptsIn(b.store.ledger, k) + 1
            && t[k].documentId == (if k in b.store.ledger then b.store.ledger[k].documentId else o.job.unit.documentId)
            && (forall j :: j != k ==> (j in t <==> j in b.store.ledger) && (j in t ==> t[j] == b.store.ledger[j]))
  {
    hide Load, Validate, EntityIds, EventIds, ClaimRecordIds, CountsOf, OutputsOf, LogOf, Handle;
    HandleMoves(cfg, b, o);
  }

  /** A parsed outcome, once handled, is the evidence for its row. */
  lemma HandledProven(cfg: Config, b: Books, o: Outcome)
    requires Snapped(b) && Sound(b.store.graph) && Handle(cfg, b, o).Some? && Produced(cfg, o) && o.wire.Some?
    ensures var t, k := Handle(cfg, b, o).value.store, KeyOf(cfg.run, o.job.unit);
            k in t.ledger && Proven(cfg, t, k, t.ledger[k])
  {
    hide Load, Validate, EntityIds, EventIds, ClaimRecordIds, LogOf, Handle, Payload, Required, Plan, Present, RowsHold, Sound;
    HandledRow(cfg, b, o);
    HandleMoves(cfg, b, o);
    ProducedParsed(cfg, o);
    var u, v := o.job.unit, ValidatedIn(b, o.job.unit, o.wire.value);
    LoadPresent(b.store.graph, v);
    LoadHolds(b.store.graph, o.wire.value, ScopeOf(b, u));
    var out := OutputOf(cfg, u, Last(o.responses));
    assert out in OutputsOf(cfg, u, o.responses);
    var t, k := Handle(cfg, b, o).value.store, KeyOf(cfg.run, u);
    assert Evidence(cfg, t, k, t.ledger[k], ScopeOf(b, u), out);
  }

  lemma HandleFaithful(cfg: Config, b: Books, o: Outcome)
    requires Snapped(b) && Faithful(cfg, b.store) && Handle(cfg, b, o).Some? && Produced(cfg, o)
    ensures Faithful(cfg, Handle(cfg, b, o).value.store)
  {
    hide Handle, Proven, Extends, HashOf, Produced, EndingOf, Sound;
    var t := Handle(cfg, b, o).value.store;
    GraphExtends(cfg, b, o);
    HandledRow(cfg, b, o);
    forall k | k in t.ledger && t.ledger[k].status == Done
      ensures Proven(cfg, t, k, t.ledger[k])
    {
      if k == KeyOf(cfg.run, o.job.unit) {
        HandledProven(cfg, b, o);
      } else {
        EvidenceKept(cfg, b.store, t, k, t.ledger[k]);
      }
    }
  }

  lemma {:induction false} SequentialFaithful(cfg: Config, b: Books, os: seq<Outcome>)
    requires Snapped(b) && Faithful(cfg, b.store) && Sequential(cfg, b, os).Some? && AllProduced(cfg, os)
    ensures var t := Sequential(cfg, b, os).value; Snapped(t) && Faithful(cfg, t.store)
    decreases |os|
  {
    hide Faithful, Handle, Produced, Snapped;
    if os != [] {
      assert Last(os) in os;
      SequentialFaithful(cfg, b, Front(os));
      HandleSnaps(cfg, Sequential(cfg, b, Front(os)).value, Last(os));
      HandleFaithful(cfg, Sequential(cfg, b, Front(os)).value, Last(os));
    }
  }

  // --------------------------------------------------------- pending rows

  lemma {:induction false} PendAllRows(cfg: Config, l: Ledger, us: seq<Unit>, k: LedgerKey)
    ensures var t := PendAll(cfg, l, us);
            && (k in t ==> t[k].status == Pending || (k in l && t[k] == l[k]))
            && ((forall u :: u in us ==> KeyOf(cfg.run, u) != k) ==> (k in t <==> k in l) && (k in t ==> t[k] == l[k]))
            && (k in l ==> k in t)
    decreases |us|
  {
    if us != [] {
      PendAllRows(cfg, l, Front(us), k);
    }
  }

  lemma {:induction false} PendAllRow(cfg: Config, l: Ledger, us: seq<Unit>, u: Unit)
    requires u in us && forall w :: w in us && w.unitKey == u.unitKey ==> w == u
    ensures var t, k := PendAll(cfg, l, us), KeyOf(cfg.run, u);
            k in t && t[k] == PendRow(l, cfg.run, u, HashOf(cfg, u))
    decreases |us|
  {
    hide HashOf;
    if u in Front(us) {
      PendAllRow(cfg, l, Front(us), u);
    } else {
      assert us == Front(us) + [Last(us)];
      PendAllRows(cfg, l, Front(us), KeyOf(cfg.run, u));
    }
  }

  // -------------------------------------------------- atomicity across crashes

  lemma PendedFaithful(cfg: Config, b: Books, us: seq<Unit>)
    requires Faithful(cfg, b.store)
    ensures Faithful(cfg, WithLedger(b, PendAll(cfg, b.store.ledger, us)).store)
  {
    hide Proven, PendAll, Sound;
    var t := WithLedger(b, PendAll(cfg, b.store.ledger, us)).store;
    forall k | k in t.ledger && t.ledger[k].status == Done
      ensures Proven(cfg, t, k, t.ledger[k])
    {
      PendAllRows(cfg, b.store.ledger, us, k);
      ProvenAnyLedger(cfg, b.store, t, k, t.ledger[k]);
    }
  }

  lemma ProvenAnyLedger(cfg: Config, a: Store, b: Store, k: LedgerKey, row: LedgerRow)
    requires Proven(cfg, a, k, row) && a.graph == b.graph && a.outputs == b.outputs
    ensures Proven(cfg, b, k, row)
  {
    PreservedRefl(a.graph);
    EvidenceKept(cfg, a, b, k, row);
  }

  /**
   * In every reachable state a row marked done has all validated records of one parsed,
   * archived response in the store, its events and claims with their contents: a crash at
   * any step can never separate the two.
   */
  lemma DoneMeansLoaded(cfg: Config, store: Store, ls: seq<Label>)
    requires DistinctKeys(cfg.units) && Valid(cfg, Init(cfg, store), ls) && Faithful(cfg, store)
    ensures Faithful(cfg, After(cfg, Init(cfg, store), ls).books.store)
  {
    hide Faithful, Sequential, Init, After, Valid, PendAll, Outstanding;
    var s := After(cfg, Init(cfg, store), ls);
    RefinesSequential(cfg, store, ls);
    ProducedAlways(cfg, store, ls);
    OpenSnapped(store);
    SequentialFaithful(cfg, OpenBooks(store), s.received);
    PendedFaithful(cfg, Sequential(cfg, OpenBooks(store), s.received).value, Outstanding(s.plan.pending, s.submitted, s.received));
  }

  /** Sessions of one program: the digest and the decoder are the same functions in all of them. */
  ghost predicate SameProgram(cfg: Config, other: Config) {
    cfg.hash == other.hash && cfg.decode == other.decode
  }

  lemma FaithfulSame(cfg: Config, other: Config, st: Store)
    requires SameProgram(cfg, other) && Faithful(cfg, st)
    ensures Faithful(other, st)
  {
    hide Validate, Plan, Present, Payload, RowsHold, Sound;
    forall k | k in st.ledger && st.ledger[k].status == Done
      ensures Proven(other, st, k, st.ledger[k])
    {
      assert Proven(cfg, st, k, st.ledger[k]);
      var scope, out :| Evidence(cfg, st, k, st.ledger[k], scope, out);
      assert Evidence(other, st, k, st.ledger[k], scope, out);
    }
  }

  /** The same across any number of runs, each stopped anywhere. */
  lemma {:induction false} DoneMeansLoadedAcrossSessions(cfg: Config, store: Store, rs: seq<Session>)
    requires Sessions(store, rs) && Faithful(cfg, store)
    requires forall r :: r in rs ==> SameProgram(cfg, r.cfg)
    ensures Faithful(cfg, AfterSessions(store, rs))
    decreases |rs|
  {
    hide Faithful, Init, Valid, After;
    if rs != [] {
      var r := Last(rs);
      assert r in rs;
      DoneMeansLoadedAcrossSessions(cfg, store, Front(rs));
      FaithfulSame(cfg, r.cfg, AfterSessions(store, Front(rs)));
      DoneMeansLoaded(r.cfg, AfterSessions(store, Front(rs)), r.steps);
      FaithfulSame(r.cfg, cfg, AfterSessions(store, rs));
    }
  }
}

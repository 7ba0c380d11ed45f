/** What a run takes on, said of the ledger's rows and the units themselves. */
module Planning {
  import opened Basics
  import opened Units
  import opened Ledger
  import opened Runner

  /** The ledger has a done row for the unit's key and this prompt version, recorded for the input it has now. */
  ghost predicate DoneNow(cfg: Config, ledger: Ledger, u: Unit) {
    var k := LedgerKey(u.unitKey, cfg.run.version);
    k in ledger && ledger[k].status == Done && ledger[k].inputHash == cfg.hash(InputOf(u))
  }

  /** at lists the positions of the units that are not done now, ascending. */
  ghost predicate NotDoneAt(cfg: Config, ledger: Ledger, at: seq<nat>) {
    && (forall k :: 0 <= k < |at| ==> at[k] < |cfg.units| && !DoneNow(cfg, ledger, cfg.units[at[k]]))
    && (forall j, k :: 0 <= j < k < |at| ==> at[j] < at[k])
    && (forall i :: 0 <= i < |cfg.units| && !DoneNow(cfg, ledger, cfg.units[i]) ==> i in at)
  }

  /** n of m units are taken: all of them, unless the limit or the cap is smaller, and then the smaller of those. */
  predicate CutTo(cfg: Config, m: nat, n: nat) {
    && n <= m && n <= cfg.maxUnits && (cfg.limit > 0 ==> n <= cfg.limit)
    && (n == m || n == cfg.maxUnits || (cfg.limit > 0 && n == cfg.limit))
  }

  ghost function TruncatedAt(pending: seq<Unit>): set<nat> {
    set j | 0 <= j < |pending| && pending[j].truncated
  }

  /** The units that are not done now, in order and cut to size; every other unit is counted. */
  ghost predicate PlanIs(cfg: Config, ledger: Ledger, p: Workload) {
    exists at :: NotDoneAt(cfg, ledger, at) && Cuts(cfg, at, p)
  }

  ghost predicate Cuts(cfg: Config, at: seq<nat>, p: Workload) {
    && CutTo(cfg, |at|, |p.pending|)
    && (forall j :: 0 <= j < |p.pending| ==> at[j] < |cfg.units| && p.pending[j] == cfg.units[at[j]])
    && p.total == |cfg.units| && p.skipped == |cfg.units| - |at| && p.deferred == |at| - |p.pending|
    && p.truncated == |TruncatedAt(p.pending)|
  }

  lemma TruncatedCount(us: seq<Unit>)
    ensures Count(us, IsTruncated()) == |TruncatedAt(us)|
  {
    CountSize(us, IsTruncated());
    assert PositionsOf(us, IsTruncated()) == TruncatedAt(us);
  }

  /** The plan is exactly that. */
  lemma PlanExactly(cfg: Config, ledger: Ledger)
    ensures PlanIs(cfg, ledger, PlanUnits(cfg, ledger))
  {
    var p := PlanUnits(cfg, ledger);
    var at := FilterPositions(cfg.units, Stale(cfg, ledger));
    forall u
      ensures Stale(cfg, ledger)(u) <==> !DoneNow(cfg, ledger, u)
    {
    }
    assert NotDoneAt(cfg, ledger, at);
    TruncatedCount(p.pending);
    assert Cuts(cfg, at, p);
  }

  /** Without a limit, and with room for every unit, the run takes on exactly the units that are not done now, in order. */
  lemma UncappedTakesAll(cfg: Config, ledger: Ledger, p: Workload) returns (at: seq<nat>)
    requires PlanIs(cfg, ledger, p) && cfg.limit <= 0 && |cfg.units| <= cfg.maxUnits
    ensures NotDoneAt(cfg, ledger, at) && |p.pending| == |at| && p.deferred == 0
    ensures forall j :: 0 <= j < |at| ==> at[j] < |cfg.units| && p.pending[j] == cfg.units[at[j]]
  {
    at :| NotDoneAt(cfg, ledger, at) && Cuts(cfg, at, p);
    AscendingFits(at, |cfg.units|);
  }

  lemma UncappedTakes(cfg: Config, ledger: Ledger, p: Workload, u: Unit)
    requires PlanIs(cfg, ledger, p) && cfg.limit <= 0 && |cfg.units| <= cfg.maxUnits && u in cfg.units
    ensures DoneNow(cfg, ledger, u) || u in p.pending
  {
    hide DoneNow, PlanIs;
    var at := UncappedTakesAll(cfg, ledger, p);
    var i :| 0 <= i < |cfg.units| && cfg.units[i] == u;
    if !DoneNow(cfg, ledger, u) {
      assert i in at;
      var j :| 0 <= j < |at| && at[j] == i;
      assert p.pending[j] == u;
    }
  }

  /** Ascending positions below n are at most n. */
  lemma {:induction false} AscendingFits(at: seq<nat>, n: nat)
    requires forall k :: 0 <= k < |at| ==> at[k] < n
    requires forall j, k :: 0 <= j < k < |at| ==> at[j] < at[k]
    ensures |at| <= n
    decreases |at|
  {
    if at != [] { AscendingFits(Front(at), Last(at)); }
  }

  // -------------------------------------------------------------- stale units

  lemma {:induction false} AscendingSize(at: seq<nat>)
    requires forall j, k :: 0 <= j < k < |at| ==> at[j] < at[k]
    ensures |Members(at)| == |at|
    decreases |at|
  {
    if at != [] {
      AscendingSize(Front(at));
      assert at == Front(at) + [Last(at)];
      assert Members(at) == Members(Front(at)) + {Last(at)};
      assert Last(at) !in Members(Front(at));
    }
  }

  ghost function Members(at: seq<nat>): set<nat> {
    set x | x in at
  }

  /** The units a run finds stale are the ones that are not done now, however they are listed. */
  lemma StaleAre(cfg: Config, ledger: Ledger, at: seq<nat>)
    requires NotDoneAt(cfg, ledger, at)
    ensures |StaleUnits(cfg, ledger)| == |at|
    ensures at == [] <==> forall u :: u in cfg.units ==> DoneNow(cfg, ledger, u)
  {
    var other := StaleListing(cfg, ledger);
    SameSize(cfg, ledger, at, other);
    hide StaleUnits, DoneNow;
    if at != [] {
      assert cfg.units[at[0]] in cfg.units;
    }
    forall u | at == [] && u in cfg.units
      ensures DoneNow(cfg, ledger, u)
    {
      var i :| 0 <= i < |cfg.units| && cfg.units[i] == u;
    }
  }

  lemma StaleListing(cfg: Config, ledger: Ledger) returns (at: seq<nat>)
    ensures NotDoneAt(cfg, ledger, at) && |at| == |StaleUnits(cfg, ledger)|
  {
    at := FilterPositions(cfg.units, Stale(cfg, ledger));
    forall i | 0 <= i < |cfg.units|
      ensures Holding(cfg.units, Stale(cfg, ledger))(i) <==> !DoneNow(cfg, ledger, cfg.units[i])
    {
    }
    hide Filter, DoneNow, Stale, Holding;
  }

  lemma SameSize(cfg: Config, ledger: Ledger, a: seq<nat>, b: seq<nat>)
    requires NotDoneAt(cfg, ledger, a) && NotDoneAt(cfg, ledger, b)
    ensures |a| == |b|
  {
    hide DoneNow;
    AscendingSize(a);
    AscendingSize(b);
    forall i
      ensures i in Members(a) <==> i in Members(b)
    {
    }
    assert Members(a) == Members(b);
  }

  lemma SomeStale(cfg: Config, ledger: Ledger) returns (at: seq<nat>)
    ensures NotDoneAt(cfg, ledger, at)
  {
    PlanExactly(cfg, ledger);
    var found :| NotDoneAt(cfg, ledger, found) && Cuts(cfg, found, PlanUnits(cfg, ledger));
    at := found;
  }
}

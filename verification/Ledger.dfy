/** The resume ledger: what pending and finishing a unit do to its row. */
module Ledger {
  import opened Basics
  import opened Units
  import opened Validation
  import opened Tables
  import opened Loader

  datatype Status = Pending | Done | Failed

  /** records is none for the empty object a failed unit is finished with. */
  datatype LedgerRow = LedgerRow(
    documentId: int, model: string, status: Status, inputHash: string, attempts: nat,
    lastError: Option<string>, records: Option<Counts>, dropped: seq<Drop>, runId: int)

  /** Rows are unique per unit key and prompt version. */
  datatype LedgerKey = LedgerKey(unitKey: string, version: string)

  type Ledger = map<LedgerKey, LedgerRow>

  /** What every pend of one run writes besides the unit's own hash. */
  datatype RunId = RunId(version: string, model: string, id: int)

  function KeyOf(run: RunId, u: Unit): LedgerKey {
    LedgerKey(u.unitKey, run.version)
  }

  /** The row pend writes: an existing row keeps its document, attempts, records and drops. */
  function PendRow(l: Ledger, run: RunId, u: Unit, hash: string): LedgerRow {
    if KeyOf(run, u) in l then
      l[KeyOf(run, u)].(model := run.model, status := Pending, inputHash := hash, runId := run.id, lastError := None)
    else
      LedgerRow(u.documentId, run.model, Pending, hash, 0, None, None, [], run.id)
  }

  function Pend(l: Ledger, run: RunId, u: Unit, hash: string): Ledger {
    l[KeyOf(run, u) := PendRow(l, run, u, hash)]
  }

  /** How a unit ended. */
  datatype Ending = Ending(status: Status, records: Option<Counts>, dropped: seq<Drop>, error: string)

  /** Finishing updates the row when there is one. */
  function Finish(l: Ledger, run: RunId, u: Unit, e: Ending): Ledger {
    var k := KeyOf(run, u);
    if k !in l then l else
    l[k := l[k].(status := e.status, attempts := l[k].attempts + 1, lastError := Nullable(e.error),
                 records := e.records, dropped := e.dropped)]
  }

  // Rows of different units are independent.

  lemma PendsCommute(l: Ledger, run: RunId, u: Unit, h: string, w: Unit, g: string)
    requires u.unitKey != w.unitKey
    ensures Pend(Pend(l, run, u, h), run, w, g) == Pend(Pend(l, run, w, g), run, u, h)
  {
  }

  lemma FinishCommutes(l: Ledger, run: RunId, u: Unit, h: string, w: Unit, e: Ending)
    requires u.unitKey != w.unitKey
    ensures Finish(Pend(l, run, u, h), run, w, e) == Pend(Finish(l, run, w, e), run, u, h)
  {
  }
}

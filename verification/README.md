# Extraction pipeline: a verified model

The pipeline turns ingested documents into a knowledge graph. A runner sends each
document to a language model from a pool of workers, checks every answer against the
unit's citation surface, and commits one unit per transaction into PostgreSQL, with a
ledger that lets a later run resume. This project models that pipeline and proves what
it promises, for every model answer, interleaving, cancellation, database failure and
crash point.

## How the model is organised

* **Validation.** `Validation` states, record by record, what is kept and what is logged
  as dropped. `ValidationLoops` is the code's own form: loops over mutable collections
  that append, patch links in place and remember seen keys, each proved equal to that
  statement. `ValidationTheorems` and `DropConservation` prove the exact keep-sets and
  that no record vanishes unlogged; `ValidationExact`, `DropsExact` and `DropsCounted` say
  of the payload, the unit and the graph's ids alone what is kept, field by field, what is
  logged, and how often.
* **Store.** `Tables` is the constrained database: primary and foreign keys, CHECKs,
  ON CONFLICT clauses. `Loader` issues the load statement by statement against mutable
  tables, and `LoadPlan` names those statements column by column. `Loadable` and
  `LoadsExactly` prove exactly which payloads load, `Integrity` that the integrity checks
  stay empty, `LoadContents` and `LoadTheorems` what a load stores, that it stores nothing
  else, and what it never touches.
* **Runner.** `Runner` is the concurrent protocol as a state machine: one label per
  atomic step of the main goroutine, of a worker, or of the environment. The other
  `Runner` modules, `Planning` and `SmoothRuns` prove its invariants over every run; the central one is
  `RefinesSequential`, which reduces every concurrent run to handling its outcomes one
  after another, so that the store theorems need no reasoning about interleavings.
  `RunnerLoop` and `RunnerExecution` are the imperative run, with its loops, retry loop,
  channels, transaction and shutdown, proved to follow the state machine to its end.
* **Algorithms.** `Llm` (rate gate, retry delays, cost), `Completion` (retry loop),
  `Candidates` and `CandidatesExact` (top-k selection), `Slug` and `SlugWords`, `Adapter`
  (unit building), `JsonBlock` (fence stripping), `SortedKeys`.

Uninterpreted: the input digest is a function of exactly the fields that are hashed, the
JSON decoder is a function of the response text, the tokenizer and Unicode tables are
parameters, and a model call, a database failure and a scheduling decision are arbitrary.

## What the proofs found

* A kept event that names itself as cause or consequence passes every drop rule and then
  fails the store's CHECK, which aborts the run (`SelfLinkAborts`). An empty participant
  key resolves as "no reference", is kept, and breaks a foreign key
  (`EmptyParticipantAborts`). With the unit's sources and relation types registered, these
  two are the only ways a parsed payload can break a modelled constraint
  (`LoadsExactly`), and with failing database calls the only causes of an aborted run
  (`AbortsExactly`).
* The comment at `extract/extract.go:108-110` says any change of the citation surface
  gives a new input hash. The reference citation belongs to the surface and is not
  hashed, nor is the citation policy (`ReferenceChangeKeepsHash`, `InputOfExact`).
* `JSONBlock` loses an object of more than one line when its fence is bare: the object's
  first line is taken for the tag (`BareFenceLosesObject`). The same happens when the tag
  is nothing but backticks that complete a fence with the backticks the prose before it
  ends in (`TagTakenForFence`). In every other case fencing is undone (`FencedRoundTrip`).
* Two different titles with the same words, such as `a-b` and `a--b`, share a unit key,
  and so does a title without words with `untitled` (`TitlesCollide`, `SlugsCollide`,
  `KeysDistinctExactly`). The runner theorems take distinct unit keys as their
  precondition.
* `claim_versions` is written with DO UPDATE, but no pre-existing row is ever changed: the
  clause can only fire on a label repeated inside one new claim (`FirstWriteWins`).
* After a cancellation the database calls receive the cancelled context. The model lets
  any transaction fail, so such a run may end aborted rather than deferred; the theorems
  cover both.

## Model

| member | source | states |
|---|---|---|
| Units.InputOfExact | extract/extract.go:111-134 | two units share their hash input exactly when document, title, text and the hashed candidate fields agree |
| Units.ReferenceChangeKeepsHash | extract/extract.go:108-134 | a change of the reference citation leaves the hash unchanged, against the comment |
| Wire.CitationsProblem | extract/wire.go:235-243 | reports a problem exactly when some citation has no source id |
| Wire.Salvage | extract/wire.go:248-273 | the salvage loop yields the passing records and one problem per other element |
| Wire.SalvageConserves | extract/wire.go:248-273 | every element becomes one item or one problem; items are exactly the elements that decode and pass |
| Wire.CompleteExactly | extract/wire.go:171-243 | a record draws no complaint exactly when its required fields are there and, for a claim, its confidence is one of the four known ones |
| Wire.SalvagePayload | extract/wire.go:155-162 | each list gives its complete elements in order, and for each other element, in list order, one problem with its list, its index and the decoder's complaint or the first thing missing |
| Wire.ParsedIsRequired | extract/wire.go:144-163 | whatever the model answers, a parsed payload satisfies every required-field check |
| SortedKeys.SortedUnique | extract/validate.go:507-518 | a set of keys has only one ascending order |
| SortedKeys.InsertionSort | extract/validate.go:507-518 | the in-place sort leaves an ascending permutation |
| SortedKeys.KeysInOrder | extract/validate.go:507-518 | map keys come back each once, ascending |
| SortedKeys.LessExact | extract/validate.go:507-518 | the order is that of the first difference, a prefix coming first |
| ValidationTheorems.CiteableExact | extract/validate.go:142-170 | the accumulated surface allows exactly the reference and candidate sources, each with the union of its locator keys |
| ValidationTheorems.CitationOkExact | extract/validate.go:172-198 | a citation survives exactly when its source is on the surface and it carries every required key |
| ValidationTheorems.CiteOrDrop | extract/validate.go:200-220 | the citation contract is met exactly when valid citations cover what the policy demands |
| ValidationLoops.CiteableSources | extract/validate.go:142-170 | the loop builds the surface |
| ValidationLoops.FilterCitations | extract/validate.go:172-198 | keeps the valid citations in order and logs every other one |
| ValidationLoops.CitationReason | extract/validate.go:200-220 | names the first unmet part of the contract, or none |
| ValidationLoops.ExamineEvent | extract/validate.go:285-326 | one event: kept with resolved participants and location, or dropped with its reason |
| ValidationLoops.ExamineClaim | extract/validate.go:363-437 | one claim: kept with its surviving versions, or dropped with its reason |
| ValidationLoops.ExamineRelationship | extract/validate.go:446-484 | one edge: alias-normalised and kept, or dropped with its reason |
| ValidationLoops.JoinedInjective | extract/validate.go:471-476 | the NUL-joined edge key determines the triple when ids hold no NUL |
| ValidationLoops.Collector.MapEntities | extract/validate.go:243-279 | appends the first slug-named entity of each id and logs the rest |
| ValidationLoops.Collector.MapEvents | extract/validate.go:281-357 | appends the kept events, then patches their links in place against the survivors |
| ValidationLoops.Collector.PatchLinks | extract/validate.go:330-356 | links outside the surviving and known events are removed and logged |
| ValidationLoops.Collector.MapClaims | extract/validate.go:359-440 | appends the kept claims and registers each contested one |
| ValidationLoops.Collector.MapRelationships | extract/validate.go:442-484 | appends each distinct normalised edge once |
| ValidationLoops.Run | extract/validate.go:488-496 | the four maps together keep, record by record and field by field, what the payload, the unit and the graph's ids determine, and a drop is logged exactly when some record gives cause for it |
| ValidationExact.ValidatesExactly | extract/validate.go:224-496 | every kept record with all its fields, in both directions: a reference resolves exactly when it is empty, the id of a kept entity of the payload or in the graph; edges are normalised through the aliases; links reach only surviving or known events |
| DropsExact.DropsExactly | extract/validate.go:243-496 | the drop log holds exactly the drops the payload's records call for, each with kind, reference and reason |
| DropsCounted.DropsCountedExactly | extract/validate.go:243-496 | the log has one entry for each cause among the payload's records, so no cause is logged twice |
| ValidationTheorems.EntityKeepSet | extract/validate.go:243-279 | kept entities are exactly the first slug-named record of each id, in order |
| ValidationTheorems.NamesExact | extract/validate.go:254-267 | an entity's kept names are distinct and exactly its wire names that are neither empty nor canonical |
| ValidationTheorems.EventKeepSet | extract/validate.go:281-328 | kept events are exactly the first passing record of each id, in order |
| ValidationTheorems.ClaimKeepSet | extract/validate.go:359-440 | kept claims are exactly the first passing record of each id, in order |
| ValidationTheorems.EdgeKeepSet | extract/validate.go:442-484 | kept edges are pairwise distinct and exactly the normalised triples of passing wire edges at their first occurrence |
| DropConservation.EventDropsOnce | extract/validate.go:285-326 | a rejected event logs exactly one event drop, a kept one none |
| DropConservation.ClaimDropsOnce | extract/validate.go:363-437 | a rejected claim logs exactly one claim drop, a kept one none |
| DropConservation.EdgeDropsOnce | extract/validate.go:446-484 | relationship drops of an edge: one if rejected, plus one if kept without its justification |
| DropConservation.RecordsConserved | extract/validate.go:488-496 | per kind, kept records plus drops of that kind equal the wire records |
| DropConservation.UnitBalances | extract/runner.go:114-122 | kept plus counted drops equal the wire's claims, events and edges plus one per unjustified edge |
| Tables.ExecSound | internal/migrations/0003_knowledge_graph.up.sql:12-163 | every statement keeps all constraints of the tables it writes |
| Tables.ExecGrows | extract/loader.go:25-186 | no statement removes or changes a row except a version's statement |
| Tables.ExecRefs | extract/loader.go:25-186 | after a statement exactly the old rows and the one it names can be referenced |
| Tables.ClosedSucceeds | internal/migrations/0003_knowledge_graph.up.sql:12-163 | a batch whose references are stored or given earlier in it breaks no constraint |
| Tables.RowOrigin | extract/loader.go:25-186 | a row that a batch adds to a table without updates is the row of one of its statements |
| Loader.Transaction.LoadClaim | extract/loader.go:118-157 | a claim, its versions and its citations pinned to the ids the versions got |
| Loader.Transaction.LoadRecords | extract/loader.go:25-186 | the ordered loops over mutable tables run exactly the planned statements and stop at the first violation |
| LoadPlan.PlannedExactly | extract/loader.go:25-186 | the statements issued are exactly those the records call for, column by column: a cause points at the event, the event at a consequence, empty texts become NULL |
| Loadable.FittingLoads | extract/loader.go:25-186 | records that reference only each other and stored rows load |
| LoadsExactly.LoadsExactly | extract/loader.go:25-186 | with sources and relation types registered, a parsed payload loads if and only if no kept event links to itself or has an empty participant key |
| LoadTheorems.SelfLinkAborts | extract/validate.go:330-356 | a payload whose event causes itself is kept and then rejected by the store |
| LoadTheorems.EmptyParticipantAborts | extract/validate.go:233-241 | an empty participant key is kept and then rejected by the store |
| Integrity.ValidatedWellCited | extract/validate.go:281-440 | every kept claim, version and event has citations, and every contested claim a register entry |
| Integrity.LoadStaysClean | internal/integrity/integrity.go:61-160 | a load keeps every integrity check empty, uncited, dangling and unregistered rows alike |
| Integrity.LoadKeepsLocators | internal/integrity/integrity.go:77-97 | stored locators stay valid when the surface demands each source's required keys |
| LoadTheorems.FirstWriteWins | extract/loader.go:118-157 | a load changes no row that was there |
| LoadTheorems.SnapshotsAgree | extract/runner.go:486-494 | the id snapshots extended by the kept ids equal the new store's id sets |
| LoadTheorems.CountsAreGrowth | extract/runner.go:477-485 | the claims and events counted are the growth of their tables |
| LoadContents.LoadHolds | extract/loader.go:52-157 | after a load the store holds everything validated: each event's columns, roles, causal links in their direction and first citation per source; each claim's columns, citations, last statement per version and that version's own citations; a row for every entity, name, edge and register entry |
| LoadContents.LoadAddsOnly | extract/loader.go:25-235 | every row that was not there before is one the records call for, with those columns; in particular every new link is a cause or a consequence of a kept event |
| LoadContents.RowsHoldOn | extract/loader.go:52-157 | later commits leave all of that in place |
| LoadTheorems.PolicySurvivesStorage | extract/loader.go:189-235 | after citations collapse to one row per source, new events, claims and versions still meet the policy with full locators |
| Ledger.PendsCommute | extract/loader.go:258-274 | pending two different units commutes |
| Ledger.FinishCommutes | extract/loader.go:277-304 | finishing one unit commutes with pending another |
| RunnerOutcomes.CallUnitExact | extract/runner.go:380-413 | the retry loop uses replies up to the first parsed answer or overload, keeps every response, holds a payload exactly when the last one parsed, and repairs once per garbled answer with attempts left |
| RunnerPool.PoolAlways | extract/runner.go:284-358 | queued, worked-on, buffered and drained jobs always add up to the in-flight count, within the window |
| RunnerPool.SendsNeverBlock | extract/runner.go:282-358 | no channel send blocks and the drain takes exactly what is left |
| RunnerPool.NeverStuck | extract/runner.go:303-358 | some real step is possible in every reachable state before the end |
| RunnerPool.RunsEnd | extract/runner.go:303-375 | any schedule ends within 5p + c + 7 steps plus two per poll of a cancelled context |
| RunnerPool.ExactlyOnce | extract/runner.go:287-358 | each submitted unit yields exactly one outcome, taken from the channel once |
| RunnerRefinement.CommitWithLedger | extract/runner.go:417-502 | a unit's commit depends on the ledger only through its own row |
| RunnerRefinement.RefinesSequential | extract/runner.go:287-345 | every reachable state is the sequential handling of the received outcomes with the outstanding units pended |
| RunnerStore.StoreStaysClean | extract/runner.go:417-502 | every reachable store is clean, agrees with the in-memory snapshots, and keeps every old row |
| RunnerStore.LocatorsStayValid | internal/integrity/integrity.go:77-97 | every reachable store has valid locators when surfaces cover the required keys |
| RunnerStore.CleanAcrossSessions | extract/runner.go:152-193 | the same after any number of runs, each stopped anywhere |
| RunnerStore.LocatorsAcrossSessions | internal/integrity/integrity.go:77-97 | locators stay valid after any number of runs, each stopped anywhere |
| RunnerLoads.CommitFailsExactly | extract/runner.go:459-475 | in every reachable state an outcome in the channel breaks a constraint if and only if its payload offends the graph as it is then |
| RunnerLoads.AbortsExactly | extract/runner.go:319-344 | over a ready store a run is aborted if and only if a database call failed or it received an offending payload |
| RunnerLedger.DoneMeansLoaded | extract/runner.go:431-475 | in every reachable state a done row has one archived, parsed response whose validated records are in the store, events and claims with all their columns, links and citations, and it holds their counts and drops |
| RunnerLedger.DoneMeansLoadedAcrossSessions | extract/runner.go:431-475 | the same after any number of crashes and restarts |
| RunnerResume.RowPending | extract/loader.go:256-274 | a submitted unit without a committed outcome is pending under the digest of its input, and its row keeps document, attempts, records and drops |
| RunnerResume.RowReceived | extract/loader.go:276-304 | a committed unit is done or failed as its outcome parsed or not, finished once more than before, with its digest, error, this run's model and id |
| RunnerResume.DoneReopensOnlyOnDrift | extract/runner.go:240-248 | a done row is reopened only by resubmitting its unit under a different hash |
| RunnerResume.DoneNotResubmitted | extract/runner.go:240-248 | a unit with a done row of this version for its present digest is not submitted, however the graph snapshots changed |
| RunnerResume.DoneStaysDone | extract/runner.go:240-248 | once done, its row never changes again over unchanged inputs |
| RunnerProgress.SmoothLeavesTail | extract/runner.go:240-257 | a run that goes well leaves exactly the units past its cap |
| RunnerProgress.SmoothFinishesAll | extract/runner.go:240-257 | after an undisturbed, successful run with room for every unit, every unit's row is done for the digest of its present input |
| RunnerProgress.FinishesInExactly | extract/runner.go:250-257 | with n units lacking a done row for their present digest, every unit has one after r undisturbed, successful runs of limit k exactly when r is at least n / k rounded up |
| SmoothRuns.SmoothRunExists | extract/runner.go:303-375 | from any such start some schedule carries a run through |
| SmoothRuns.WorkCanFinish | extract/runner.go:250-257 | such runs exist: a ready store, no prices and an answer that parses are enough to finish in n / k runs, rounded up |
| RunnerCounts.UnitsConserved | extract/runner.go:238-365 | every unit is skipped, done, failed or deferred; an abort leaves out the unsubmitted units and at most the one being persisted |
| RunnerCounts.RecordsBalance | extract/runner.go:477-485 | counted claims and events are table growth; kept plus dropped equal the wire records plus unjustified edges |
| RunnerTallies.StatisticsMatchLedger | extract/runner.go:477-485 | record counts, drop count and drop log are those of the ledger rows the run finished |
| RunnerExact.PendExactly | extract/loader.go:256-274 | pending writes one row: the run's model and id and the unit's digest, and of an older row document, attempts, records and drops |
| RunnerExact.CommitExactly | extract/runner.go:428-494 | a commit writes the unit's row column by column and one archive row per response; of a parsed answer it loads what validation against the snapshots keeps, and adds each count, id and drop once |
| RunnerExact.MeterExactly | extract/runner.go:428-455 | a failed transaction still leaves all attempts and repairs, the usage of the responses it got to, and the salvage problems once every response is archived |
| RunnerExact.GateExactly | extract/runner.go:519-539 | a unit is held back exactly when a price is set and spend plus its foreseen cost, a token for every four characters and 4000 for the answer, exceeds the budget |
| RunnerExact.WindowAlwaysUsed | extract/runner.go:303-336 | main waits only with a full window, nothing left to submit, or a stop |
| RunnerExact.NoSubmitAfterHalt | extract/runner.go:303-345 | after a cancellation, a refused estimate or a failure no unit is submitted |
| RunnerCounts.DryRunWritesNothing | extract/runner.go:264-266 | a dry run leaves the store as it was |
| RunnerReport.ResponsesArchived | extract/runner.go:437-442 | every response of every committed outcome is archived once, in completion order, with its run, model, document, text and tokens |
| RunnerReport.ReportMatchesArchive | extract/runner.go:363-374 | a run without abort reports the tokens of exactly what it archived, their price per million if one is set, and the attempts, repairs and salvage problems of exactly what it received |
| RunnerBudget.BudgetBound | extract/runner.go:307-345 | spend never exceeds the budget by more than one unit's maximum per concurrent call |
| RunnerBudget.BudgetKept | extract/runner.go:519-539 | one call at a time with honest estimates never exceeds the budget |
| Planning.PlanExactly | extract/runner.go:236-262 | the plan is the units without a done row of this version for the digest of their present input, in order, cut to limit and cap; skipped, deferred and truncated units are counted |
| RunnerLoop.PlanRun | extract/runner.go:240-262 | takes on, in order and cut to limit and cap, exactly the units without a done row of this version for the digest of their present input, and counts the others |
| RunnerLoop.CallModel | extract/runner.go:380-413 | the retry loop over mutable state stops at the first overload or parsed answer and not before, within the attempts allowed |
| RunnerLoop.Bookkeeper.Transact | extract/runner.go:428-475 | the unit's transaction commits as specified or leaves books untouched, with the meter telling how far it got |
| RunnerLoop.Bookkeeper.CommitRecords | extract/runner.go:459-494 | validate, load, finish and count in one commit, or nothing |
| RunnerLoop.Bookkeeper.RecordDrops | extract/runner.go:114-122 | counts claim, event and relationship drops and logs every drop |
| RunnerExecution.Execution.FillWindow | extract/runner.go:307-333 | the fill loop takes only the machine's steps and ends waiting or shutting down |
| RunnerExecution.Execution.PersistOutcome | extract/runner.go:338-344 | receiving the oldest outcome is one receive step of the machine |
| RunnerExecution.Execution.CloseAndWait | extract/runner.go:346-347 | closing the jobs channel lets every worker finish |
| RunnerExecution.Execution.Execute | extract/runner.go:298-375 | the main loop, shutdown and drain always reach the end, step by step as the machine allows |
| RunnerExecution.RunExtraction | extract/runner.go:152-193 | a whole run ends in a reachable final state, keeps a clean store clean and accounts for every unit |
| Llm.RateGate.Throttle | internal/llm/llm.go:232-258 | claims the next slot of the schedule, the wait being the distance to it |
| Llm.SlotsAreSchedule | internal/llm/llm.go:232-258 | slots are spaced by the interval and never before the arrival |
| Llm.SlotsAreEarliest | internal/llm/llm.go:232-258 | no in-order schedule with that spacing serves any request sooner |
| Llm.SlotClosedForm | internal/llm/llm.go:232-258 | slot n is the maximum over j up to n of arrival j plus n - j intervals |
| Llm.WindowBound | internal/llm/llm.go:232-258 | a window of length L holds at most L / interval + 1 slots |
| Llm.NextDelayCaps | internal/llm/llm.go:294-300 | doubling is capped at a minute for every positive 64-bit delay, overflow included |
| Llm.DelayClosedForm | internal/llm/llm.go:160-182 | capped at a minute, the k-th retry delay is the first one times 2^k |
| Llm.PauseExact | internal/llm/llm.go:277-292 | a pause is the larger of the backed-off delay and the server's wish, at most a minute |
| Completion.Complete | internal/llm/llm.go:147-195 | at most five attempts: each before the last one busy and undisturbed; the last alone decides the result; pause i is the first delay doubled i times or the server's longer wish, at most a minute |
| Llm.CostIsSpend | internal/llm/llm.go:363-373 | the tracker's cost is the sum of its responses' costs |
| Candidates.SortStable | adapters/arda/arda.go:188-193 | orders all candidates by score descending, then index |
| Candidates.TopKExact | adapters/arda/arda.go:188-199 | the ranking is unique and its first k places hold exactly the candidates with fewer than k better ones |
| Candidates.SliceOverlaps | adapters/arda/arda.go:199-200 | the top slice has a positive score exactly when some candidate does |
| Candidates.Choose | adapters/arda/arda.go:195-213 | takes the top slice when any candidate overlaps and the first defaults exactly when none does |
| Candidates.SelectCandidates | adapters/arda/arda.go:173-239 | scores, ranks, cuts or falls back, and renders each eligible pick once, in order |
| Candidates.SelectionSound | adapters/arda/arda.go:215-238 | at most the configured number, within the tier cap, no source and title twice, no eligible pick missing |
| CandidatesExact.SelectsExactly | adapters/arda/arda.go:173-239 | the best candidates by shared terms, or the first defaults when none shares one; of those each citable source and title once, with its locator, title, period and summary and its source's id, tier and citation form |
| Slug.Slugify | adapters/arda/arda.go:300-324 | the one-pass builder joins the title's words by hyphens |
| SlugWords.SlugExactly | adapters/arda/arda.go:286-324 | the words are the maximal runs of a-z and 0-9 in the title stripped, lowercased and unaccented by the table; one hyphen joins neighbours; no words give "untitled" |
| Slug.SlugHasShape | adapters/arda/arda.go:300-324 | a slug has no leading, trailing or doubled hyphen and is a valid record id |
| Slug.SlugIdempotent | adapters/arda/arda.go:300-324 | slugging a slug changes nothing |
| Slug.SlugsCollide | adapters/arda/arda.go:300-324 | two titles slug alike exactly when they have the same words, no words counting as "untitled" |
| Slug.TitlesCollide | adapters/arda/arda.go:300-324 | two different titles with one slug |
| Adapter.BuildUnits | adapters/arda/arda.go:117-168 | one unit per document with its key, text, reference and candidates; none when the reference source is missing |
| Adapter.SurfaceFromManifest | adapters/arda/arda.go:215-238 | a source besides the reference is citable, and a key demanded of it, exactly when a configured candidate shown for the document has that source, and that key in its locator |
| Adapter.RebuildKeepsHashes | adapters/arda/arda.go:117-168 | rebuilding over a grown graph changes only the snapshots and no input hash |
| Adapter.KeysAreSlugs | adapters/arda/arda.go:153-153 | two documents share a unit key exactly when their titles have the same words, no words counting as "untitled" |
| Adapter.KeysDistinctExactly | adapters/arda/arda.go:144-167 | the unit keys of a run are distinct exactly when no two titles have the same words |
| JsonBlock.ExtractBlock | extract/wire.go:115-136 | strips, splits at each fence as early as it stands, takes the first inner piece that is not blank without its first line, or the whole text, and cuts from the first opening to the last closing brace |
| JsonBlock.FencedRoundTrip | extract/wire.go:115-136 | extraction undoes fencing if and only if something is left on the line of the tag or the object is one line |
| JsonBlock.BareFenceLosesObject | extract/wire.go:115-136 | a bare fence around an object of two lines loses it |
| JsonBlock.TagTakenForFence | extract/wire.go:115-136 | so does a tag that completes a fence with the prose before it |
| JsonBlock.ProseRoundTrip | extract/wire.go:130-135 | brace-free, fence-free prose around a fence-free object is stripped exactly |

## Left out

- HTTP transport, JSON encoding and decoding, SHA-256, prompt rendering, CLI, configuration, server, migrations tool and logging.
- How a response body is read and a status classified (internal/llm/llm.go:200-230, 302-349): both are parameters. To the runner a model call is an arbitrary reply.
- Rows of `pipeline_runs`, start and completion times, latencies: nothing else depends on them.
- Statement, provenance, verdict, flag and review tables, and the checks `orphan_claims`, `statements_without_provenance` and `duplicate_entity_names`: warnings, or tables the pipeline never writes.
- Failures of reading units, ledger or id sets before the run loop: the run ends with the store as it was.
- A commit whose acknowledgement is lost after it took effect: a transaction here either took effect or failed.
- Context cancellation inside database calls is one of the arbitrary transaction failures; that they must fail after a cancellation is not assumed.
- The rendering of drop reasons as text, and the text of parse problems beyond list, index and complaint.
- Byte lengths: `title[:120]`, the 4000-byte article prefix and the document cut-off count characters here.
- Floating point: prices and costs are exact reals, token counts unbounded integers.
- A negative unit cap (`MaxUnits`) and two units with one key in a single run.
- Runner steps are atomic: the main goroutine's code between two channel operations is one step, which is faithful because workers share nothing with it but the channels.
- RunnerExecution.Execution.Execute: the scheduler may let a cancelled context win the select only finitely often; the number is a parameter, not a bound of the program.
- LoadsExactly.LoadsExactly: PostgreSQL's refusal of NUL characters and of text cut inside a character, the foreign keys of `extraction_units`, and integer widths of counters are not modelled.
- RunnerLedger.DoneMeansLoaded: of an entity, a name, an edge or a register entry it promises a row under the key, not its columns: the first write wins, so the row may be older. What a load writes there is in LoadContents.LoadAddsOnly.
- Candidates.SelectCandidates: the tokenizer is a parameter, so what counts as a term is not stated.
- Loader.Transaction.LoadRecords: an error that is not a constraint violation is left to the runner's arbitrary failures.

# Observatorio SECOP: verified protocols

A Dafny model of the stateful protocols and the one data transformation that the observatory rests
on, and proofs of what they guarantee over every run: any inputs, any order of operator calls, any
failed write, and a process killed between any two writes. `dafny verify dfyconfig.toml` checks it.

## What is modelled

**Bounded acquisition campaign** (`Campaign*.dfy`). A ledger charges every physical attempt before
it is made, two lanes page through the source under ceilings and grants, and an independent replay
verifier recomputes everything from the durable log. `Campaign` is the manifest and its steps,
`CampaignVerifier` the replay, `CampaignSoundness` and `CampaignSource` what an accepted log means,
`CampaignWriter` and `CampaignSteps` what the writer keeps, `CampaignBudget` which budget stops it,
and `CampaignLedger`, `CampaignTransport` and `CampaignDriver` the classes that run it over a `World` of files and a
script of answers and write faults. The state in memory and the saved one are kept apart.

**Publications** (`Publication*.dfy`). `Publication` gives the registry and every request as a
function on values; `PublicationControl` runs each request as one transaction and is proved equal to
that function; `PublicationLifecycle`, `PublicationReaders` and `PublicationResults` prove the
invariant, the reader horizon and the activation history over any run; `PublicationEffects` says when
each request takes effect and what it leaves, field by field; `PublicationPipeline` is the
pinned pipeline stage with other operators' requests in between.

**Warehouse** (`Warehouse*.dfy`). Loading, restoring and adopting snapshots over the contract table,
the version audit, the activation history and the population tables, in the same way.
`WarehouseEffects` says when a load or an adoption takes effect and what it leaves.

**Bronze** (`Bronze*.dfy`). The two-lane extraction loop under a row cap with its saved page state,
the observation index, the prepare, commit and mark protocol with its recovery, and one whole
ingestion call over all of them (`BronzeIngestion`).

**Silver** (`Silver*.dfy`). Two-stage deduplication, the reading of Bronze runs, the
rejection-evidence producer against its validator and against what it is meant to say, and selection
over files written one after another.

`Text`, `Sets`, `PageNames`, `Wrappers` and `Durability` hold text order, set sizes, the names of page
files, optional values and the possible fates of a durable write.

## Conventions

A SHA-256 digest is the digested value itself, that is, digests are injective. A database
transaction, a lock and an atomic file replacement are single steps; a durable write may be lost or
land, and the caller may survive it, see an error or die. Clocks, the network and the disk are
scripts or nondeterministic readings; nothing is assumed about them except a database clock that
does not go back. A source that does not change is an explicit hypothesis of the completeness
results, and of the progress results beside them: that a call gets through when no write fails and every
request is answered.

## Results that differ from the expected claim

- *The campaign's own verifier can refuse the writer's progress.* Loading a baseline demands only
  non-empty identities (`population_plan.py:63-65`), while the acquisition snapshot demands text
  that is not only white space and has no NUL (`coverage.py:94`, `core.py:46-49`). A baseline with
  such an identity, say one with a NUL, makes every later resumption fail as soon as its batch has
  been answered. `AgreementExact` gives the exact condition, `UnusableBatchRefused` shows that every
  such batch does it, and `AgreementCanFail` is a concrete campaign.
- *A budget stop does not mean what its name says.* A page being retried is asked for whole, so a
  ceiling can end a campaign that still has rows for a smaller page (`EndedWithRowsLeft`); and the
  rows of a grant are checked before the attempts of the campaign, so a campaign can pause for a
  grant that can no longer be given (`PausedForGood`). `Require` gives the exact condition of either
  stop, and `Reconcile` that every stopped campaign is explained by its own figures.
- *A crash between creating a campaign directory and its first page state* (`storage.py:54-60`)
  leaves a name that no later campaign call can use, until an operator clears the staging area.
  `Reconcile` gives both exact conditions: when a first call strands the campaign, and that a record
  is unreadable just then. `StrandForGood` runs such a campaign through any list of later calls.
- *Counts of a recovered Bronze run.* A crash between the database commit and the final mark loses
  the commit's counts: recovery marks the run with the zeros its manifest started with. `Settle` and
  `ReconcilePrepared` give the exact condition, and `LoseCounts` is a crash that meets it.

## Model

| member | source | states |
|---|---|---|
| `CampaignVerifier.VerifyPopulationRun` | src/observatorio_secop/ingestion/population_plan.py:106-242 | the replay decides exactly the declared predicate `Accepts`: plan identity, page bounds, files, evidence, receipts, invocations, snapshot, ceilings and completeness flags |
| `CampaignVerifier.VerifyEvidence` | src/observatorio_secop/ingestion/population_plan.py:245-330 | decides exactly: baseline digest, page replay with one receipt per page, lane progress and counts equal to the fold over the pages, metadata as pinned |
| `CampaignVerifier.VerifyPageSequence` | src/observatorio_secop/ingestion/population_plan.py:253-307 | the page loop accepts exactly when every page extends the two-lane plan and has its one matching receipt, and then ends in the folded progress |
| `CampaignVerifier.VerifyPage` | src/observatorio_secop/ingestion/population_plan.py:258-307 | one page moves cursor, offset, returned ids and counts exactly as one step of the fold, or is refused |
| `CampaignVerifier.VerifyReservations` | src/observatorio_secop/ingestion/population_plan.py:152-192 | decides exactly: every reservation consistent, the data receipts are a permutation of 1..pages, one metadata response when verified |
| `CampaignVerifier.VerifyInvocations` | src/observatorio_secop/ingestion/population_plan.py:193-227 | decides exactly: numbered invocations, keys safe and distinct when named and absent otherwise, recorded usage recomputed and within each grant |
| `CampaignVerifier.VerifyPages` | src/observatorio_secop/ingestion/storage.py:83-94 | decides exactly that every page file exists, holds the hashed rows and the stated count |
| `CampaignVerifier.ReplayPrefix` | src/observatorio_secop/ingestion/population_plan.py:258-307 | a log whose pages replay has only prefixes that replay |
| `CampaignSoundness.ReplayMeaning` | src/observatorio_secop/ingestion/population_plan.py:253-307 | any replayed pages: two lanes in order, scan ids strictly increasing up to the cursor, members asked for in baseline order, counts as sums |
| `CampaignSoundness.AcceptedLanes` | src/observatorio_secop/ingestion/population_plan.py:264-322 | any accepted log, however produced: scan pages strictly before membership pages, increasing scan ids, a prefix of the baseline asked for, missing = asked and never returned, completion flags exact |
| `CampaignSoundness.ReceiptBijection` | src/observatorio_secop/ingestion/population_plan.py:152-192 | any accepted log has a bijection between its pages and its data-response receipts, agreeing in lane, rows and query |
| `CampaignSoundness.DataReceiptsNamePages` | src/observatorio_secop/ingestion/population_plan.py:178-187 | every data response of any log with settled receipts names an existing page |
| `CampaignSoundness.ChargesConserved` | src/observatorio_secop/ingestion/campaign.py:30-34 | any accepted log: charged rows = rows written + full capacity of every unanswered attempt, attempts = reservations, both within the ceilings |
| `CampaignSoundness.AttemptsOrdered` | src/observatorio_secop/ingestion/population_plan.py:152-176 | the attempts of any accepted log follow the order of their invocations under distinct ids, each charged within its capacity and in full while unanswered |
| `CampaignWriter.BooksConserveCharges` | src/observatorio_secop/ingestion/campaign.py:30-34 | at every state of the writer, saved or in memory, accepted or not: charged rows = rows written + full capacity of every unanswered attempt, attempts = reservations, both within the ceilings |
| `CampaignWriter.BooksPartitionCharges` | src/observatorio_secop/ingestion/population_plan.py:193-235 | at every state of the writer the invocations partition all charges, each within its own grant |
| `CampaignSoundness.GrantsPartitionCharges` | src/observatorio_secop/ingestion/population_plan.py:193-235 | the invocations partition all charges and together stay within what was granted |
| `CampaignSource.ScanCompleteness` | src/observatorio_secop/ingestion/reconcile.py:257-266 | against an unchanging source the scan pages are a prefix of the sorted in-scope ids, and all of them, each once, when the lane is complete |
| `CampaignSource.NextPage` | src/observatorio_secop/ingestion/population_plan.py:22-37 | the page asked for after the first k in-scope rows holds exactly the next ones, and is short only at the end |
| `CampaignSource.BatchFits` | src/observatorio_secop/ingestion/population_plan.py:40-48 | a membership query limited to its batch size is never cut short |
| `CampaignSource.MembershipCompleteness` | src/observatorio_secop/ingestion/reconcile.py:268-286 | against an unchanging source a completed membership lane reports missing exactly the members the source does not register |
| `Text.LessExact` | src/observatorio_secop/ingestion/population_plan.py:89-91 | identities are ordered by the first code point in which they differ, a proper prefix first |
| `CampaignSource.PageRowsExact` | src/observatorio_secop/ingestion/population_plan.py:78-103 | which answers a lane takes, row by row: conforming rows of the department with usable ids in strictly increasing order, past the cursor and signed in scope for the scan, asked for in the batch for the members |
| `CampaignSource.HonestScan` | src/observatorio_secop/ingestion/population_plan.py:78-103 | a scan page answered by an unchanging well-formed source is always taken |
| `CampaignSource.HonestMembers` | src/observatorio_secop/ingestion/population_plan.py:78-103 | so is a membership page |
| `CampaignSource.SelectAfter` | src/observatorio_secop/ingestion/population_plan.py:22-37 | the keyset predicate is the in-scope selection past the cursor |
| `CampaignWriter.AgreementExact` | src/observatorio_secop/ingestion/reconcile.py:98-130 | for every state the writer can save, the replay accepts it if and only if each baseline id asked for so far is usable text |
| `CampaignWriter.SettledAcquisition` | src/observatorio_secop/population/coverage.py:67-116 | the snapshot a saved manifest carries satisfies the acquisition rules exactly when the ids asked for are usable text |
| `CampaignWriter.RefreshedSettles` | src/observatorio_secop/ingestion/campaign.py:123-167 | saving in any state keeps the books and brings flags, last invocation and snapshot up to date |
| `CampaignWriter.StartedDurable` | src/observatorio_secop/ingestion/reconcile.py:191-230 | the first manifest of any plan is a state the agreement covers |
| `CampaignSteps.GrantedBooks` | src/observatorio_secop/ingestion/campaign.py:52-79 | a grant within the ceilings under a key of its own keeps the books |
| `CampaignSteps.ReservedBooks` | src/observatorio_secop/ingestion/campaign.py:101-117 | a reservation that the ledger allows keeps the books and raises the charged rows by exactly its capacity |
| `CampaignSteps.RespondedCharges` | src/observatorio_secop/ingestion/campaign.py:119-121 | a response releases exactly the unused part of its charge and stays within every grant |
| `CampaignSteps.MetadataTakenBooks` | src/observatorio_secop/ingestion/reconcile.py:242-255 | taking the metadata keeps the books and charges no rows |
| `CampaignSteps.ScanTakenBooks` | src/observatorio_secop/ingestion/reconcile.py:257-266 | taking a valid scan page keeps the books: replay, receipts, grants and lane progress |
| `CampaignSteps.MembersTakenBooks` | src/observatorio_secop/ingestion/reconcile.py:268-286 | taking a valid membership page keeps the books and updates offset, returned and missing ids as the replay computes them |
| `CampaignSteps.NextPageUnclaimed` | src/observatorio_secop/ingestion/reconcile.py:304-329 | no earlier response can already name the next page |
| `CampaignLedger.CampaignLedger.Grant` | src/observatorio_secop/ingestion/campaign.py:52-79 | granted exactly when all of it fits under both ceilings; then all of it can be spent, and no earlier grant, key or charge moves; an exhausted ceiling means that no grant at all fits |
| `CampaignLedger.CampaignLedger.Require` | src/observatorio_secop/ingestion/campaign.py:92-99 | passes exactly when the rows and one more attempt fit what both the ceilings and the last grant leave; a refusal is terminal exactly when the ceilings lack the rows, or have them as the grant does and lack the attempt; a terminal refusal of one row means that no later grant can fit |
| `CampaignBudget.RefusalExplained` | src/observatorio_secop/ingestion/campaign.py:92-99 | every refused request is explained by what it wanted against what ceilings and grant leave, in rows and attempts |
| `CampaignBudget.ScanRefused` | src/observatorio_secop/ingestion/reconcile.py:257-266 | a scan page that asks for what is left is never refused at its first attempt |
| `CampaignLedger.CampaignLedger.Reserve` | src/observatorio_secop/ingestion/campaign.py:101-117 | on success the attempt is charged in full and that charge is on disk before the attempt; otherwise nothing is charged or the write failed |
| `CampaignLedger.CampaignLedger.Response` | src/observatorio_secop/ingestion/campaign.py:119-121 | releases the rest of the last charge to the campaign and to the invocation that made it; every other invocation and all attempt counts stay |
| `CampaignLedger.CampaignLedger.Persist` | src/observatorio_secop/ingestion/campaign.py:123-128 | memory becomes the refreshed manifest, disk is either unchanged or equal to it, and only grows |
| `CampaignTransport.SocrataTransport.Fetch` | src/observatorio_secop/ingestion/transport.py:86-162 | an answer comes with its own saved charge; exactly the transient answers are retried, each attempt charged first, and a request fails for transient answers alone only after all its attempts; with nothing going wrong it is answered or out of budget |
| `CampaignTransport.SocrataTransport.Attempt` | src/observatorio_secop/ingestion/transport.py:96-140 | one attempt: charged and saved before it is sent, tried again exactly after a transient answer |
| `CampaignTransport.SocrataTransport.Query` | src/observatorio_secop/ingestion/transport.py:65-84 | rows beyond the limit never reach the caller; rows received are covered by the charge and counted; an unchanging source is always answered |
| `CampaignDriver.PopulationReconciliation.FetchMetadata` | src/observatorio_secop/ingestion/reconcile.py:242-255 | pins the metadata once, or leaves a live ledger and a record that only grew |
| `CampaignDriver.PopulationReconciliation.PinMetadata` | src/observatorio_secop/ingestion/reconcile.py:248-255 | stores the metadata before recording it, and records it with the answer of its own attempt |
| `CampaignDriver.PopulationReconciliation.WritePage` | src/observatorio_secop/ingestion/storage.py:62-66 | writing a page file endangers no page that a saved or live manifest names |
| `CampaignDriver.PopulationReconciliation.AskPage` | src/observatorio_secop/ingestion/reconcile.py:300-304 | one data request: rows that the lane does not take are an error and reach no page; what an honest source answers is taken |
| `CampaignDriver.PopulationReconciliation.TakePage` | src/observatorio_secop/ingestion/reconcile.py:288-329 | a taken page is valid for its lane, stored, and recorded with its receipt on the saved manifest before the attempt; a failure leaves a live ledger |
| `CampaignDriver.PopulationReconciliation.AskScan` | src/observatorio_secop/ingestion/reconcile.py:260-263 | a scan page asks past the cursor for as many rows as plan and budget leave, so at least one, and is refused only for a budget that its own figures explain |
| `CampaignDriver.PopulationReconciliation.ScanPage` | src/observatorio_secop/ingestion/reconcile.py:259-266 | one round of the scan: page, cursor, completion flag and receipt are recorded together and saved, and an attempt is used up |
| `CampaignDriver.PopulationReconciliation.Scan` | src/observatorio_secop/ingestion/reconcile.py:257-266 | ends with the lane complete or out of budget, failed or killed, always with a safe record that only grew; every round uses up an attempt; over an unchanging well-formed source with nothing going wrong, complete or out of budget |
| `CampaignDriver.PopulationReconciliation.AskMembers` | src/observatorio_secop/ingestion/reconcile.py:274-279 | a membership page asks for the next whole batch of the baseline, and is refused only for a budget that its own figures explain |
| `CampaignDriver.PopulationReconciliation.MemberBatch` | src/observatorio_secop/ingestion/reconcile.py:276-286 | one round of the members: offset, returned and missing ids are recorded with the page and saved, and an attempt is used up |
| `CampaignDriver.PopulationReconciliation.Members` | src/observatorio_secop/ingestion/reconcile.py:268-286 | the same for the membership lane |
| `CampaignDriver.PopulationReconciliation.Start` | src/observatorio_secop/ingestion/reconcile.py:191-230 | creates the campaign as planned, or leaves at most its directory, decided exactly by the fate of the two writes |
| `CampaignDriver.PopulationReconciliation.GrantOrResume` | src/observatorio_secop/ingestion/reconcile.py:151-160 | a matching named invocation keeps its original grant untouched; a new grant opens exactly one invocation under its key |
| `CampaignDriver.PopulationReconciliation.Open` | src/observatorio_secop/ingestion/reconcile.py:99-105 | the grant is saved before any request; a grant that is affordable is given, or a ceiling ends the campaign |
| `CampaignDriver.PopulationReconciliation.RunLanes` | src/observatorio_secop/ingestion/reconcile.py:109-111 | metadata, scan and members in that order, each ended or stopped by a budget that its own figures explain |
| `CampaignDriver.PopulationReconciliation.Acquire` | src/observatorio_secop/ingestion/reconcile.py:99-114 | one call of work under the ledger: with nothing going wrong, an affordable grant and a usable baseline over an unchanging well-formed source it ends published or out of budget |
| `CampaignDriver.PopulationReconciliation.Seal` | src/observatorio_secop/ingestion/reconcile.py:331-336 | the ending is recorded and replayed before anything moves; with a usable baseline the replay and the file check always accept |
| `CampaignDriver.PopulationReconciliation.Publish` | src/observatorio_secop/ingestion/storage.py:96-112 | before the rename nothing has moved, after it exactly the prepared record is published |
| `CampaignDriver.PopulationReconciliation.Finish` | src/observatorio_secop/ingestion/reconcile.py:331-347 | publishes only what the replay accepts; staging goes exactly when the published record is in place |
| `CampaignDriver.PopulationReconciliation.Commit` | src/observatorio_secop/ingestion/reconcile.py:338-347 | committing and marking keep the published record and may be repeated |
| `CampaignDriver.PopulationReconciliation.ReconcilePrepared` | src/observatorio_secop/ingestion/runner.py:104-138 | a prepared campaign run ends committed, or stays prepared and safe; nothing but its status moves |
| `CampaignDriver.PopulationReconciliation.StopOnBudget` | src/observatorio_secop/ingestion/reconcile.py:115-122 | a stop ends the campaign as truncated exactly if a ceiling is its reason and pauses it otherwise, and the record explains which in its own figures |
| `CampaignDriver.PopulationReconciliation.Conclude` | src/observatorio_secop/ingestion/reconcile.py:115-128 | a budget stop ends or pauses the campaign, an error is recorded as recoverable exactly if staging is still there, and only a fatal event means that the process died |
| `CampaignDriver.UsableAccepted` | src/observatorio_secop/ingestion/reconcile.py:331-336 | with a usable baseline every state that memory would save is accepted by the replay |
| `CampaignDriver.PopulationReconciliation.Continue` | src/observatorio_secop/ingestion/reconcile.py:90-130 | resumption: the exact refusals, no request sent by a refused call, the record only grows |
| `CampaignDriver.PopulationReconciliation.Reconcile` | src/observatorio_secop/ingestion/reconcile.py:34-130 | one whole call from any safe state: the record stays safe and only grows, evidence is refused if and only if an id asked for is unusable and never once published, the record is unreadable if and only if the campaign is stranded, a first call strands it if and only if its directory was made and its manifest was not, a paused campaign lacks only a grant, a truncated one was ended by a ceiling, by their own figures, and an acquired one by its plan, a repeated named call opens no invocation, and outcomes match the files; a call that meets no fault, over an unchanging well-formed source, with a usable baseline and an affordable grant, ends finished, paused or refused; it dies only of a fatal event |
| `CampaignDriver.StrandForGood` | src/observatorio_secop/ingestion/storage.py:54-60 | a campaign killed between its directory and its first manifest is refused by every sequence of later calls, whatever the disk and the source do |
| `CampaignResults.TrafficWithinCeilings` | src/observatorio_secop/ingestion/campaign.py:92-117 | physical attempts, and rows received within the limit of their request, stay within the campaign ceilings over any number of processes; an answer beyond its limit is dropped uncounted |
| `CampaignResults.AcquiredCoversSource` | src/observatorio_secop/ingestion/reconcile.py:331-347 | a campaign published as acquired from an unchanging source holds once, in order, every id of the department signed from the first day on and before the last, and reports missing exactly the asked ids of which the source has no row in the department |
| `CampaignResults.AcquiredLanes` | src/observatorio_secop/population/coverage.py:106-111 | an accepted acquired campaign has both lanes complete |
| `CampaignResults.EndedWithRowsLeft` | src/observatorio_secop/ingestion/campaign.py:95-99 | a ceiling can end a campaign with rows left: a page being retried is asked for whole |
| `CampaignResults.PausedForGood` | src/observatorio_secop/ingestion/campaign.py:95-99 | a campaign can pause although no grant can be given any more: rows of the grant are checked before attempts of the campaign |
| `CampaignResults.NamedKeyOnce` | src/observatorio_secop/ingestion/reconcile.py:132-149 | in every later state of a named campaign a key still names one invocation, its charges are within the grant it was given, and a call with it resumes exactly while it is the last one and its grant is unchanged; otherwise it is refused |
| `CampaignResults.AcceptedKeyOnce` | src/observatorio_secop/ingestion/population_plan.py:193-227 | the same of any accepted log, however produced |
| `CampaignResults.CompletedBaselineUsable` | src/observatorio_secop/population/coverage.py:94-97 | an accepted campaign with complete lanes had a baseline of usable ids only |
| `CampaignResults.UnusableBatchRefused` | src/observatorio_secop/ingestion/population_plan.py:63-65 | answering any batch with an unusable id leaves a saved manifest that the campaign's own replay refuses |
| `CampaignResults.AgreementCanFail` | src/observatorio_secop/ingestion/population_plan.py:228-229 | a concrete campaign over one id with a NUL that the writer saves and the replay refuses |
| `PublicationLifecycle.StepShape` | src/observatorio_secop/publication/lifecycle.py:39-227 | every operator request does nothing, adds one candidate, changes one candidate, activates, or prunes expired ids |
| `PublicationLifecycle.PrivateEditConsistent` | src/observatorio_secop/publication/store.py:227-342 | adding or changing one candidate keeps slots, pointer, history and pins |
| `PublicationLifecycle.PrivateStepConsistent` | src/observatorio_secop/publication/store.py:227-435 | reserve, update, register, fail, retry, seal and discard keep the registry invariant |
| `PublicationLifecycle.ActivationSlots` | src/observatorio_secop/publication/lifecycle.py:81-85 | activation moves a candidate into retention without exceeding the slots |
| `PublicationLifecycle.ActivationPointer` | src/observatorio_secop/publication/lifecycle.py:108-125 | after an activation the pointer is retained and every other retained row has a limit a day past its deactivation |
| `PublicationLifecycle.ActivationHistory` | src/observatorio_secop/publication/lifecycle.py:126-148 | the activation log replays to the new pointer, and generation equals its length |
| `PublicationLifecycle.ActivationConsistent` | src/observatorio_secop/publication/lifecycle.py:93-148 | activation keeps the whole registry invariant |
| `PublicationLifecycle.CleanupConsistent` | src/observatorio_secop/publication/lifecycle.py:162-202 | pruning eligible publications keeps the whole registry invariant |
| `PublicationLifecycle.StepConsistent` | src/observatorio_secop/publication/lifecycle.py:39-227 | every request keeps: one candidate, at most three candidates and retained, protected pointer, replayable log, sealed receipts, pins that name a point of the history |
| `PublicationLifecycle.RunConsistent` | src/observatorio_secop/publication/store.py:227-435 | every registry reachable from an empty one satisfies that invariant |
| `PublicationReaders.StepHolds` | src/observatorio_secop/publication/lifecycle.py:108-125 | no request before a reader's deadline can end the protection the reader relies on |
| `PublicationReaders.RunHolds` | src/observatorio_secop/publication/lifecycle.py:162-202 | the same over any interleaving of requests |
| `PublicationReaders.StepKeepsContents` | src/observatorio_secop/publication/store.py:349-435 | sealed metadata, build time and receipt never change |
| `PublicationReaders.ReaderHorizon` | src/observatorio_secop/publication/readers.py:89-150 | a resolved descriptor validates unchanged at a later instant if and only if its hour lasts, under every interleaving of requests |
| `PublicationReaders.LatestResolves` | src/observatorio_secop/publication/readers.py:64-109 | the latest publication resolves exactly when something was ever activated, and is the last in the log |
| `PublicationResults.ActivationHasRoom` | src/observatorio_secop/publication/lifecycle.py:84-85 | the capacity refusal at activation is unreachable |
| `PublicationResults.ReservationCapacity` | src/observatorio_secop/publication/store.py:245-259 | a new candidate is refused for capacity exactly when three publications are retained |
| `PublicationResults.SealedReceiptCovers` | src/observatorio_secop/publication/store.py:484-513 | a sealed receipt reports every pinned node exactly once, with the successful status of its kind, and requires nothing else |
| `PublicationResults.StepLog` | src/observatorio_secop/publication/lifecycle.py:69-76 | only an activation that matches identity and generation extends the log, by one |
| `PublicationResults.GenerationGrows` | src/observatorio_secop/publication/lifecycle.py:126-132 | the generation never falls and grows with each activation |
| `PublicationResults.OncePerPin` | src/observatorio_secop/publication/lifecycle.py:73-76 | a pinned identity and generation admits at most one effective activation over any run, whoever sends it |
| `PublicationResults.LogRecordsActivations` | src/observatorio_secop/publication/lifecycle.py:139-148 | the log grows by exactly the activations that took effect |
| `PublicationResults.StepExpiry` | src/observatorio_secop/publication/lifecycle.py:118-125 | no request brings a retention limit forward |
| `PublicationResults.PrunedOnlyExpired` | src/observatorio_secop/publication/lifecycle.py:162-202 | a publication leaves retention only by cleanup, unprotected and a full day after its deactivation |
| `PublicationResults.StepExtends` | src/observatorio_secop/publication/store.py:269-306 | metadata keys, pins and pinned nodes once bound stay bound |
| `PublicationResults.RunExtends` | src/observatorio_secop/publication/store.py:269-306 | the same over any run |
| `PublicationEffects.NamesExact` | src/observatorio_secop/publication/models.py:38-50 | identities are 32 lower-case hexadecimal digits and failure codes up to 80 capitals, digits and underscores after a letter |
| `PublicationEffects.LastSegmentExact` | src/observatorio_secop/publication/store.py:502-502 | the relation of a model node is what follows its last dot |
| `PublicationEffects.ReserveExact` | src/observatorio_secop/publication/store.py:227-267 | a new identity is reserved exactly when no candidate exists and fewer than three are retained, pinned to what is active; a repeat is answered exactly for an open candidate with the same metadata |
| `PublicationEffects.UpdateExact` | src/observatorio_secop/publication/store.py:269-284 | metadata is merged exactly while the candidate is open and no key changes: every given key has the given value and every other stays |
| `PublicationEffects.RegisterExact` | src/observatorio_secop/publication/store.py:286-306 | the node inventory is pinned once, as a multiset, and only on an open candidate |
| `PublicationEffects.FailExact` | src/observatorio_secop/publication/store.py:308-320 | a failure is recorded exactly on an open candidate, and any other publication is left alone |
| `PublicationEffects.RetryExact` | src/observatorio_secop/publication/store.py:322-342 | an open candidate that no build owns is reopened, and nothing else |
| `PublicationEffects.ReceiptExact` | src/observatorio_secop/publication/store.py:484-513 | a receipt is valid exactly when it names its publication and metadata, the pinned nodes, and one success per model and one pass per test, with every published relation among the models |
| `PublicationEffects.SealExact` | src/observatorio_secop/publication/store.py:344-435 | an open candidate is sealed exactly with a valid receipt of the very tables that were built, unowned and without dependants; an equal repeat is answered |
| `PublicationEffects.DiscardExact` | src/observatorio_secop/publication/lifecycle.py:205-227 | a publication is discarded exactly if never activated, unpruned, unowned and without dependants |
| `PublicationEffects.ActivateExact` | src/observatorio_secop/publication/lifecycle.py:39-159 | in a reachable registry an activation takes effect exactly when the caller names what is active, the target is sealed or, for a restoration, retained, and contents, views and dependants allow it |
| `PublicationEffects.ActivationEffect` | src/observatorio_secop/publication/lifecycle.py:103-159 | what it leaves in every row: the pointer moves by one, the old active gets its deactivation, and each publication left unprotected keeps at least a full day |
| `PublicationEffects.CleanupExact` | src/observatorio_secop/publication/lifecycle.py:162-202 | a cleanup succeeds exactly when every named publication is retained, past its limit and unprotected; then all of them are pruned, otherwise none |
| `PublicationEffects.ResolveExact` | src/observatorio_secop/publication/readers.py:64-109 | a selected identity is described exactly when it was activated, is retained and stays readable for an hour; the descriptor is of that very row |
| `PublicationEffects.LatestExact` | src/observatorio_secop/publication/readers.py:64-109 | without a selection the active publication is described, exactly when there is one |
| `PublicationEffects.ValidateExact` | src/observatorio_secop/publication/readers.py:124-155 | a descriptor is accepted exactly within its hour, of a retained publication, and unchanged from its row |
| `PublicationControl.PublicationStore.ReserveCandidate` | src/observatorio_secop/publication/store.py:227-267 | the transaction leaves registry and reply exactly as the request specifies, and keeps invariant and issued descriptors |
| `PublicationControl.PublicationStore.UpdateCandidate` | src/observatorio_secop/publication/store.py:269-284 | the same for metadata updates |
| `PublicationControl.PublicationStore.RegisterExpectedNodes` | src/observatorio_secop/publication/store.py:286-306 | the same for pinning the node inventory |
| `PublicationControl.PublicationStore.MarkCandidateFailed` | src/observatorio_secop/publication/store.py:308-320 | the same for failures |
| `PublicationControl.PublicationStore.RetryCandidate` | src/observatorio_secop/publication/store.py:322-342 | the same for retries |
| `PublicationControl.PublicationStore.SealCandidate` | src/observatorio_secop/publication/store.py:344-435 | the same for sealing |
| `PublicationControl.PublicationStore.Promote` | src/observatorio_secop/publication/lifecycle.py:107-148 | the statements of an activation, one after another, give exactly the specified rows, pointer and event |
| `PublicationControl.PublicationStore.ActivatePublication` | src/observatorio_secop/publication/lifecycle.py:39-159 | checks in order, then all of the activation or none of it |
| `PublicationControl.PublicationStore.CleanupPublications` | src/observatorio_secop/publication/lifecycle.py:180-202 | prunes exactly the selected ids, or nothing |
| `PublicationControl.PublicationStore.DiscardCandidate` | src/observatorio_secop/publication/lifecycle.py:205-227 | discards a private candidate only |
| `PublicationControl.PublicationStore.PerformAll` | src/observatorio_secop/publication/store.py:49-71 | requests of several operators run as a sequence of whole transactions with a clock that does not go back |
| `PublicationControl.PublicationStore.ResolveDescriptor` | src/observatorio_secop/publication/readers.py:89-109 | hands out the specified descriptor and remembers it |
| `PublicationControl.PublicationStore.ValidateDescriptor` | src/observatorio_secop/publication/readers.py:124-155 | every descriptor ever handed out is accepted if and only if its hour lasts |
| `PublicationPipeline.CandidateStage` | src/observatorio_secop/orchestration/publication.py:15-59 | goes on only with a candidate pinned to the execution's own active publication and Silver snapshot |
| `PublicationPipeline.ActivateStage` | src/observatorio_secop/orchestration/publication.py:62-72 | refuses a malformed or unknown publication without a request; reports superseded only when it was activated before and is not active; otherwise sends its own pinned activation, and success means it is active |
| `PublicationPipeline.ExecutionActivatesOnce` | src/observatorio_secop/orchestration/publication.py:62-72 | retries of one execution add at most one activation event, whatever others do in between |
| `WarehouseSync.UpsertedMeaning` | src/observatorio_secop/warehouse/loader.py:229-250 | when no stored row equals its incoming one, the conditional upsert writes every incoming row with its manifest and time |
| `WarehouseSync.LoadedTable` | src/observatorio_secop/warehouse/loader.py:221-250 | delete and upsert then leave exactly the incoming snapshot |
| `WarehouseSync.NoRowSkipped` | src/observatorio_secop/warehouse/loader.py:199-209 | the upsert never skips a row: equal columns would mean the same version, hence the same snapshot |
| `WarehouseSync.CountsAddUp` | src/observatorio_secop/warehouse/loader.py:199-227 | old size + inserted - deleted = new size, inserted + updated = new size, and nothing is deleted exactly when membership is kept |
| `WarehouseSync.SynchronisedTable` | src/observatorio_secop/warehouse/loader.py:199-250 | a guarded load leaves the table equal to the incoming snapshot with true counts |
| `WarehouseSync.LegacyWhole` | src/observatorio_secop/warehouse/activation.py:136-160 | one origin and an audited row count make an older table the whole snapshot it names |
| `WarehouseSync.EnsureConsistent` | src/observatorio_secop/warehouse/activation.py:45-160 | reading or starting the activation history keeps the invariant; once installed it cannot fail |
| `WarehouseSync.SynchronisedConsistent` | src/observatorio_secop/warehouse/loader.py:251-278 | recording audit and activation keeps the invariant, including first activations being unique per version |
| `WarehouseSync.BoundConsistent` | src/observatorio_secop/warehouse/population.py:126-184 | binding the scope of a first candidate keeps the invariant |
| `WarehouseSync.LoadConsistent` | src/observatorio_secop/warehouse/loader.py:124-286 | every load or restoration, applied, unchanged or refused, keeps the table equal to the active snapshot |
| `WarehouseSync.AdoptConsistent` | src/observatorio_secop/warehouse/population.py:241-288 | so does every adoption |
| `WarehouseSync.RunConsistent` | src/observatorio_secop/warehouse/loader.py:124-286 | so does every run of requests |
| `WarehouseResults.AppliedLoad` | src/observatorio_secop/warehouse/loader.py:199-286 | an applied load leaves exactly its bundle active and in the table, and its counts are those of the tables |
| `WarehouseResults.OnlyRestoresDelete` | src/observatorio_secop/warehouse/population.py:166-175 | a request that is not an explicit restoration removes no contract |
| `WarehouseResults.MembershipGrows` | src/observatorio_secop/warehouse/population.py:166-175 | membership grows along any chain without restorations |
| `WarehouseResults.RestorationExact` | src/observatorio_secop/warehouse/loader.py:140-167 | restoring a snapshot after any chain of requests gives the very table of its first load |
| `WarehouseResults.RestoreApplies` | src/observatorio_secop/warehouse/population.py:85-193 | a restoration of a registered snapshot applies if and only if the caller names the current one and an uncovered snapshot in a bound workspace was adopted |
| `WarehouseEffects.CandidateApplies` | src/observatorio_secop/warehouse/population.py:126-184 | a new candidate applies exactly when it is complete, built on the active snapshot, in a scope the workspace can have, and keeps every stored contract; it may add any others |
| `WarehouseEffects.LoadRecords` | src/observatorio_secop/warehouse/loader.py:251-278 | the event, pointer, audit row, scope, evidence and counts that an applied load leaves |
| `WarehouseEffects.LoadUnchanged` | src/observatorio_secop/warehouse/loader.py:165-167 | loading the active snapshot again changes no table but its registration, and is refused exactly for an unadopted legacy snapshot in a bound workspace |
| `WarehouseEffects.AdoptExact` | src/observatorio_secop/warehouse/population.py:241-288 | an adoption takes effect exactly for the active snapshot, with its keys, inside the scope, and against no other scope or record; it then binds, records and registers, and changes nothing else |
| `WarehouseEffects.LegacyExact` | src/observatorio_secop/warehouse/activation.py:136-160 | an older table is taken over exactly when all rows name one snapshot and its audit has the same manifest, time and size |
| `WarehouseSync.GuardBinds` | src/observatorio_secop/warehouse/population.py:126-184 | a population load that passes its guard is authoritative and binds the workspace to its scope; whatever passes the guard of a bound workspace lies in its scope |
| `WarehouseResults.ActiveMembersInScope` | src/observatorio_secop/warehouse/population.py:176-179 | once a scope is bound, by a first candidate or by adopting a legacy snapshot, every contract in the table lies in it |
| `WarehouseResults.OneSuccessorPerParent` | src/observatorio_secop/warehouse/population.py:146-151 | of two candidates built on the same active snapshot, the second is refused once the first is applied |
| `WarehouseLoader.EnsureActivation` | src/observatorio_secop/warehouse/activation.py:45-160 | computes exactly the specified active snapshot, baseline or failure |
| `WarehouseLoader.CopyIncoming` | src/observatorio_secop/warehouse/loader.py:169-185 | the copied rows by key |
| `WarehouseLoader.Upsert` | src/observatorio_secop/warehouse/loader.py:236-250 | the row-by-row conditional upsert |
| `WarehouseLoader.Synchronise` | src/observatorio_secop/warehouse/loader.py:199-250 | counts taken before the changes, then delete and upsert |
| `WarehouseLoader.WarehouseLoader.LoadBundle` | src/observatorio_secop/warehouse/loader.py:40-76 | all-or-nothing load: the specified tables and reply, the invariant, exact table and counts, no deletion without restore |
| `WarehouseLoader.WarehouseLoader.RunLoad` | src/observatorio_secop/warehouse/loader.py:124-286 | the transaction body gives the specified tables and reply for any state of the tables |
| `WarehouseLoader.WarehouseLoader.AdoptBundle` | src/observatorio_secop/warehouse/loader.py:78-122 | all-or-nothing adoption with the specified tables and reply |
| `WarehouseLoader.WarehouseLoader.RunAdopt` | src/observatorio_secop/warehouse/population.py:241-288 | the adoption body for any state of the tables |
| `BronzeLanes.KeysetIsCursorOrder` | src/observatorio_secop/ingestion/query.py:39-47 | the keyset predicates the queries spell out are the order of the cursors |
| `BronzeLanes.ProgressSorts` | src/observatorio_secop/ingestion/runner.py:294-302 | row-by-row progress makes a page strictly sorted |
| `BronzeLanes.ValidPageExact` | src/observatorio_secop/ingestion/runner.py:294-302 | a page is accepted exactly when every row conforms, has its identity and the date of its lane, and comes after the one before it, the first one after the cursor |
| `BronzeLanes.HonestAccepted` | src/observatorio_secop/ingestion/runner.py:213-229 | what a well-formed source that does not change answers next is always accepted |
| `BronzeLanes.WithinCap` | src/observatorio_secop/ingestion/runner.py:199-201 | however often a run is resumed, rows received never exceed the cap |
| `BronzeLanes.LaneSorted` | src/observatorio_secop/ingestion/runner.py:294-302 | the rows of a lane strictly increase across all its pages, whatever the source answers |
| `BronzeLanes.TakenKept` | src/observatorio_secop/ingestion/runner.py:229-254 | taking a valid page keeps numbering, cursors, cap and lane order |
| `BronzeLanes.SelectAfter` | src/observatorio_secop/ingestion/query.py:22-85 | the query past a cursor selects exactly the window rows past it |
| `BronzeLanes.NextAnswer` | src/observatorio_secop/ingestion/runner.py:199-213 | the next answer continues the window exactly where the lane ends, and is short only at its end |
| `BronzeLanes.LanePrefix` | src/observatorio_secop/ingestion/runner.py:190-269 | against an unchanging source a lane's pages are a prefix of its window |
| `BronzeLanes.ShortAnswerFinishes` | src/observatorio_secop/ingestion/runner.py:265-269 | a short answer means the window is exhausted |
| `BronzeLanes.LanesDisjoint` | src/observatorio_secop/ingestion/query.py:33-77 | the two windows share no row |
| `BronzeLanes.RangeCompleteExact` | src/observatorio_secop/ingestion/runner.py:304-312 | a run is complete exactly when both lanes are; it then holds both windows in order, every row once; truncation means the cap was reached |
| `BronzeLanes.WindowRows` | src/observatorio_secop/ingestion/query.py:22-85 | a row is in the window of updates exactly when it is of the department and updated from the effective start to the end, and in the other exactly when never updated and signed in what was asked for |
| `BronzeLanes.WindowsCovered` | src/observatorio_secop/ingestion/runner.py:190-269 | lanes equal to their windows hold, page by page, exactly those rows |
| `BronzeRunner.NextFileFree` | src/observatorio_secop/ingestion/storage.py:62-66 | the file of the next page is never one that a manifest names |
| `BronzeRunner.BronzeExtraction.SaveState` | src/observatorio_secop/ingestion/storage.py:68-70 | the saved state is the old one or the one in memory |
| `BronzeRunner.BronzeExtraction.WritePage` | src/observatorio_secop/ingestion/storage.py:62-66 | stores the page without touching a named one |
| `BronzeRunner.BronzeExtraction.Fetch` | src/observatorio_secop/ingestion/transport.py:65-84 | rows within the limit, the source's own answer if it does not change, or a failure |
| `BronzeRunner.BronzeExtraction.TakePage` | src/observatorio_secop/ingestion/runner.py:229-254 | stores, records and saves a page, with the invariant at every interruption |
| `BronzeRunner.BronzeExtraction.ReadPage` | src/observatorio_secop/ingestion/runner.py:199-269 | one page: a full one goes on exactly where it ended, a short one ends the lane |
| `BronzeRunner.BronzeExtraction.ReadLane` | src/observatorio_secop/ingestion/runner.py:192-272 | reads a lane until a short page or the cap, keeping saved progress through failures and crashes |
| `BronzeRunner.BronzeExtraction.Extract` | src/observatorio_secop/ingestion/runner.py:190-272 | ends with both lanes done or the cap reached, unless interrupted |
| `BronzeRunner.BronzeExtraction.Attempt` | src/observatorio_secop/ingestion/runner.py:61-102 | any run or resumption stays within the cap, never loses saved pages, and reports completeness exactly: both lanes done, no truncation, and then, of a source that does not change, exactly the rows updated in the window and those never updated that were signed in what was asked for; it gets through where no write or request fails and the source is well formed, and a failed call has tried to save all it took |
| `BronzeIndex.ObservationsAreRows` | src/observatorio_secop/ingestion/state.py:211-226 | the observations of a run are exactly the rows of its pages, each with its page and position |
| `BronzeIndex.ObservationsFromPages` | src/observatorio_secop/ingestion/state.py:211-226 | the nested loop computes those observations in order |
| `BronzeIndex.CandidateOf` | src/observatorio_secop/ingestion/runner.py:308-312 | a checkpoint is proposed exactly by a complete run, and is the later of its window's end and the checkpoint it started from |
| `BronzeIndex.ApplyMeaning` | src/observatorio_secop/ingestion/state.py:150-186 | applying a run adds its observations, keeps the first run of each and marks this run as the last |
| `BronzeIndex.CountsConserved` | src/observatorio_secop/ingestion/state.py:142-174 | new + repeated = observations, and the index grows by the new ones |
| `BronzeIndex.VersionsExact` | src/observatorio_secop/ingestion/state.py:156-174 | new observations that are not new versions are exactly the identities seen for the first time |
| `BronzeIndex.FirstAndLastRuns` | src/observatorio_secop/ingestion/state.py:150-186 | an indexed observation names the first and the last run, in commit order, that observed it |
| `BronzeIndex.FirstPlace` | src/observatorio_secop/ingestion/state.py:150-186 | applying a run leaves every entry the page and position of its first sighting |
| `BronzeIndex.FirstSighting` | src/observatorio_secop/ingestion/state.py:150-186 | over all commits an entry has the page and position of its very first sighting |
| `BronzeIndex.NotIndexed` | src/observatorio_secop/ingestion/state.py:150-186 | the index is the union of the committed runs |
| `BronzeIndex.ApplyAll` | src/observatorio_secop/ingestion/state.py:142-186 | the loop over observations computes index and counts as specified |
| `BronzeIndex.IngestionState.CommitRun` | src/observatorio_secop/ingestion/state.py:134-208 | applies a run once: a known run or a lost transaction changes nothing; checkpoint, runs and index follow the commits |
| `BronzeRecovery.CommitFiled` | src/observatorio_secop/ingestion/state.py:187-196 | committing a prepared run keeps manifests and database in agreement |
| `BronzeRecovery.AllSettled` | src/observatorio_secop/ingestion/runner.py:104-138 | when no run is left prepared the database holds exactly the published runs |
| `PageNames.PagePathInjective` | src/observatorio_secop/ingestion/storage.py:62-66 | two pages of one run share a file name only if they are the same page of the same lane |
| `BronzeRecovery.KeysAreRows` | src/observatorio_secop/ingestion/state.py:211-226 | the observations that a commit applies are the rows of the page files |
| `BronzeRecovery.FilesHoldLanes` | src/observatorio_secop/ingestion/runner.py:229-254 | the page files of a run hold exactly the rows of its two lanes |
| `BronzeRecovery.FinishedWindow` | src/observatorio_secop/ingestion/runner.py:304-325 | a complete extraction of an unchanging source publishes exactly what both lanes of the window hold, and proposes a checkpoint not before its end |
| `BronzeRecovery.IndexHoldsPublished` | src/observatorio_secop/ingestion/state.py:150-186 | when no run is left prepared the index holds exactly the rows of the published pages |
| `BronzeRecovery.BronzeStorage.Prepare` | src/observatorio_secop/ingestion/storage.py:96-106 | publishes a run under a new identifier, or nothing, exactly as the write fares |
| `BronzeRecovery.BronzeStorage.MarkCommitted` | src/observatorio_secop/ingestion/storage.py:108-113 | marks a run that is in the database, or leaves its manifest alone |
| `BronzeRecovery.BronzeStorage.Settle` | src/observatorio_secop/ingestion/runner.py:123-137 | commits a run at most once and marks it; the manifest then shows the counts of its commit if and only if that commit was made here or counted nothing |
| `BronzeRecovery.BronzeStorage.Finish` | src/observatorio_secop/ingestion/runner.py:304-333 | publishes the pages, range flag and candidate of a finished extraction; done means in the database, marked and with its own counts, and interrupted anywhere manifests and database still agree |
| `BronzeRecovery.BronzeStorage.ReconcilePrepared` | src/observatorio_secop/ingestion/runner.py:104-138 | recovery that gets through leaves no prepared run and an index holding exactly the rows of the published pages; recovered runs show their counts under the same exact condition |
| `BronzeRecovery.LoseCounts` | src/observatorio_secop/ingestion/runner.py:123-126 | any run with a row that is killed between commit and mark is recovered as a committed run that counted nothing |
| `BronzeIngestion.Ingestion.Publish` | src/observatorio_secop/ingestion/runner.py:304-333 | publishing a finished extraction leaves an exact index and its own candidate as the checkpoint |
| `BronzeIngestion.Ingestion.Ingest` | src/observatorio_secop/ingestion/runner.py:61-102 | one whole incremental call: nothing published or saved is lost; a call that gets through leaves an exact index, and against an unchanging source, below the cap, pages that hold exactly the window; a new run gets through where nothing fails and the source is well formed |
| `SilverRanking.VersionOrder` | src/observatorio_secop/processing/silver/transform.py:391-400 | on rows of one key the version order is a strict total order |
| `SilverRanking.NumberedOne` | src/observatorio_secop/processing/silver/transform.py:70-81 | a row numbered one is the greatest of its partition and the only one, however ties are numbered |
| `SilverRanking.SomeFirst` | src/observatorio_secop/processing/silver/transform.py:70-81 | every partition has a row numbered one |
| `SilverRanking.FirstsMeaning` | src/observatorio_secop/processing/silver/transform.py:70-81 | one ranking keeps exactly the greatest row of each partition |
| `SilverRanking.SelectionIsMaximum` | src/observatorio_secop/processing/silver/transform.py:70-82 | ranking by key and payload and then by key keeps exactly the greatest row of each key |
| `SilverRanking.SelectionOrderFree` | src/observatorio_secop/processing/silver/transform.py:70-82 | the selection depends neither on input order nor on how ties are numbered |
| `SilverRanking.UnionOfWinners` | src/observatorio_secop/processing/silver/transform.py:70-82 | winners of a union are the winners of the union of winners |
| `SilverRanking.KeysGrow` | src/observatorio_secop/processing/silver/transform.py:76-82 | adding input loses no key and never replaces a winner by a lesser row |
| `SilverRanking.WinnerIsNewest` | src/observatorio_secop/processing/silver/transform.py:391-400 | the selected row has the latest source update of its key and, among those, the latest acquisition, then the greatest run, page, position and payload |
| `SilverRanking.PrecedesExact` | src/observatorio_secop/processing/silver/transform.py:391-400 | the version order is the lexicographic one over those columns |
| `SilverRanking.RowsConserved` | src/observatorio_secop/processing/silver/transform.py:49-100 | input = output + rejected + exact duplicates + superseded, and output = distinct accepted keys |
| `SilverConditions.CollectSpellings` | src/observatorio_secop/processing/silver/conditions.py:25-30 | the spellings of every normalised identity |
| `SilverConditions.CollectRejects` | src/observatorio_secop/processing/silver/conditions.py:31-41 | the reliable rejects of every identity, in order |
| `SilverConditions.LinkWinner` | src/observatorio_secop/processing/silver/conditions.py:51-73 | one link per distinct link identity |
| `SilverConditions.ObservationConditions` | src/observatorio_secop/processing/silver/conditions.py:14-91 | writes the specified summaries and links, and fails exactly when a page it must cite is unknown |
| `SilverConditions.ValidateConditionSet` | src/observatorio_secop/population/conditions.py:161-203 | accepts exactly the valid sets of evidence |
| `SilverConditions.ValidateRows` | src/observatorio_secop/population/conditions.py:113-180 | accepts exactly well-formed summaries and links of the right scope and version |
| `SilverConditions.IndexSummaries` | src/observatorio_secop/population/conditions.py:172-174 | accepts exactly one summary per contract key |
| `SilverConditions.ValidateLinks` | src/observatorio_secop/population/conditions.py:181-191 | accepts exactly distinct link identities and places that refer to the summarised winner |
| `SilverEvidence.LinksForMeaning` | src/observatorio_secop/processing/silver/conditions.py:51-73 | the links of a winner are those of its reliable rejects, each once |
| `SilverEvidence.AllKeyCount` | src/observatorio_secop/processing/silver/conditions.py:74-88 | links counted by key are those of the key's winner |
| `SilverEvidence.ProducerAccepted` | src/observatorio_secop/processing/silver/conditions.py:14-91 | what the producer writes passes the validator if and only if cited observations at the same place are the same evidence |
| `SilverEvidence.LinksCount` | src/observatorio_secop/processing/silver/conditions.py:51-73 | with one observation per place, links = cited rejects |
| `SilverEvidence.UnattributableAgrees` | src/observatorio_secop/processing/silver/population.py:221-230 | the unattributable count of the producer, rejected rows less distinct places, is the one the bundle check expects, rejected rows less links, if and only if cited observations at one place are the same evidence |
| `SilverEvidence.EvidenceReconciles` | src/observatorio_secop/warehouse/population_bundle.py:115-125 | with one observation per place the evidence always passes, each cited reject has one link, and links and unattributable rejects add up to the rejected rows |
| `SilverMeaning.AboutCited` | src/observatorio_secop/processing/silver/conditions.py:25-41 | a reject is cited exactly when it spells the selected identity, nothing else is spelled like it once normalised, and it is not blank |
| `SilverMeaning.SummaryMeaning` | src/observatorio_secop/processing/silver/conditions.py:74-91 | a summary is later-invalid exactly if some cited reject was acquired later than the selected row, indeterminate exactly if none was but one at the same instant, and otherwise has nothing later |
| `SilverMeaning.SummaryCounts` | src/observatorio_secop/processing/silver/conditions.py:74-78 | with one observation per place its counts are the numbers of such rejects |
| `SilverMeaning.LinkMeaning` | src/observatorio_secop/processing/silver/conditions.py:51-73 | every link names a cited reject and the selected row by their places and says how their times stand |
| `SilverMeaning.ValidSetExact` | src/observatorio_secop/population/conditions.py:161-203 | the validator accepts exactly sound links with true times, one summary per contract key with true counts and state, one link per place, each to the selected row of its key |
| `SilverMeaning.EscapesRefused` | src/observatorio_secop/population/conditions.py:83-89 | a path with an empty, current or parent component anywhere is refused |
| `SilverReading.ReadBronze` | src/observatorio_secop/processing/silver/bronze.py:121-149 | the nested loops give every row of every page as one observation, numbered per page |
| `SilverReading.RecordsUnique` | src/observatorio_secop/processing/silver/bronze.py:121-149 | distinct runs with distinct page names give one observation per place |
| `SilverReading.WrittenPaths` | src/observatorio_secop/ingestion/storage.py:62-66 | the pages of any run that an extraction or an accepted campaign wrote have distinct names |
| `SilverReading.PagePathClean` | src/observatorio_secop/population/conditions.py:83-89 | every page name that the storage writes is a canonical path the validator accepts |
| `SilverReading.PipelinePlaces` | src/observatorio_secop/processing/silver/bronze.py:43-46 | what a build reads from runs the pipeline wrote has one observation per place |
| `SilverReading.PipelineReconciles` | src/observatorio_secop/warehouse/population_bundle.py:115-125 | over such runs the evidence always passes its validator and its counts reconcile, with no further hypothesis on pages or places |
| `SilverSelection.SelectionKeeps` | src/observatorio_secop/processing/silver/selection.py:81-140 | a selection interrupted anywhere keeps: bound active scope, registry and adoptions of once-active versions, a binding that never moves |
| `SilverSelection.AdoptionKeeps` | src/observatorio_secop/processing/silver/selection.py:248-278 | so does an adoption interrupted anywhere |
| `SilverSelection.SelectionRepeats` | src/observatorio_secop/processing/silver/selection.py:91-122 | an interrupted selection is allowed again with the same arguments |
| `SilverSelection.AdoptionRepeats` | src/observatorio_secop/processing/silver/selection.py:248-259 | an interrupted adoption is allowed again |
| `SilverSelection.SelectionConverges` | src/observatorio_secop/processing/silver/selection.py:91-140 | from any interruption, repeating a selection passes only through stages of the first attempt and ends in the files of an uninterrupted one |
| `SilverSelection.AdoptionConverges` | src/observatorio_secop/processing/silver/selection.py:248-279 | the same for an adoption |
| `SilverSelection.OneSuccessor` | src/observatorio_secop/processing/silver/selection.py:110-118 | of two candidates built on the same active version, the second is refused once the first is selected |
| `SilverSelection.RestorationAllowed` | src/observatorio_secop/processing/silver/selection.py:103-109 | a version is restored exactly when registered, against the exact current version, in the scope of the workspace by receipt or adoption, and complete if scoped |
| `SilverSelection.RepeatAllowed` | src/observatorio_secop/processing/silver/selection.py:96-102 | the active version may be selected again exactly unless it is a preview, incomplete or with drift |
| `SilverSelection.CandidateAllowed` | src/observatorio_secop/processing/silver/selection.py:52-122 | a version is selected anew exactly when scoped, complete, without drift, in the bound scope and built on what is active, with a baseline and a bound workspace if something is |
| `SilverSelection.SelectedFiles` | src/observatorio_secop/processing/silver/selection.py:119-140 | a completed selection leaves the target active and registered, and binds a free workspace to its scope |
| `SilverSelection.AdoptionExact` | src/observatorio_secop/processing/silver/selection.py:212-279 | the active legacy version is adopted exactly inside a scope that neither binding nor an earlier adoption contradicts, and what that leaves |
| `SilverSelection.SilverWorkspace.SelectVersion` | src/observatorio_secop/processing/silver/selection.py:52-140 | refused exactly when not allowed; otherwise in a repeatable stage; done means the files of an uninterrupted selection: active, registered and bound; an allowed call whose writes land is done |
| `SilverSelection.SilverWorkspace.RunSelect` | src/observatorio_secop/processing/silver/selection.py:96-140 | binding, pointer and registry written in order, stopping anywhere; done means the uninterrupted result |
| `SilverSelection.SilverWorkspace.AdoptVersion` | src/observatorio_secop/processing/silver/selection.py:212-279 | refused exactly when not adoptable; otherwise in a repeatable stage; done means recorded, bound and registered; an adoptable call whose writes land is done |

## Left out

- Real I/O: HTTP, the file system, `flock`, PostgreSQL and SQLite connections, Spark, Parquet and subprocesses; SQL statements are set and map expressions, and one statement reads the clock once.
- Digest formats, canonical JSON and JSON, YAML or regular-expression parsing; a malformed document is a refused value or is excluded by its type.
- Symbolic-link and file-system object checks of page paths.
- Roles, grants, schemas, view SQL, relation inventories and dbt: their outcome is an input of each publication request.
- The build of a candidate between reservation and sealing: it appears only as the requests it makes.
- `read_publication`: the data statement after validation runs in a transaction of its own, and no horizon is claimed for it.
- Started and finished times, durations, retry counters and additive drift of manifests: no decision reads them.
- The contract and compatibility registry of a campaign or a run: one profile value in the plan.
- The observation index inside a campaign's ending: one write there, modelled in full for Bronze runs in `BronzeIndex`.
- Order of recovered runs and of written links and summaries: any order is allowed, and no result depends on it.
- Condition and link rows of the warehouse: registered per version as part of what its manifest fixes, so their immutable-conflict refusals do not arise.
- Warehouse quality rows and the identity migration of older tables.
- Rows of a warehouse table older than the activation history: assumed to have been written by loads of the snapshots they name, which `LegacyRow` states.
- Rejection details and typed columns of Silver rows: a row carries its rejection codes and the columns that order it.
- Text normalisation in the rejection evidence: an arbitrary function of the received identity.
- A never-falling Bronze checkpoint and a checkpoint without gaps: the code does not promise them; the checkpoint is the one of the last complete incremental commit.
- Source profiling, the territorial catalogue, Airflow, Docker, CI, the command line, logging and configuration.
- CampaignDriver.PopulationReconciliation.Commit: models the index commit of a campaign as one write, because the index itself is covered by `BronzeIndex`.
- PublicationPipeline.CandidateStage: stops where the build of the candidate would begin, because the build is external.
- SilverConditions.ValidateRows: does not check digest formats, because digests are modelled by their values.
- BronzeRunner.BronzeExtraction.Attempt: leaves out the metadata check before the lanes and the refusals of a resumption under another contract, projection or window, because they end the call before any row is read.
- WarehouseLoader.WarehouseLoader.AdoptBundle: takes the identity, the stated reason and the Bronze runs of the record as one input, because they are compared by digests; its keys and scope are checked.

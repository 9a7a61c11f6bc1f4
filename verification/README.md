# Verification of the record pipeline and its schema engine

The system keeps master data. Each entity has four tables: *landing* (every write as it arrived),
*staging* (validated rows awaiting a steward), *live* (the golden records) and *history* (their earlier
versions). This project models the pipeline between them as a state machine, together with the three
components it stands on: validation and matching, the schema engine that creates and migrates the four
tables, and the life cycle of entity definitions. Properties are proved for every input and, where
tables change, for every run from empty tables.

## How it is laid out

Code that changes state is a class whose methods are proved against a function of the old state; the
properties are proved about those functions and their runs.

| component | specification | state-changing form | laws |
|---|---|---|---|
| live and history | `Ledger` | `PipelineTables` | `Ledger`, `Refinement`, `Lineage`, `Decisions` |
| pipeline steps | `Pipeline`, `Bulk`, `Intake` | `PipelineTables` | `Promotions`, `Decisions`, `Refinement`, `Conservation`, `Review`, `GoldenRules`, `PartialUpdates`, `Resolution`, `Intake`, `Bulk`, `BulkCauses`, `Repairs` |
| normalisation, validation, match keys | `Strings`, `Normalization`, `Validation`, `Matching` | loops in the same modules | `Reading`, `Normalization`, `Validation`, `MatchKeyLaws`, `GoldenRules` |
| types and schema migration | `Numbers`, `TypeSystem`, `Migration` | `MigrationEngine` | `PlanLaws`, `TypeSystem`, `MigrationLaws` |
| definitions and documents | `Definitions`, `Documents` | `DefinitionStore`, loops in `Documents` | `Revisions`, `DocumentLaws`, `Definitions`, `Documents` |
| publishing: definitions with their tables | `Publishing` | `Publisher` | `Deployments`, `Publishing` |
| identifiers and escaping | `Identifiers` | loop in the same module | `Identifiers` |

Two kinds of law are proved about each specification. `Promotions`, `Decisions`, `Reading`, `PlanLaws`,
`Revisions`, `DocumentLaws` and `Deployments` say field by field what one operation leaves, what it refuses
and that nothing else changes, without the functions the specification builds its rows with. The other modules
say what holds across operations and over runs.

`Pipeline.Run` is the state after any list of events. An event carries its time and one operation: a
write, a promotion, an edit, a rejection or an approval. An operation that the code refuses, or that the
database refuses, leaves the state as it was and says so in its reply. Times are those of the
transactions; only the properties about time ask for them not to decrease. `Ledger.Replay` is the plain
log of approved changes that live and history refine.

Parameters stand for what the code does not decide: the clock, the generated `mdm_id` of a creation, the
actor, the segregation flag, the batch limit, which of several matching rows the database returns
first (`Chooser`), and conversions the model does not look into (`Platform`).

## Where the code and its documentation part

The code is followed; each point is a lemma below.

- `docs/ARCHITECTURE.md:419-420` says one history row per approved change. Creations write none, and an update
  with nothing to set writes one without a new version (`Refinement.AppliedAccounted`, `Ledger.LiveChain`).
- An update whose payload names no attribute copies the DDL defaults into the golden record, which the
  comment at `app/services/pipeline.py:514-516` says must not happen (`PartialUpdates.EmptyUpdateLeaksDefaults`).
- An UPDATE that matched nothing is approved as a creation (`GoldenRules.UnmatchedUpdateCreates`).
- An edit forgets what resolution had found wrong, so a row known to be a duplicate becomes approvable as an
  update (`Repairs.EditedVerdict` says when, `Repairs.DuplicateInstance` is a run that does it).
- Rows that fail validation are meant to be staged with their errors. A text longer than its column keeps the
  row out of staging (`GoldenRules.OverlongIsNotStaged`, with the exact condition in `GoldenRules.StagedIff`).
- An empty idempotency key is stored but never looked up, so its second use violates the unique index
  (`Intake.SameKeySameLanding`).
- `bulk_approve` notes refusals but not database errors; one of those ends the call, and the counts no longer
  add up (`BulkCauses.BulkAccounts` says for which rows, `Repairs.UnmatchedDeleteInstance` is a run that does it).
- The match-key search does not fold punctuation although the match key does. Every value has a variant with its
  key that the search misses (`MatchKeyLaws.MatchSearchMisses`); between plain texts, words with single blanks,
  the search is complete (`MatchKeyLaws.MatchSearchExact`).
- `is_safe_widening` ignores default lengths and the range of numbers, so some accepted changes do not keep every
  value. `TypeSystem.SafeChangeKeeps` gives the exact condition, `MigrationLaws.PublishKeeps` lifts it to a publish.
- Destructive changes are reported and can be confirmed, but are never carried out (`MigrationLaws.PlanAgain`).
- An import complaint is not blocking when a name in it contains the word "warning"
  (`Documents.AlarmingEntityImported`).
- A text column whose configured default is, say, `now()` gets the function and not the text as its default
  (`Identifiers.StringDefaultReadsBack`).
- `update_entity` makes up a missing display name for a new attribute only. An update that leaves out the display
  name of an attribute already stored writes null into a NOT NULL column and fails (`Revisions.UpdateRefused`).
- The identifier pattern admits one trailing newline (`Identifiers.NewlineAccepted`).

## Model

| member | source | states |
|---|---|---|
| Ledger.PointInTime | docs/RUNBOOK.md:557-568 | a record existed at t iff a history row is valid at t or the live row has been in force since before t; every such row tells exactly the state the record had at t |
| Ledger.PointInTimeInvariant | app/services/pipeline.py:501-596 | for a log in time order: the live row is the state since its last update, each history row is true throughout its interval, and no instant of a record's life is without a row |
| Ledger.VersionChain | app/services/pipeline.py:501-596 | versions are positive, history holds each of 1..n-1 and none above n, and every row a record ever had in live is still the live row or is recorded by a history row, hard-deleted records included |
| Ledger.SameVersionSameRow | app/services/pipeline.py:501-523 | two history rows of one record and version agree on values, deletion, source, staging row and start, however many no-change rows there are |
| Ledger.LiveChain | app/services/pipeline.py:501-538 | for a record live at version n, history has a row for each of 1..n-1 and only for versions 1..n |
| Ledger.HardDeletedChain | app/services/pipeline.py:541-567 | after a hard delete at version n, history covers exactly 1..n and the record never comes back |
| Ledger.GoneChain | app/services/pipeline.py:541-567 | every record that is gone has left exactly the versions 1..n behind, for some n |
| Ledger.ChangeCounts | app/services/pipeline.py:483-596 | each approved change adds exactly one of: a new record id, a history row |
| Refinement.PipelineRefinesBook | app/services/pipeline.py:391-596 | after any run, live and history are the replay of the granted changes in approval order; every other event stutters |
| Refinement.AppliedAccounted | app/services/pipeline.py:456-464 | in every reachable state, applied staging rows number record ids ever created plus history rows |
| Refinement.BookAt | docs/RUNBOOK.md:557-568 | the golden tiers as they stood at time t are the replay of the changes granted no later than t |
| Refinement.PipelinePointInTime | docs/RUNBOOK.md:557-568 | point-in-time reconstruction for every chronological run: what live and history say today about t is what live held at t |
| Refinement.PipelineVersionChain | app/services/pipeline.py:501-596 | the version chain holds after every run of the pipeline, for live records and for those that are gone |
| Refinement.PipelineHardDeletedChain | app/services/pipeline.py:541-567 | after an approval that hard-deleted a record at version n, history covers exactly 1..n at every later point of the run |
| Refinement.PipelineRemembers | app/services/pipeline.py:501-596 | what a golden record looked like at any point of a run can still be read at the end: it is the live row or a history row records it, under its version |
| Lineage.EveryValueTraced | docs/ARCHITECTURE.md:405-423 | any value a golden record holds or held was set by an approved change, whose own staging row was applied with that value and came from a promoted landing row |
| Lineage.ChangesHaveRows | app/services/pipeline.py:409-464 | every granted creation or update names one applied staging row that holds what it set, and no two name the same row |
| Lineage.ValuesHaveChanges | app/services/pipeline.py:483-596 | every value in live or history was set by some change of the log |
| Conservation.LandingConserved | app/services/pipeline.py:136-291 | in every reachable state a landing row has exactly one staging row iff it is promoted, none otherwise, and the staging row carries its operation and submitter |
| Conservation.CaptureRetained | app/services/pipeline.py:70-132 | landing rows are never removed, and payload, operation, target, key and submitter never change |
| Conservation.BatchesAlwaysBalance | app/services/pipeline.py:160-291 | every batch has rows in = promoted + failed, and as many staging rows as it counts promoted |
| Conservation.PromotionMarks | app/services/pipeline.py:180-263 | a promotion gives each row it takes its own outcome and touches no other landing row |
| Conservation.PromotionStages | app/services/pipeline.py:180-263 | a promotion appends one staging row per promoted row, each as that landing row was assessed, and none for a failed one |
| Conservation.PromotionTakesOldest | app/services/pipeline.py:160-180 | a promotion of everything takes the oldest pending rows up to the limit; the younger ones stay pending |
| Conservation.PromotionDrains | app/services/pipeline.py:136-291 | as many promotions with limit at least 1 as there are pending rows leave none pending |
| Conservation.ReviewKeepsOrigins | app/services/pipeline.py:391-693 | review steps touch neither landing nor batches nor where a staging row came from |
| Promotions.ReceiptMeans | app/services/pipeline.py:70-132 | a supported write lands iff its key is not in the table; a taken key gives back its own row's id and status, an empty taken key clashes |
| Promotions.CaptureMeans | app/services/pipeline.py:110-132 | a landed write is one new pending row holding exactly what was sent; everything else, and every table after any other write, stays |
| Promotions.FoundMeans | app/services/pipeline.py:324-380 | a search finds exactly the active records holding every business key value, none null, or reading alike in every match key column |
| Promotions.TargetMeans | app/services/pipeline.py:294-380 | the target is the explicit id if it exists, else a record found by a complete business key, else by a complete match key; none is found only if none is there; the error is `not_found`, `duplicate` or `probable_duplicate` on the key's first attribute, and only for an INSERT |
| Promotions.AssessMeans | app/services/pipeline.py:180-263 | every column of the staging row a landing row becomes: target, errors of validation, resolution and the unmatched DELETE, change type, supplied names, validated values or DDL defaults |
| Promotions.PromotionMeans | app/services/pipeline.py:136-291 | a promotion processes exactly the pending rows asked for with fewer than `limit` such rows before them, marks each promoted or failed with the time, appends the staging rows, counts them in a new batch, and changes nothing else |
| Decisions.RefusalMeans | app/services/pipeline.py:411-454 | each refusal of an approval has its own cause, in this order: no row, already decided, errors, own work, golden record gone |
| Decisions.AppliedMeans | app/services/pipeline.py:456-464 | a granted approval marks its row applied with reviewer, time and note, keeps all its other columns and every other row, and leaves landing and batches alone |
| Decisions.CreationMeans | app/services/pipeline.py:483-498 | approving a row without a target creates an active record at version 1 with exactly the row's columns, and touches no other record nor history |
| Decisions.RevisionMeans | app/services/pipeline.py:501-538 | approving an update archives the old row exactly and overwrites exactly the supplied columns, one version on; other records stay |
| Decisions.SoftDeletionMeans | app/services/pipeline.py:541-567 | a granted DELETE under soft deletion leaves the record in live, deleted, with the time, one version on and the same values, archives it, touches no other record, and no key search finds it for any values |
| Decisions.HardDeletionMeans | app/services/pipeline.py:541-567 | without soft deletion the record is archived and removed, and no other is touched |
| Decisions.DeletedIff | app/services/pipeline.py:541-567 | over every run, a golden record is deleted iff some granted change of it was a soft deletion |
| Decisions.RejectionMeans | app/services/pipeline.py:600-626 | a rejection leaves the row rejected with that reviewer, time and reason, changes nothing else of it, and touches nothing else |
| Decisions.RejectedNotApproved | app/services/pipeline.py:411-419 | approving a row just rejected, or applied, is refused as already decided |
| Decisions.AppliedAfterRejected | app/services/pipeline.py:600-677 | over every run, a row rejected at one point is rejected at the end unless an edit of it went through in between |
| Decisions.EditMeans | app/services/pipeline.py:629-693 | an edit that goes through returns the row to review under the editor's name, re-reads and re-checks every column of the merged row, adds the edited fields to the supplied ones and changes nothing else |
| Review.StatusesReachable | app/services/pipeline.py:411-464 | of the six staging statuses only three are reachable, and a row is flagged valid iff it has no errors |
| Review.AppliedIsFinal | app/services/pipeline.py:416-419 | once applied, a staging row never changes again |
| Review.EditorTracked | app/services/pipeline.py:656-691 | a row's recorded editor is the actor of the last edit of it that went through |
| Review.SegregationOfDuties | app/services/pipeline.py:426-433 | over runs enforcing segregation, an applied row was approved by someone other than its last editor or, if never edited, than the submitter of the landed write |
| GoldenRules.GoldenAlwaysSound | app/services/ddl.py:210-248 | in every reachable state the golden rows satisfy NOT NULL and column sizes, and no two active ones share a unique value |
| GoldenRules.GoldenMeans | app/services/ddl.py:210-248 | the same for one record and attribute: a required column holds a value, texts and integers are within their column, and no other active record has the unique value |
| GoldenRules.StagedRowsSound | app/services/pipeline.py:180-291 | every reachable staging row has all columns, fits them, and if valid holds every required column validation has seen |
| GoldenRules.OnlyUniquenessCanFail | app/services/validation.py:159-261 | approving a valid row (full write, edited, or an update of a golden record) can fail in the database only because a unique value is taken |
| GoldenRules.UpdatesKeepRequired | app/services/pipeline.py:512-523 | no valid row ever sets a required column to null |
| GoldenRules.UnmatchedUpdateCreates | app/services/pipeline.py:446-454 | a valid UPDATE that matched nothing is approved as a creation iff the required columns hold a value and no unique value is taken |
| GoldenRules.BoundedIff | app/services/validation.py:159-176 | the length limit that validation goes by keeps every text within its column iff the limit exists and is no larger than the column, or the column is not sized |
| GoldenRules.FaultlessFits | app/services/validation.py:65-225 | under that condition a value validation accepts fits its column: text within its length, integers within 32 and 64 bits |
| GoldenRules.StagedIff | app/services/pipeline.py:180-263 | a write reaches staging iff its explicit id can be cast and all its columns fit, whether valid or not |
| GoldenRules.ValidWriteIsStaged | app/services/pipeline.py:180-263 | with length limits as above, a write without validation errors whose explicit id, if any, can be cast always reaches staging |
| GoldenRules.EditedIff | app/services/pipeline.py:629-677 | an edit of an open row goes through iff it names known fields and its columns fit, valid or not |
| GoldenRules.ValidEditIsStored | app/services/pipeline.py:629-677 | in every reachable state, with length limits as above, an edit that leaves nothing wrong with an open row is stored |
| GoldenRules.OverlongIsNotStaged | app/services/pipeline.py:264-275 | a text longer than its column keeps the row out of staging, whether validation calls it an error or not |
| PartialUpdates.UpdateFrame | app/services/pipeline.py:440-452 | an approved update sets exactly the supplied columns to their staged values, adds one version, and leaves all other columns and records alone |
| PartialUpdates.SuppliedGrows | app/services/pipeline.py:656-661 | the supplied set never shrinks, and an edit adds exactly the edited fields |
| PartialUpdates.EmptyUpdateLeaksDefaults | app/services/pipeline.py:514-520 | an UPDATE naming no attribute sets each column that has a DDL default; golden values survive iff none differs from its default |
| PartialUpdates.UpdatesAccumulate | app/services/pipeline.py:501-538 | a series of approved updates with disjoint columns leaves exactly their sets on top of the old values, one version each |
| PartialUpdates.EveryOrderGoes | app/services/pipeline.py:501-538 | if updates of one record with disjoint columns go through in one order, they all go through in every order |
| PartialUpdates.OrderIrrelevant | app/services/pipeline.py:501-538 | in every reachable state, if such updates go through in one order, every other order goes through too and gives the same values and version |
| Resolution.CleanTwice | app/services/validation.py:228-261 | validating a stored text or e-mail address again stores the same text |
| Resolution.KeyProvenance | app/services/pipeline.py:629-677 | over any run a text or e-mail column holds the stored form of the last raw text given for it, however often the row was edited |
| Resolution.BusinessKeyResolves | app/services/pipeline.py:324-349 | a complete business key carried by an active record resolves to such a record, an INSERT gets `duplicate`, and with a unique key attribute there is no other match |
| Resolution.KeyFoundAgain | app/services/pipeline.py:324-349 | a key whose columns were normalised, staged, edited and approved, by the record's creation or by later updates, is found by any later write whose raw key normalises equally, while the record is active with its key; an INSERT of it cannot be valid |
| Resolution.ResolutionPrecedence | app/services/pipeline.py:294-380 | an explicit id decides alone and finds deleted records too; otherwise a complete business key decides; where it is missing or incomplete a complete match key decides; else nothing is found |
| Resolution.EditForgetsResolution | app/services/pipeline.py:643-677 | an edited row has no resolution errors left and keeps its target |
| Repairs.EditedValidIff | app/services/pipeline.py:643-667 | an edited row is valid iff each of its columns reads as its type and obeys its checks, whatever resolution had found |
| Repairs.EditedVerdict | app/services/pipeline.py:411-454 | in every reachable state, exactly what approving an edited row comes to: a duplicate INSERT updates its record and an unmatched UPDATE creates one unless a unique value is taken, an unmatched DELETE fails in the database |
| Repairs.UnmatchedDeleteReachable | app/services/pipeline.py:629-677 | from every reachable state, landing, staging and editing a DELETE of an unknown id leads to a row that review accepts and the database refuses |
| Repairs.DuplicateReachable | app/services/pipeline.py:629-677 | from every reachable state, landing, staging and editing a duplicate INSERT leads to a row approved as an update unless it brings a taken unique value |
| Repairs.UnmatchedUpdateReachable | app/services/pipeline.py:446-454 | from every reachable state, an UPDATE that validation accepts and that matches nothing is staged as valid, and approving it creates a record unless a required column is missing or a unique value is taken |
| Repairs.UnmatchedDeleteInstance | app/api/v1/stewardship.py:238-261 | a run of three events after which a bulk approval, whatever else it is given, decides nothing and counts nothing |
| Repairs.DuplicateInstance | app/services/pipeline.py:629-677 | a run in which a row staged as a duplicate is approved as an update, segregation of duties included |
| Repairs.UnmatchedUpdateInstance | app/services/pipeline.py:446-454 | a run in which approving an UPDATE creates a record |
| Resolution.ApprovalCreates | app/services/pipeline.py:483-498 | approving a row without a target creates the golden record with exactly the row's columns |
| Resolution.ApprovalGives | app/services/pipeline.py:483-538 | a column an approval gives a record, creating it or updating it, reads as in the staged row |
| Intake.RepeatsChangeNothing | app/services/pipeline.py:93-108 | the landing table is what it would be had the writes repeating a key never been sent |
| Intake.RepeatsChangeNoRun | app/services/pipeline.py:93-108 | over any run of the pipeline, all four tiers end up as if the writes repeating a key had never been sent |
| Intake.SameKeySameLanding | app/services/pipeline.py:93-132 | of two writes with one key anywhere in a run the second never lands; it returns the first one's landing id iff the key is not empty, else it clashes |
| Bulk.BulkIsOneByOne | app/api/v1/stewardship.py:238-261 | approved + failed is the number of ids iff no single approval at its turn violates a constraint, and then the tables are as after approving one by one |
| Bulk.BulkStopsAtViolation | app/api/v1/stewardship.py:238-261 | otherwise the rows before the first violation are decided and counted, the rest are untried |
| Bulk.UnresolvedDeleteEndsBulk | app/api/v1/stewardship.py:238-261 | an unmatched DELETE that review accepts, put first, ends the call with nothing decided |
| Bulk.TallyMeans | app/api/v1/stewardship.py:238-261 | when nothing violates, approved counts the approvals that were granted at their turn and failed the others |
| Bulk.RejectionsMean | app/api/v1/stewardship.py:265-283 | a bulk rejection leaves each named row that is not applied rejected with its reason, and every other row as it was |
| BulkCauses.ApprovalViolates | app/services/pipeline.py:434-454 | in every reachable state an approval runs into the database iff the review has no objection and the row is a DELETE of nothing, a creation lacking a required column, or brings a unique value that is taken |
| BulkCauses.DoomedKinds | app/services/pipeline.py:180-263 | a valid row of the first two kinds is an edited unmatched DELETE or an unedited unmatched UPDATE |
| BulkCauses.ValuesExplained | app/services/pipeline.py:483-538 | after any series of approvals, each value of an active record was there before or was brought by one of the approved rows |
| BulkCauses.OneByOneIsRun | app/api/v1/stewardship.py:238-261 | approving rows one by one is a continuation of the run |
| BulkCauses.GrantedWasOpen | app/api/v1/stewardship.py:238-261 | whatever goes through during the call was acceptable to review, not bound to fail, and had its golden record when the call began |
| BulkCauses.BulkAccounts | app/api/v1/stewardship.py:238-261 | if those of the rows given that can still go through do not contend for unique values, the counts account for every id iff no row given is an edited unmatched DELETE, or an unedited unmatched UPDATE lacking a required column, that review would accept; rows already decided, invalid or refused may be in the list |
| PipelineTables.Tables.LookupKey | app/services/pipeline.py:93-108 | finds the landing row holding a key, the specification's `FindKey` |
| PipelineTables.Tables.WriteToLanding | app/services/pipeline.py:70-132 | the receipt and all four tables after a write are those of `Receive` and `Write` |
| PipelineTables.Tables.ResolveTarget | app/services/pipeline.py:294-380 | the branches of the lookup compute `Resolve` |
| PipelineTables.Tables.AssessRow | app/services/pipeline.py:180-263 | what promotion makes of one landing row is `Assess`, and nothing is written |
| PipelineTables.Tables.PromoteLandingToStaging | app/services/pipeline.py:136-291 | the loop leaves the tables of `Promote`; its counts add up, and its report of each row is true of the tables |
| PipelineTables.Tables.WriteAndPromote | app/api/v1/data.py:58-116 | a write that landed triggers one promotion; a replayed, refused or clashing one changes nothing at all |
| PipelineTables.Tables.BulkWrite | app/api/v1/data.py:197-233 | all records land in order under one batch with consecutive ids, then one promotion; too many rows change nothing |
| PipelineTables.Tables.EditStaging | app/services/pipeline.py:629-693 | reply and tables are those of `EditVerdict` and `Edit` |
| PipelineTables.Tables.RejectStaging | app/services/pipeline.py:600-626 | reply and tables are those of `Rejectable` and `Reject`, which `Decisions.RejectionMeans` spells out |
| PipelineTables.Tables.ApplyInsert | app/services/pipeline.py:483-498 | a creation that the constraints admit makes the book's `Insert`, otherwise a database error |
| PipelineTables.Tables.ApplyUpdate | app/services/pipeline.py:501-538 | history first, then the update: together the book's `Amend`, with the missing record and the violation told apart |
| PipelineTables.Tables.ApplyDelete | app/services/pipeline.py:541-567 | soft or hard deletion as the entity is configured, each the book's change, spelled out by `Decisions.SoftDeletionMeans` and `Decisions.HardDeletionMeans`; a missing target is a database error |
| PipelineTables.Tables.ApplyRow | app/services/pipeline.py:446-454 | the branch on operation and target makes the change of `ChangeFor`, or tells a missing record from a violation |
| PipelineTables.Tables.ApplyStagingToLive | app/services/pipeline.py:391-480 | the verdict and all four tables are those of `ApproveVerdict` and `Approve`; any failure leaves every table as it was |
| PipelineTables.Tables.BulkApprove | app/api/v1/stewardship.py:238-261 | tables, counts and abort are those of `Approvals` |
| PipelineTables.Tables.BulkReject | app/api/v1/stewardship.py:265-283 | exactly the ids that could be rejected beforehand are reported rejected and the others failed, and the tables are as after rejecting those rows |
| Normalization.NormalizeValue | app/services/validation.py:37-61 | the loop over the rules, with its early return, computes `Normalized` |
| Normalization.NormalizeIdempotent | app/services/validation.py:37-61 | normalising twice is normalising once, for every value and every list of the five stable rules, in any order, with repeats |
| Normalization.PunctuationIsNotStable | app/services/validation.py:37-61 | trimming and then dropping punctuation is not idempotent |
| Reading.RuleMeans | app/services/validation.py:37-61 | what trimming, the case rules, title case and nullifying make of each character of a text |
| Reading.DeletionMeans | app/services/validation.py:55-58 | deleting punctuation or non-digits looks at each character alone, and keeps exactly the listed kinds |
| Reading.CollapsingMeans | app/services/validation.py:53-54 | every maximal run of whitespace becomes one space and nothing else changes |
| Reading.StripMeans | app/services/validation.py:45-46 | a text is its stripped form with whitespace before and after, and that form neither starts nor ends with any |
| Validation.ValidateRecord | app/services/validation.py:228-261 | the loop that fills values and errors computes `Validated`; the laws of `Reading` say what each column then holds and which errors there are |
| Validation.ValidatedColumn | app/services/validation.py:228-261 | a column is in the result iff it was looked at, and holds its own attribute's stored value |
| Validation.ValidatedFaults | app/services/validation.py:228-261 | the errors of a record are those of the attributes it speaks about and one for each unknown field outside the platform's own |
| Validation.ValidIff | app/services/validation.py:228-261 | a record has no errors iff every key is known and every attribute looked at reads and obeys its constraints |
| Validation.ObeysIff | app/services/validation.py:159-225 | the constraint checks report nothing iff the value meets each constraint, stated without the checks |
| Validation.ParseWritten | app/services/validation.py:88-97 | an integer written in decimal reads back as itself |
| Reading.BooleanWord | app/services/validation.py:108-112 | each of the twelve words, in any letter case and with any whitespace around, reads as its own truth value |
| Reading.BooleanReads | app/services/validation.py:108-112 | a text in a boolean column is null iff blank, else true or false iff its lower-case stripped form is one of the six words, else an error |
| Reading.BooleanPrinted | app/services/validation.py:108-112 | a truth value and what Python prints for it read as that value |
| Reading.BlankReads | app/services/validation.py:70-73 | null and whitespace are null in a column of any type |
| Reading.TextReads | app/services/validation.py:77-80 | a text column stores a visible text as it is and a number as its digits |
| Reading.EmailReads | app/services/validation.py:82-86 | an e-mail column stores exactly the address without the whitespace around it, or reports an error |
| Reading.NumberReads | app/services/validation.py:88-100 | a whole number, or its decimal text with whitespace around it, is stored as that number iff it is in range both ways |
| Reading.TextIsNumber | app/services/validation.py:88-97 | a text reads as a whole number iff, without commas and whitespace around, it is digits, with single underscores between, after at most one sign |
| Reading.GivenStored | app/services/validation.py:236-256 | a column that is given a value never gets the default |
| Reading.AbsentStored | app/services/validation.py:236-256 | a column left out is null or its default read as its type; a bad default is dropped, but a bad e-mail default is stored |
| Reading.FaultsMean | app/services/validation.py:159-225 | for each error code, exactly when a value gets it |
| Matching.BuildMatchKey | app/services/validation.py:264-281 | the loop over the key attributes computes `MatchKey` |
| MatchKeyLaws.MatchKeyUnambiguous | app/services/validation.py:264-281 | two records have one match key iff their components' normal forms agree one by one |
| MatchKeyLaws.MatchKeyMeans | app/services/validation.py:264-281 | a record has a match key iff its entity has match key attributes, or else business key ones, and it has a value for each; two keys are equal iff those values have equal normal forms |
| MatchKeyLaws.MatchKeyFolds | app/services/validation.py:264-281 | letter case and surrounding whitespace never change a component |
| MatchKeyLaws.MatchSearchSound | app/services/pipeline.py:351-379 | a golden record the match-key search finds has the match key of the incoming values |
| MatchKeyLaws.ProbeExact | app/services/pipeline.py:351-379 | of two texts with one key component, one of them plain, the search finds one by the other iff both are plain |
| MatchKeyLaws.MatchSearchExact | app/services/pipeline.py:351-379 | for plain values the search finds exactly the active golden records that have their match key and are plain in its columns |
| MatchKeyLaws.MatchSearchMisses | app/services/pipeline.py:351-379 | for every value there is a golden text with its key component that the search misses |
| MatchKeyLaws.MatchSearchMissesPunctuation | app/services/pipeline.py:351-379 | an example: "co." and "co" have one key, and the search tells them apart |
| TypeSystem.SafeWideningPreorder | app/services/identifiers.py:135-165 | safe widening is reflexive and transitive on types with lengths |
| TypeSystem.SafeWideningMeans | app/services/identifiers.py:135-165 | the accepted changes listed pair by pair of types, with the one rule about lengths |
| TypeSystem.RenderedReadsBack | app/services/identifiers.py:109-132 | a rendered type is read back by reflection as the type and length it was rendered for, with the listed exceptions |
| TypeSystem.SafeTextChange | app/services/identifiers.py:109-165 | an accepted change of column type keeps every stored text iff the new type's default length does not cut the column off |
| TypeSystem.NumbersKept | app/services/identifiers.py:109-165 | a change of number type keeps every whole number iff the new range contains the old one and the new unit divides the old one or, for a double, no significand exceeds 53 bits |
| TypeSystem.SafeChangeKeeps | app/services/identifiers.py:135-165 | an accepted change keeps every storable text and whole number iff no default length cuts the column off and no number range narrows |
| TypeSystem.PlainChangeKeeps | app/services/identifiers.py:150-165 | between types without default lengths, sized decimals and floats, every accepted change loses nothing |
| TypeSystem.NotReallyWider | app/services/identifiers.py:150-165 | examples: accepted changes from bigint to float and to a sized decimal lose values |
| MigrationLaws.PlanExecutes | app/services/ddl.py:337-443 | executing an alter plan never fails on names, creates missing tiers and brings each tier to its target columns |
| MigrationLaws.Convergence | app/services/ddl.py:337-443 | from any deployed tables, executing the plan leaves four tiers with exactly the model's columns and types iff the plan is not destructive and no model column has a type the builders never create |
| MigrationLaws.PlanAgain | app/services/ddl.py:487-498 | planning again finds only index statements without effect and exactly the destructive changes reported before, which are never carried out |
| MigrationLaws.CreateIsMigrationFromNothing | app/services/ddl.py:274-295 | the create plan is the alter plan from nothing with its two warnings about keys added, and it converges |
| MigrationLaws.PublishKeeps | app/services/ddl.py:388-426 | one publish keeps everything a column could hold iff it does not alter that column in a way that cuts it off or narrows it |
| MigrationLaws.NothingDropped | app/services/ddl.py:419-498 | over any sequence of publishes, confirmed or not, no deployed column is ever removed |
| MigrationLaws.NothingIsLost | app/services/ddl.py:388-498 | over any sequence of publishes, what a column could hold at one stage it can hold at the end, if every publish in between that altered that column was of the kind `PublishKeeps` names |
| MigrationLaws.PlainLosesNothing | app/services/ddl.py:388-498 | over any sequence of publishes that give a column only such plain types, it never loses anything it could hold, whatever the changes and confirmations |
| PlanLaws.RetypingMeans | app/services/ddl.py:388-417 | a deployed column of another type is altered iff the pair of types is an accepted one, and is otherwise reported as destructive and altered or added by no statement |
| PlanLaws.UntouchedMeans | app/services/ddl.py:388-404 | a column of the wanted type, or of a type outside the map, is neither altered nor reported |
| PlanLaws.AdditionMeans | app/services/ddl.py:370-386 | a missing column is added with the model's type and default, NOT NULL iff in live, required and with a default; the warning is given iff required in live without one |
| PlanLaws.OnlyMissingAdded | app/services/ddl.py:370-386 | columns are added, and warned of, only if the model has them and the deployed tier lacks them |
| PlanLaws.RemovalMeans | app/services/ddl.py:419-426 | a removal is reported iff the column is deployed outside landing, is not the platform's and not in the model |
| PlanLaws.CreationMeans | app/services/ddl.py:115-271 | a tier is created iff missing, with its own columns and then the model's in order, NOT NULL iff required and in live |
| PlanLaws.IndexMeans | app/services/ddl.py:428-442 | a model column has a unique index in live iff it is unique, and otherwise a plain one iff it is indexed |
| MigrationEngine.DDLPlan.Add | app/services/ddl.py:62-88 | appends one statement and nothing else |
| MigrationEngine.DDLPlan.PlanAdditions | app/services/ddl.py:370-386 | adds exactly the missing columns, with a warning for each required one added without NOT NULL, or stops iff one of them does not render |
| MigrationEngine.DDLPlan.PlanRetypings | app/services/ddl.py:388-417 | alters exactly the columns whose type widens, reports those that narrow (`PlanLaws.RetypingMeans` says which those are), and stops iff a type to compare does not render |
| MigrationEngine.DDLPlan.PlanRemovals | app/services/ddl.py:419-426 | reports, and does not drop, the columns the model no longer has |
| MigrationEngine.BuildTier | app/services/ddl.py:115-271 | one builder renders its columns one by one and produces the table and its indexes, or stops iff one does not render |
| MigrationEngine.BuildCreatePlan | app/services/ddl.py:274-295 | the four builders in turn produce `CreatePlan` with its warnings, or stop iff there are no columns or some type or default does not render |
| MigrationEngine.Database.PlanTier | app/services/ddl.py:349-442 | appends one tier's part of the plan to the plan so far, or stops iff something in it does not render |
| MigrationEngine.Database.BuildAlterPlan | app/services/ddl.py:337-443 | the nested loops produce `AlterPlan`, or stop where rendering raises: iff there are no columns or some tier needs a type or default that does not render; tables are untouched |
| MigrationEngine.Database.ApplyPlan | app/services/ddl.py:487-498 | all statements in order or none, and none of the destructive ones |
| Identifiers.AcceptedNames | app/services/identifiers.py:45-58 | an accepted name is lower snake case, not reserved, possibly with one trailing newline; every snake-case name that is not reserved is accepted |
| Identifiers.AcceptedAgain | app/services/identifiers.py:45-68 | accepting an accepted name again returns it |
| Identifiers.NewlineAccepted | app/services/identifiers.py:11 | a snake-case name with a trailing newline is accepted |
| Identifiers.ScanQuoted | app/services/identifiers.py:71-80 | scanning quoted text recovers it and stops right behind it, for every text |
| Identifiers.QualifiedInjective | app/services/identifiers.py:83-84 | different schema or table names never render alike |
| Identifiers.StringDefaultReadsBack | app/services/ddl.py:126-138 | a default of a quoted type is a literal that reads back as the configured text iff it is not one of the four function names |
| Identifiers.EscapeFilter | app/services/ldap_auth.py:60-82 | the loop over the characters computes `Escaped` |
| Identifiers.EscapeDecodes | app/services/ldap_auth.py:60-82 | for every string the output is a valid assertion value of section 3 of RFC 4515, so it has no bare metacharacter, and decodes to the input |
| Documents.ValidateAttributes | app/services/model_io.py:135-195 | the inner loop computes the attributes read and the complaints made |
| Documents.ValidateDocument | app/services/model_io.py:87-213 | the outer loop, with its early exits, computes `ValidatedDocument` |
| Documents.AttrsRoundTrip | app/services/model_io.py:37-51 | reading exported attributes gives them back, renumbered in order, without complaints |
| Documents.AttrsAccounted | app/services/model_io.py:119-180 | every attribute of a document is either read or has exactly one complaint for leaving it out, and each complaint names its entity |
| DocumentLaws.AttributeMembers | app/services/model_io.py:135-195 | what each member of an attribute reads as when present, missing or of a wrong shape |
| DocumentLaws.HeadMembers | app/services/model_io.py:196-210 | the same of an entity; approval and soft deletion are on unless turned off |
| DocumentLaws.NumberMeans | app/services/model_io.py:216-222 | whole numbers and their texts read as themselves, reals are cut off towards zero |
| DocumentLaws.AttributesMean | app/services/model_io.py:119-195 | the attributes read are exactly the first of each accepted name with a known type, and the complaints are exactly those true of some item |
| DocumentLaws.DocumentMeans | app/services/model_io.py:87-213 | the definitions of a document are exactly those of its entities, and the complaints are exactly: a foreign version, no entities, and what is true of one of them |
| DocumentLaws.BlockingMeans | app/api/v1/models_api.py:375-423 | a complaint blocks the import iff it is not of a missing business key and nothing it quotes contains the word; which data each kind quotes is spelled out |
| DocumentLaws.AlarmingMeans | app/api/v1/models_api.py:375-423 | a text counts as containing the word iff it stands somewhere in it, in any letter case |
| Documents.DocumentRoundTrip | app/services/model_io.py:87-213 | validating the exported form of any well-formed definitions gives them back, attributes renumbered, with nothing blocking |
| Documents.AlarmingEntityImported | app/api/v1/models_api.py:375-423 | an entity whose name contains "warning" never adds a blocking complaint; it is imported with the attributes that could be read, the others dropped |
| Documents.AlarmingDocumentImported | app/api/v1/models_api.py:375-423 | nothing in a document of such entities is ever found blocking |
| Definitions.DiffAfterImport | app/services/model_io.py:225-342 | after importing with `replace` the diff is `no_change`; without it nothing is added or changed and the removed set is what the diff had reported |
| Definitions.ImportEach | app/services/model_io.py:277-342 | after importing distinct definitions each entity is what importing its own made it |
| Definitions.ExportImportNoChange | app/services/model_io.py:37-67 | exporting stored entities and diffing the document reports no change |
| Definitions.PublishFindsSnapshot | app/api/v1/models_api.py:251-284 | publishing always finds a snapshot of the version and never inserts one |
| Revisions.CreateMeans | app/api/v1/models_api.py:72-125 | a created entity is a draft at version 1 with the request's head and exactly its attributes, each as given up to position and a made-up display name |
| Revisions.CreateRefused | app/api/v1/models_api.py:72-125 | a create request fails iff a name is not accepted or not storable, the entity exists, or attributes are missing or repeated |
| Revisions.UpdateMeans | app/api/v1/models_api.py:137-184 | an update leaves exactly the attributes of the request, each the last given under its name; the others are gone; the head is the request's but for name, threshold and an empty display name |
| Revisions.UpdateRefused | app/api/v1/models_api.py:137-184 | an update fails iff a name is not accepted or not storable, or an attribute already stored comes without a display name |
| Revisions.ImportMeans | app/services/model_io.py:277-342 | an import stores head and attributes as they are, keeps the stored attributes it does not name unless replacing, and goes one version up |
| Revisions.ImportRefused | app/services/model_io.py:277-342 | an import fails as a whole iff some name is not snake case, some display name is missing or some attribute is repeated |
| Revisions.DiffMeans | app/services/model_io.py:225-274 | the dry run reports exactly the names on one side only and those whose type, sizes, required or unique flag differ |
| Revisions.PublishMeans | app/api/v1/models_api.py:251-284 | publishing changes status and published version, marks that version's snapshot, and nothing else |
| Revisions.DeleteMeans | app/api/v1/models_api.py:308-334 | a deletion takes the entity and its snapshots and leaves all others |
| Definitions.LedgerKept | app/api/v1/models_api.py:94-119 | over any run of create, update, import, publish and delete: snapshots are exactly 1..version without duplicates; draft means never published, published means at this version, modified means at an earlier one |
| Publishing.PublishedMeans | app/api/v1/models_api.py:208-284 | over any run of create, update, import and publish, an entity published at version v has a snapshot of v, and its staging, live and history tables have exactly that snapshot's columns and types iff its last publish reported nothing destructive |
| Publishing.AlwaysSynchronized | app/api/v1/models_api.py:208-284 | in every such run, tables exist exactly for entities published or modified, all with builder-made types, and match the attributes of each published entity iff its last publish was not destructive |
| Deployments.ColumnMeans | app/services/ddl.py:91-111 | which column an attribute becomes, field by field, and that only a bad name or unknown type is refused |
| Deployments.PlanMeans | app/api/v1/models_api.py:208-240 | when a publish has a plan, and whether it migrates the deployed tables or creates them |
| Deployments.DeploymentMeans | app/api/v1/models_api.py:208-284 | a publish that does not go through changes nothing; one that does leaves the tables of its statements, the version marked, and every other entity alone |
| DefinitionStore.Store.CreateEntity | app/api/v1/models_api.py:72-125 | creates version 1 as a draft with its snapshot, or refuses and changes nothing |
| DefinitionStore.Store.UpdateEntity | app/api/v1/models_api.py:137-184 | stores the next version with its snapshot and the right status, its attributes as `Revisions.UpdateMeans` says, or changes nothing |
| DefinitionStore.Store.DiffOne | app/services/model_io.py:225-274 | the comparison of names and fields computes the report of `Diff` for one definition |
| DefinitionStore.Store.DiffAgainstExisting | app/services/model_io.py:225-274 | reports, for each definition, what an import would add, remove and change, and changes nothing |
| DefinitionStore.Store.ApplyImport | app/services/model_io.py:277-342 | all definitions are created or merged as their next version, or none |
| DefinitionStore.Store.PublishEntity | app/api/v1/models_api.py:251-284 | marks the current version published and its snapshot deployed iff the attempt got through, else changes nothing |
| Publisher.ColumnsFromEntity | app/services/ddl.py:91-111 | the attributes become columns one by one, or the first refused name or type stops it |
| Publisher.PublishEntity | app/api/v1/models_api.py:208-284 | plan, confirmation, execution and marking leave store and tables as `Deployment` says, and any publish that does not get through changes neither |

## Left out

- PostgreSQL: concurrent transactions, the behaviour of an aborted transaction, and truncation of trailing spaces beyond a varchar. A row that fails during promotion is modelled as failing before its staging insert.
- Identity columns are row positions, without the gaps that rolled-back transactions leave; a generated `mdm_id` that was used before counts as a key violation.
- PipelineTables.Tables.PromoteLandingToStaging: the text of a failed row's error, and the cut-off of the list stored with the batch.
- Validation.ValidateRecord: errors are a set of field and code rather than an ordered list of messages.
- Values: case and whitespace rules are ASCII; dates, timestamps, floats, decimals, UUIDs, JSON and configured patterns are opaque conversions and predicates; equality of non-text values is structural.
- GoldenRules.FaultlessFits: texts and integers only; the precision and scale of decimals are not covered.
- Normalization.NormalizeIdempotent: leaves out `title`, `strip_punctuation` and `nullify_empty`.
- MatchKeyLaws.MatchSearchSound: leaves out golden values of opaque types, whose PostgreSQL and Python texts differ.
- MigrationLaws.PlanExecutes: failures that depend on stored data (a unique index over duplicates, a cast) are not modelled, and an impossible numeric precision or scale is taken as executable.
- MigrationLaws.NothingIsLost: is about texts and whole numbers; fractions, dates and other opaque values count as fitting everywhere.
- MigrationLaws.Convergence: is about columns and types; nullability and indexes play no part.
- MigrationEngine.Database.BuildAlterPlan: the check of the entity's own name is not repeated here; it is made when the definition is stored.
- Definition changes during a pipeline run, drop plans and tables left over from a deleted entity.
- Identifiers.StringDefaultReadsBack: whether a numeric default reads as a number is a parameter.
- Documents.DocumentRoundTrip: document members are an enumerated set of keys; JSON and YAML text is not parsed, and `results` limits are not modelled.
- DefinitionStore.Store.PublishEntity: how far the attempt got is a parameter here; `Publisher.PublishEntity` derives it.
- Publishing.PublishedMeans: deletions are left out, since tables left over from a deleted entity are; the order in which attributes are delivered is a parameter.
- BulkCauses.BulkAccounts: where rows that can still go through contend for a unique value, the outcome is given turn by turn only (`Bulk.BulkIsOneByOne`, `BulkCauses.ApprovalViolates`), since it depends on the order of those ids.
- DefinitionStore.Store.ApplyImport: attributes are keyed by name; the order in which they are listed and the change notes are not modelled.
- Audit events, bookkeeping column lengths, listing and search, dashboards, authentication, LDAP traffic, the CSV parser and the user interface.

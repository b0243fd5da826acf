# Verified model of the returns request log

The portal takes return requests from customers, lets an internal team correct and release them, and sends the released
ones to SAP through CPI. Everything it knows of a request is an append-only log of events. Three kinds of writer share the
logs, with no transaction and no lock across processes: intake, review, and any number of dispatch runners. They meet only
in `append_event`, which takes the sequence number the caller last saw.

This project models that system in Dafny and proves what the writers together guarantee. `dafny verify dfyconfig.toml`
checks it.

## How it is laid out

- **Log and fold.** `Events` and `Folding`: the events, the state they fold to, and what each folded field says of the log.
- **Two stores, one contract.** `Repository` says what appends and reads answer; `MemoryStore` is the atomic store;
  `SqlStore` works on a table keyed by submission and sequence number; `Listing` compares exact and pushed-down listings;
  `Repositories` puts both behind one port; `Concurrency` lets any number of two-statement appends interleave; `Executors`
  retries the insert over failing connections.
- **Values.** `Decimals`, `FieldSpecs` and `Validator`; `FieldRules` says of the values alone what the validator makes of
  them; `ReferenceData`, `Attachments`, and the services `Intake` and `Review` with what they share in `Services`.
  `LostSubmits` joins intake and the executors.
- **Protocol.** `Dispatch` is the job. `Protocol` says which event may follow which log and shows that all three writers
  obey it; `LogLaws` draws the consequences for single logs; `Runs` interleaves the writers, their slow processes and their
  crashes; `RunLaws` has the theorems about whole runs, `CalledKeys` counts the keys that CPI sees for a request, and
  `Duplicates` has a run with two. `Liveness` says which requests can still be moved, over either store; `Termination` that
  those the job sees often enough finish; `Interleaved` that this also holds with everybody else at work meanwhile.
  `TwoStepRuns` shows that runs over `Concurrency`'s two statements are such runs. `Instances` has runs that end badly.
- **Reaper.** `Reaper` is one run of it; `ReaperRuns` interleaves reapers with submits in time.

Code that updates state in place is a class with methods (`State`, the two repositories, the services, `CpiClient`,
`AttachmentStore`, `FilesClient`, the executors); each method is proved against a function of the old state.

## Where the code and its descriptions differ

The model follows the code.

- Claiming does not clear the error (`src/retpack_core/fold.py:114-116`), so a retry in flight is not protected by the
  stale window that `src/retpack_jobs/cpi_dispatch.py:27-29` describes: see `LogLaws.WindowProtectsIff`, and
  `Instances.AnyRetryCanBePicked` for the runs.
- A claim lost on the last attempt leaves a request that no writer can move again, and a thousand of them block every older
  pending request. Over SQL, status listings fold only the newest 5,000 submissions, so a released request behind that many
  is never dispatched, however few are released: see `Liveness.MovableIff` for exactly which requests can still be moved,
  `Instances.AnyRequestCanGetStuck` and `Dispatch.StarvedExample`. Crash-free rounds finish every request that they see
  often enough: see `Termination.RequestsFinish`.
- `docs/USER_MANUAL.md:170` says that a fresh key after a correction prevents a duplicate order. There is a run in which one
  request is called under two keys, so that CPI has nothing to recognise it by: see `Duplicates.TwoKeys`. The log counts the
  keys: one for every VALIDATED in it, but for a latest one not called yet. See `CalledKeys.KeysAreCounted`, and
  `CalledKeys.OneKeyIff` for when there is at most one.
- A filtered SQL listing may miss requests beyond its candidates: see `Listing.ListedIff` and `Listing.PushedListingExactIff`,
  and `Listing.PushedListingMisses` for eleven requests that show it.
- `quantize` is outside the `try` (`src/retpack_core/fieldspec/validator.py:146-152`), so a long decimal raises instead of
  being reported: see `Validator.RaisesIff`.
- Options are asked for the account as typed but the request is stored under the stripped one
  (`src/retpack_core/services/intake.py:92-104`). A customer that owns two ids differing only in surrounding blanks can have
  a request accepted that cannot be released: see `Intake.UnplainAccountsGetStuck`.
- The reaper leaves young objects alone so that a submit in flight is never raced (`src/retpack_jobs/reaper.py:3-4`). That holds
  exactly for submits that append in less than the grace period and up to 100,000 submissions: see `ReaperRuns.SafeIff`.
- The two repositories raise different errors for some creates over an existing id: see `SqlStore.StoresAgree`.
- When an insert commits but its statement fails, the retry reports a lost race: see `Executors.AnswerIsExactIff`. When the
  insert is that of a submit, intake then removes the PDFs (`src/retpack_core/services/intake.py:86-88`) of a request that
  exists: see `LostSubmits.SubmitLosesPdfsIff`.

## Assumptions

- The form, the reference rows, the attachment policy, the attempt limit and the store are fixed during a run
  (`Services.Config`).
- Regular-expression matching, reading and formatting dates, and digests are deterministic functions; a formatted date reads
  back as the same day (`Validator.DayNumbersAreOk` has an instance).
- Every SQL statement is atomic, and payloads survive being stored.
- One clock: appends, modification times and the reaper's cutoff are compared in the same time.
- CPI answers with an order, a rejection, a transient error or some other exception, or never.

## Model

| member | source | states |
|---|---|---|
| `Folding.State.ApplyEvent` | src/retpack_core/fold.py:84-89 | one event updates the accumulator in place to the next state; a second SUBMITTED is refused |
| `Folding.FoldEvents` | src/retpack_core/fold.py:151-184 | the sorting and checking loop returns the specified state or the error of the first offending event |
| `Folding.FoldSucceedsIff` | src/retpack_core/fold.py:151-184 | `fold` succeeds exactly on rearrangements of a log numbered 1..n, SUBMITTED first and nowhere else, one submission, one account; the result is that log's state |
| `Folding.FoldFails` | src/retpack_core/fold.py:151-184 | a failing fold says what is wrong with the first event, in sequence order, that does not continue a log |
| `Folding.FoldIgnoresOrder` | src/retpack_core/fold.py:151-184 | a successful fold gives the same result for every permutation of its input |
| `Folding.FoldIsIncremental` | src/retpack_core/fold.py:151-184 | folding a log and one next event is applying that event to the folded log |
| `Folding.SortedArrangementUnique` | src/retpack_core/fold.py:166-179 | a gapless log is the only sequence-ordered arrangement of its events |
| `Folding.FoldedProvenance` | src/retpack_core/fold.py:66-82 | identity, submitter and original values are those of the first event for ever |
| `Folding.FoldedStatus` | src/retpack_core/fold.py:105-128 | the status is the one the latest status-setting event leads to |
| `Folding.FoldedAttempts` | src/retpack_core/fold.py:105-116 | the attempts are the dispatches since the latest validation |
| `Folding.FoldedValidation` | src/retpack_core/fold.py:105-111 | the validation fields are those of the latest VALIDATED |
| `Folding.FoldedError` | src/retpack_core/fold.py:105-128 | an error is shown exactly when the latest event bearing on it is a failure |
| `Folding.FoldedReference` | src/retpack_core/fold.py:119-122 | the CPI reference is the one given last |
| `Folding.FoldedCreditNote` | src/retpack_core/fold.py:131-132 | the credit note is the latest one recorded |
| `Folding.FoldedValues` | src/retpack_core/fold.py:96-102 | each field holds what its latest overwrite put there, else the customer's value |
| `Folding.FoldedAttachments` | src/retpack_core/fold.py:92-93 | the attachments are those submitted, then those added, in order |
| `Folding.RedoGivesCurrent` | src/retpack_core/fold.py:96-102 | replaying the audit trail on the original values gives the current ones, cleared fields included |
| `Folding.UndoGivesOriginal` | src/retpack_core/fold.py:96-102 | if every prior is faithful, undoing the trail newest first gives back the original values |
| `Repository.AcceptedIff` | src/retpack_adapters/mock/submissions.py:22-48 | an append is accepted exactly when the caller may make it and it keeps every log well formed |
| `Repository.RefusalTells` | src/retpack_adapters/mock/submissions.py:22-48 | which refusal means what: nothing visible there, a log that has moved on, or an event that cannot follow |
| `Repository.HiddenIsAbsent` | src/retpack_adapters/mock/submissions.py:22-57 | reads and appends on a log out of scope are answered as if it did not exist |
| `MemoryStore.InMemorySubmissionRepository.AppendEvent` | src/retpack_adapters/mock/submissions.py:22-40 | answer and new state of the atomic append, every refusal with its kind |
| `MemoryStore.InMemorySubmissionRepository.Create` | src/retpack_adapters/mock/submissions.py:42-48 | the first append of a submission |
| `MemoryStore.InMemorySubmissionRepository.GetEvents` | src/retpack_adapters/mock/submissions.py:50-57 | the whole log, or not found when absent or out of scope alike |
| `MemoryStore.InMemorySubmissionRepository.GetSubmission` | src/retpack_adapters/mock/submissions.py:59-61 | the folded log, or not found |
| `MemoryStore.InMemorySubmissionRepository.ListSubmissions` | src/retpack_adapters/mock/submissions.py:63-78 | the newest `limit` visible submissions of the status, whatever order the dict is walked in |
| `Listing.PushedListingExactIff` | src/retpack_adapters/sql/submissions.py:99-126 | a filtered SQL listing is a prefix of the exact answer, and equals it exactly when it is full or nothing past the candidates has the status |
| `Listing.ListedIff` | src/retpack_adapters/sql/submissions.py:99-126 | a status listing of either store shows a submission exactly when fewer than `limit` newer ones have its status and, over SQL, fewer newer ones exist than candidates |
| `Listing.ListedInOrder` | src/retpack_adapters/sql/submissions.py:125-126 | listings of either store go from the latest submission to the earliest, ties by id, up to the limit |
| `Listing.NewerIdsGrow` | src/retpack_adapters/sql/submissions.py:107-112 | as logs grow, no submission ever moves forward in the listings |
| `Listing.UnfilteredListingExact` | src/retpack_adapters/sql/submissions.py:99-126 | without a status filter the pushed limit loses nothing |
| `Listing.PushedListingMisses` | src/retpack_adapters/sql/submissions.py:107-107 | eleven concrete requests for which a filtered listing of limit 1 misses its only member |
| `Listing.ReadsSeeOnlyOwnLogs` | src/retpack_adapters/mock/submissions.py:50-86 | stores that agree on a caller's own logs answer every read alike |
| `SqlStore.SqlSubmissionRepository.AppendEvent` | src/retpack_adapters/sql/submissions.py:32-63 | without interleaving, the two statements accept what the in-memory append accepts and reach the same logs |
| `SqlStore.SqlSubmissionRepository.GetEvents` | src/retpack_adapters/sql/submissions.py:85-93 | row-level scoping returns a whole log or not found, as in memory |
| `SqlStore.SqlSubmissionRepository.GetSubmission` | src/retpack_adapters/sql/submissions.py:95-97 | the folded log, or not found |
| `SqlStore.SqlSubmissionRepository.ListSubmissions` | src/retpack_adapters/sql/submissions.py:99-126 | the joined, grouped, folded and filtered rows are the pushed listing |
| `SqlStore.StoresAgree` | src/retpack_adapters/sql/submissions.py:32-63 | both repositories accept the same appends, and name different errors exactly for certain creates over an existing id |
| `SqlStore.ErrorsDifferExample` | src/retpack_adapters/sql/submissions.py:38-45 | a concrete create that one store calls a bad event and the other a conflict |
| `SqlStore.SelectionIsLog` | src/retpack_adapters/sql/submissions.py:128-135 | the scope fragment on rows selects a whole log or nothing, since a log has one account |
| `SqlStore.OwnRowsDecide` | src/retpack_adapters/sql/submissions.py:85-135 | tables that agree on a scoped caller's rows answer its reads alike |
| `Concurrency.Linearises` | src/retpack_adapters/sql/submissions.py:32-63 | after any interleaving of any number of two-step appends, with crashes and with answers lost and inserts sent again, the table holds the logs of an atomic store asked the same requests in order, and every answer is that store's |
| `Concurrency.OkIsTrue` | src/retpack_adapters/sql/submissions.py:42-45 | the event of an append that was answered with success is in the table for good |
| `Repositories.SubmissionRepository.AppendEvent` | src/retpack_adapters/sql/submissions.py:32-45 | behind the port either store appends alike, and answers alike unless it is a create |
| `Repositories.SubmissionRepository.GetEvents` | src/retpack_adapters/sql/submissions.py:85-93 | behind the port either store answers a read with the whole log or not found |
| `Repositories.SubmissionRepository.ListSubmissions` | src/retpack_adapters/sql/submissions.py:99-126 | behind the port the listing is the exact one or the one with the limit pushed down, by store |
| `Concurrency.InsertIsAtomicAppend` | src/retpack_adapters/sql/submissions.py:42-45 | a checked insert takes effect exactly when the whole append, made at that instant, would |
| `Concurrency.RowsStayWellFormed` | src/retpack_adapters/sql/executor.py:57-90 | in every reachable table the rows of a submission are 1..n, of one account, SUBMITTED exactly at 1 |
| `TwoStepRuns.TwoStepRunsAreRuns` | src/retpack_adapters/sql/submissions.py:32-63 | every run of the writers in which each append is a check and an insert, some of whose answers are lost and sent again, ends with the logs and calls of a run with atomic appends, its processes being those that lost no answer |
| `TwoStepRuns.CallsPerKeyStayBounded` | src/retpack_jobs/cpi_dispatch.py:95-115 | so there too CPI is called at most `max_attempts` times under one key |
| `Executors.Warehouse.Run` | src/retpack_adapters/sql/executor.py:57-90 | one execution of insert-if-absent, which may commit and still fail |
| `Executors.DeltaExecutor.WithSessionRetry` | src/retpack_adapters/delta/executor.py:64-72 | one or two executions, two exactly after a session error |
| `Executors.DeltaExecutor.Execute` | src/retpack_adapters/delta/executor.py:87-99 | at most six executions; the answer is the last one's, all earlier ones failed; a concurrency error is passed on only after three |
| `Executors.LakebaseExecutor.Execute` | src/retpack_adapters/lakebase/executor.py:66-80 | one or two executions, two exactly after an operational error |
| `Executors.RetriesKeepUnique` | src/retpack_adapters/delta/executor.py:87-111 | however often the statement runs, there is at most one row per submission and sequence number |
| `Executors.AnswersAreTrue` | src/retpack_adapters/delta/executor.py:101-111 | 1 is answered only if the event is in the table, 0 only if its place is taken |
| `Executors.AnswerIsExactIff` | src/retpack_adapters/delta/executor.py:64-111 | the answer tells whether the event went in exactly when no execution before the last inserted it and still failed |
| `Executors.LostAnswer` | src/retpack_adapters/delta/executor.py:64-111 | in that case, whatever the script, the event is in the table and the caller is told 0 |
| `Executors.CommitsUntoldIff` | src/retpack_adapters/delta/executor.py:64-111 | counting failing calls too, the event is in the table with its caller not told so exactly when some execution inserted it and failed |
| `Executors.LosesAnswerExample` | src/retpack_adapters/delta/executor.py:64-111 | two concrete executions that lose the answer |
| `Decimals.QuantizeNearest` | src/retpack_core/fieldspec/validator.py:152-152 | rounding is within half a unit of the last place, ties to even |
| `Decimals.LessIff` | src/retpack_core/fieldspec/validator.py:163-168 | numbers compare as integers do once both are counted in any common power of ten; the order has nothing to do with how they are written |
| `Decimals.FractionOrder` | src/retpack_core/fieldspec/validator.py:163-168 | numbers with decimals are ordered as their coefficients, each multiplied by the other's unit |
| `Decimals.ParseDecimalIff` | src/retpack_core/fieldspec/validator.py:157-160 | exactly a sign, up to 30 digits and up to 10 decimals in at most 40 characters are read, as the number they denote |
| `Decimals.PrintedWhole` | src/retpack_core/fieldspec/validator.py:154-154 | a printed decimal has a sign exactly when negative and no superfluous zero in front |
| `Decimals.QuantizeFailsIff` | src/retpack_core/fieldspec/validator.py:152-152 | `quantize` raises exactly when rounding reaches the precision's limit of digits, given as a condition on the input |
| `Decimals.ParsePrinted` | src/retpack_core/fieldspec/validator.py:142-160 | reading a printed decimal gives the number printed |
| `Decimals.PrintedDecimals` | src/retpack_core/fieldspec/validator.py:154-154 | a printed decimal ends in exactly `scale` digits after the point |
| `FieldSpecs.CheckAndSort` | src/retpack_core/fieldspec/schema.py:147-161 | a form is accepted exactly when section and field names are unique and sections known; its fields are the given ones in display order |
| `FieldSpecs.BeforeIff` | src/retpack_core/fieldspec/schema.py:159-159 | the display order: declared section order, then order number, then name |
| `FieldSpecs.AccountFieldIsFirst` | src/retpack_core/fieldspec/schema.py:178-184 | of several fields that select an account the one displayed first decides |
| `FieldSpecs.NonBlankMembers` | src/retpack_core/fieldspec/schema.py:108-113 | inline options are the non-blank pieces between commas, stripped |
| `FieldSpecs.RulesFitIff` | src/retpack_core/fieldspec/schema.py:65-106 | the loader's checks on a field all pass exactly when every rule it declares is one for its type and its bounds leave room |
| `FieldSpecs.SortedIsLoaded` | src/retpack_core/fieldspec/schema.py:65-106 | an accepted form whose field rules fit their types is one the services may rely on |
| `Validator.ValidateValues` | src/retpack_core/fieldspec/validator.py:46-79 | the two loops return the specified values, errors or exception |
| `FieldRules.FormChecked` | src/retpack_core/fieldspec/validator.py:46-79 | unknown names are reported as such, every field by its own value or messages, nothing else appears, and the form raises exactly when a field does |
| `FieldRules.BlankChecked` | src/retpack_core/fieldspec/validator.py:82-96 | a blank value is none or reported as required, and no other value is |
| `FieldRules.BlankIff` | src/retpack_core/fieldspec/validator.py:95-96 | blank is null and any string of blanks |
| `FieldRules.ShownAs` | src/retpack_core/fieldspec/validator.py:111-112 | what `str` makes of booleans, dates and integers, the last read back as themselves |
| `FieldRules.TextChecked` | src/retpack_core/fieldspec/validator.py:111-118 | a text is stored stripped exactly when it fits length and pattern, and otherwise every broken rule is reported |
| `FieldRules.IntegerChecked` | src/retpack_core/fieldspec/validator.py:128-139 | an integer field reads exactly the integers, typed or as text, and accepts one exactly within its bounds, naming the first bound broken |
| `FieldRules.IntegerRange` | src/retpack_core/fieldspec/validator.py:128-168 | with whole bounds n is accepted exactly when lo <= n <= hi |
| `FieldRules.ParseIntegerIff` | src/retpack_core/fieldspec/validator.py:133-136 | exactly a sign and up to 39 digits in at most 40 characters are read as an integer, which is the one they denote |
| `FieldRules.IntegerReadsBack` | src/retpack_core/fieldspec/validator.py:133-136 | the text of an integer is read as that integer |
| `FieldRules.DecimalChecked` | src/retpack_core/fieldspec/validator.py:142-160 | a decimal field reads exactly the numerals, rounds them half to even, raises exactly on overflow, and then accepts exactly within its bounds, storing a text that reads back as the rounded number |
| `FieldRules.DecimalRange` | src/retpack_core/fieldspec/validator.py:163-168 | with bounds of any scale the comparison is one of scaled integers |
| `FieldRules.DateChecked` | src/retpack_core/fieldspec/validator.py:171-179 | a date, a date with time and a readable text are stored as their day, anything else is refused |
| `FieldRules.EnumChecked` | src/retpack_core/fieldspec/validator.py:182-187 | exactly an offered value is stored, inline options before those of the caller |
| `Validator.FieldsContribute` | src/retpack_core/fieldspec/validator.py:46-79 | every field contributes exactly its value or its messages, and nothing else appears |
| `Validator.StandsIff` | src/retpack_core/fieldspec/validator.py:82-187 | a stored value passes again unchanged exactly when it obeys its field's declared rules |
| `Validator.DecimalMeaning` | src/retpack_core/fieldspec/validator.py:142-168 | what a decimal field stores: its decimals, its rounding, a number within the bounds, and itself when coerced again |
| `Validator.RaisesIff` | src/retpack_core/fieldspec/validator.py:142-154 | validation of a field raises exactly for a decimal with too many digits once rounded |
| `Validator.RaisesExample` | src/retpack_core/fieldspec/validator.py:152-152 | at 28 digits, 10^26 in an unbounded field with two decimals raises |
| `Validator.FieldIdempotent` | src/retpack_core/fieldspec/validator.py:82-187 | a value accepted once is accepted again, unchanged, under the same options or more |
| `Validator.FormIdempotent` | src/retpack_core/fieldspec/validator.py:46-79 | values accepted by the form pass it again, unchanged, under the same options or more |
| `Validator.PassUnchangedIff` | src/retpack_core/fieldspec/validator.py:46-79 | values pass unchanged exactly when every field's value stands and no other names occur |
| `ReferenceData.EnumChoices` | src/retpack_core/services/options.py:19-35 | the loop offers every enum field its choices and no other field any |
| `ReferenceData.ChoicesAreOffers` | src/retpack_core/services/options.py:19-61 | a dropdown shows exactly the rows behind it that the caller may see, with their codes as values and code and name as labels |
| `ReferenceData.OptionsAreOffers` | src/retpack_core/services/options.py:38-61 | a value passes as an option exactly when one of those rows has it |
| `ReferenceData.SelectKeepsOrder` | src/retpack_core/services/options.py:43-61 | filtering keeps the order of the rows |
| `ReferenceData.OptionsWiden` | src/retpack_core/services/options.py:38-55 | what a customer is offered for an account, the internal team is offered too |
| `ReferenceData.OfferedIsOwn` | src/retpack_adapters/mock/reference.py:19-42 | a customer is offered only its own accounts, and SKUs only of an account of its own |
| `Attachments.CheckAttachments` | src/retpack_core/services/intake.py:118-132 | no message exactly when every upload is a PDF of a declared type, every type has as many as it needs and allows, and no content comes twice; otherwise exactly the offending types are named, each with its reason |
| `Attachments.CheckCounts` | src/retpack_core/attachments.py:58-75 | the two loops report exactly unknown types and types with too few or too many attachments |
| `Attachments.CountOfIs` | src/retpack_core/services/intake.py:118-121 | a type's count is the number of its uploads |
| `Attachments.AttachmentStore.Put` | src/retpack_adapters/attachments/volume.py:32-60 | a stored object lies at its own path with the described metadata; a failure leaves nothing behind |
| `Attachments.AttachmentStore.Delete` | src/retpack_adapters/attachments/volume.py:70-82 | only objects of the caller's own submission directory are removed |
| `Prelude.SetSizeIff` | src/retpack_core/services/intake.py:130-131 | comparing the size of the digest set with the list detects exactly a repeated digest |
| `Attachments.PathsDistinct` | src/retpack_adapters/attachments/common.py:43-45 | differently numbered attachments of a submission never share a path |
| `Attachments.DirectoriesApart` | src/retpack_adapters/attachments/volume.py:74-82 | with ids free of slashes no submission's objects lie in another one's directory |
| `Services.ReleasableIff` | src/retpack_core/services/review.py:71-75 | releasable values are exactly those that `validate` finds unchanged and without error, whoever of the internal team calls |
| `Services.UnscopedOptions` | src/retpack_adapters/mock/reference.py:19-42 | all callers without account scope are offered the same |
| `Services.ReleasableMeans` | src/retpack_core/services/review.py:71-75 | releasable values are exactly those that meet the form's declared rules under the internal options |
| `Review.ReviewService.Load` | src/retpack_core/services/review.py:80-90 | the checks before any command, in their order |
| `Review.ReviewService.Append` | src/retpack_core/services/review.py:92-94 | the event is appended and folded into the returned state |
| `Review.ReviewService.OverwriteField` | src/retpack_core/services/review.py:36-59 | an overwrite appends one event with the prior value, or refuses and changes nothing; the returned state has the caller and the time on record |
| `Review.ReviewService.Validate` | src/retpack_core/services/review.py:61-78 | a release appends one VALIDATED event, or refuses and changes nothing; the returned state was validated by the caller, at that time and position |
| `Review.DecidedBy` | src/retpack_core/services/review.py:36-78 | every event of an accepted command has the caller as its actor, the internal role, and the time of the command |
| `Review.RefusalTells` | src/retpack_core/services/review.py:36-90 | a refusal names the first thing in the way: role, sequence number, status, field or values |
| `Review.OverwriteMeaning` | src/retpack_core/services/review.py:36-59 | a successful overwrite stores what the validator made of the new value and records the value it replaced |
| `Review.OverwriteKeepsReleasable` | src/retpack_core/services/review.py:31-59 | an overwrite leaves the values releasable and the owning account as it was |
| `Intake.IntakeService.Submit` | src/retpack_core/services/intake.py:59-90 | over either store all or nothing: one new one-event log in an account the caller owns and every upload stored, or no change at all and the error of the check that refused; only an append that commits and raises leaves the log without the uploads |
| `LostSubmits.SubmitLosesPdfsIff` | src/retpack_core/services/intake.py:81-88 | an accepted request with PDFs ends as a submission that references objects which are gone exactly when an execution of its insert commits unseen; then all are gone and the submit is reported as failed |
| `LostSubmits.LostSubmitHappens` | src/retpack_core/services/intake.py:81-88 | a concrete configuration, customer, upload and insert for which it happens |
| `Intake.IntakeService.Persist` | src/retpack_core/services/intake.py:79-90 | once a request is admitted: uploads and append together, or neither, but for an append that commits and raises |
| `Intake.IntakeService.StoreAll` | src/retpack_core/services/intake.py:79-83 | uploads are stored with sequence numbers 1..n, up to the first failure |
| `Intake.IntakeService.Discard` | src/retpack_core/services/intake.py:111-116 | what was stored is removed and the store is as before |
| `Intake.StoredContent` | src/retpack_core/services/intake.py:79-83 | every stored upload keeps its own content |
| `Intake.AdmissionIff` | src/retpack_core/services/intake.py:68-77 | a request is admitted exactly when a customer makes it, the attachments are acceptable, the values pass, and the account they name is the caller's |
| `Intake.AccountFromIff` | src/retpack_core/services/intake.py:92-95 | no account is asked for exactly on null, the empty string, zero and False |
| `Intake.WarningsIff` | src/retpack_core/services/intake.py:145-146 | exactly the attachments without a text layer are warned of |
| `Intake.WarningsCount` | src/retpack_core/services/intake.py:145-146 | with one warning each |
| `Intake.AccountIsStored` | src/retpack_core/services/intake.py:97-104 | the owning account is the stripped account value, and is the caller's |
| `Intake.AdmittedIsReleasable` | src/retpack_core/services/intake.py:59-104 | what intake accepts can be released, if its options were asked for the owning account |
| `Intake.PlainAccountsRelease` | src/retpack_core/services/intake.py:92-104 | for callers none of whose account ids is another one with blanks around it, everything accepted can be released |
| `Intake.PlainIffReleasable` | src/retpack_core/services/intake.py:92-104 | everything a customer gets accepted can be released, in every configuration, exactly when its account ids are plain |
| `Intake.UnplainAccountsGetStuck` | src/retpack_core/services/intake.py:92-104 | for any other, a request that is accepted and can never be released unchanged |
| `Dispatch.KeysDistinct` | src/retpack_jobs/cpi_dispatch.py:69-73 | distinct validations, of one submission or of two, have distinct keys |
| `Dispatch.PendingWork` | src/retpack_jobs/cpi_dispatch.py:81-92 | over either store the loop returns the listed validated requests, then the listed pending ones with attempts left that failed or are stale |
| `Dispatch.WorkIsExact` | src/retpack_jobs/cpi_dispatch.py:81-92 | the work is current states, each once, and exactly the requests that qualify and are in sight of the store's listing |
| `Dispatch.WorkIsComplete` | src/retpack_jobs/cpi_dispatch.py:81-92 | with at most 1,000 validated and 1,000 pending requests, and over SQL at most 5,000 in all, the work is everything that qualifies |
| `Dispatch.StoresGiveSameWork` | src/retpack_jobs/cpi_dispatch.py:81-92 | up to 5,000 submissions both stores give the same work |
| `Dispatch.StarvedForever` | src/retpack_adapters/sql/submissions.py:107-112 | over SQL a request with 5,000 newer submissions is no run's work, now or however the logs grow |
| `Dispatch.StarvedExample` | src/retpack_adapters/sql/submissions.py:107-107 | a concrete store whose only validated request is work in memory and starved over SQL |
| `Dispatch.DispatchOne` | src/retpack_jobs/cpi_dispatch.py:95-115 | a current snapshot gives one claim, one call under its key with the values that hold on its log and its identifiers, and a state that shows the answer; an outdated one writes nothing and calls nobody |
| `Dispatch.ReportAnswer` | src/retpack_jobs/cpi_dispatch.py:105-115 | each answer is recorded right after the claim, terminal exactly when rejected or out of attempts |
| `Dispatch.PayloadSends` | src/retpack_jobs/cpi_dispatch.py:76-78 | the payload has, for every field, its latest overwrite or else the submitted value, the identifiers under names no field has, and no other names |
| `Dispatch.DispatchIsRecorded` | src/retpack_jobs/cpi_dispatch.py:95-115 | an order makes CPI_DONE with its reference, a rejection CPI_FAILED whatever the attempts, a transient error CPI_FAILED exactly at the limit and else CPI_PENDING, each with its error; an unexpected one leaves the claim last; the outcome is the one the status shows |
| `Dispatch.RunOnce` | src/retpack_jobs/cpi_dispatch.py:118-131 | over either store and whatever CPI answers, every item of work is dispatched once, in order, with one call under its own key with the values of its log, its state shows its answer, the report lists exactly what the logs show, and nothing else changes |
| `Dispatch.LateAppendConflicts` | src/retpack_jobs/cpi_dispatch.py:100-103 | a system append on a log that has grown is a conflict |
| `Protocol.DecidedIsLegal` | src/retpack_core/services/review.py:36-78 | review appends only events the protocol allows |
| `Protocol.ClaimIsLegal` | src/retpack_jobs/cpi_dispatch.py:81-101 | whatever the job picks has a key, and its claim is one the protocol allows |
| `Protocol.ReportIsLegal` | src/retpack_jobs/cpi_dispatch.py:105-115 | the report of any answer is one the protocol allows right after the claim |
| `Protocol.StatusFactsHold` | src/retpack_core/fold.py:105-128 | in every log the writers can produce: VALIDATED has no attempts, a pending one ends in its claim or a retryable failure, and attempts never exceed the limit |
| `Protocol.ValidatedWhenReleased` | src/retpack_core/fold.py:105-111 | there is a validation exactly when the request has left SUBMITTED |
| `LogLaws.StatusesFollowEdges` | src/retpack_core/fold.py:96-128 | statuses move only along the documented steps; overwrites happen only in SUBMITTED and CPI_FAILED |
| `LogLaws.FoldMeetsContract` | docs/data_contract.md:57-67 | the folded status is the one the data contract derives, on every log that can arise |
| `LogLaws.FoldAndContractDiffer` | src/retpack_core/fold.py:125-128 | off those logs it need not be: a concrete log on which they differ |
| `LogLaws.ResultsFollowClaims` | src/retpack_jobs/cpi_dispatch.py:95-115 | every result stands right after the claim of its own attempt |
| `LogLaws.SuccessIsLast` | src/retpack_jobs/cpi_dispatch.py:95-115 | a request succeeds at most once, and then its log is complete |
| `LogLaws.DoneIsFinal` | src/retpack_core/services/review.py:16-16 | no writer extends the log of a request that is done |
| `LogLaws.AttemptsAreNumbered` | src/retpack_jobs/cpi_dispatch.py:95-101 | the k-th claim since the latest validation is attempt k, within the limit, under that validation's key |
| `LogLaws.AttemptsGrow` | src/retpack_jobs/cpi_dispatch.py:95-101 | later claims under one key have higher attempt numbers |
| `LogLaws.ValuesSinceValidation` | src/retpack_jobs/cpi_dispatch.py:76-78 | from its validation until it fails for good, a request keeps the values it was validated with |
| `LogLaws.AuditTrailIsReversible` | src/retpack_core/services/review.py:52-59 | on every log that can arise, the trail leads from the original values to the current ones and back |
| `LogLaws.StaysReleasable` | src/retpack_core/services/review.py:36-78 | if the submitted values can be released so can the current ones, and the owning account never changes |
| `LogLaws.ReleaseSucceeds` | src/retpack_core/services/review.py:61-78 | an up-to-date `validate` of releasable values succeeds |
| `LogLaws.NeverWorkIff` | src/retpack_jobs/cpi_dispatch.py:85-91 | a released request is never work, at any time, exactly when its last attempt was claimed and not reported |
| `LogLaws.ReviewRefusesReleased` | src/retpack_core/services/review.py:80-90 | review refuses every command on a released request |
| `LogLaws.ReleasedIsForTheJob` | src/retpack_core/services/review.py:16-16 | on a released request only the job's events are legal |
| `Liveness.StuckIff` | src/retpack_jobs/cpi_dispatch.py:81-92 | no writer that reads either store as it is can move a released request exactly when its last claim is lost or no listing gets as far as it |
| `Liveness.UnpickedStays` | src/retpack_core/services/review.py:80-90 | a released request that nobody picks and nobody is appending to is left alone by every step of every writer |
| `Liveness.BlockedForever` | src/retpack_jobs/cpi_dispatch.py:81-92 | with nothing under way, a request whose claim is lost, that is past the SQL candidates, or that is behind a listing full of lost claims is never moved again |
| `Liveness.MovableIff` | src/retpack_jobs/cpi_dispatch.py:81-131 | with nothing under way, some continuation moves a released request exactly when it is not blocked in one of these ways |
| `Instances.AnyRequestCanGetStuck` | src/retpack_jobs/cpi_dispatch.py:81-106 | for whatever request a plain customer can get accepted, a run that loses its last claim, after which no continuation ever appends to it |
| `Instances.AnyRetryCanBePicked` | src/retpack_jobs/cpi_dispatch.py:88-90 | with three attempts or more, for whatever such request, a run in which a runner holds the claim of a retry and the request is picked again at once, however long the stale window |
| `Instances.BothHappen` | src/retpack_jobs/cpi_dispatch.py:81-106 | both for a concrete library, configuration, customer and request |
| `Liveness.CanBeMoved` | src/retpack_jobs/cpi_dispatch.py:81-131 | the continuation: runners finish the newer requests in its way, then claim, call and report it |
| `LogLaws.WindowProtectsIff` | src/retpack_jobs/cpi_dispatch.py:88-90 | within the stale window a claim is left alone exactly when attempts are used up or none has failed since the validation |
| `Runs.NextKeepsInv` | src/retpack_jobs/cpi_dispatch.py:95-131 | one step of intake, review or a runner, or a crash, keeps every log good and every pending append legal on what it read |
| `Runs.RunsKeepInv` | src/retpack_core/services/review.py:36-94 | the invariant holds throughout every concurrent run |
| `RunLaws.ReachableLogsAreGood` | src/retpack_jobs/cpi_dispatch.py:95-131 | in every concurrent run every log obeys the writers' rules, so the laws of such logs apply |
| `RunLaws.CallsCarryValidatedValues` | src/retpack_jobs/cpi_dispatch.py:69-106 | every call to CPI carries, for every field, the latest overwrite before the validation its key names, else the submitted value, and apart from that only its identifiers |
| `RunLaws.KeysFixPayloads` | src/retpack_jobs/cpi_dispatch.py:69-106 | two calls share a key exactly when they are for the same validation, and then carry the same payload |
| `RunLaws.CallsPerKeyAreBounded` | src/retpack_jobs/cpi_dispatch.py:81-101 | one key is used for at most `max_attempts` calls, by however many runners |
| `RunLaws.OrdersAreBounded` | src/retpack_jobs/cpi_dispatch.py:69-73 | CPI sees no more distinct keys for a submission than its log has claimed validations |
| `RunLaws.KeysAreOfCalled` | src/retpack_jobs/cpi_dispatch.py:69-106 | the keys CPI sees for a submission are exactly those of the validations it is called for, each with its own |
| `CalledKeys.ResultsComeFromCalls` | src/retpack_jobs/cpi_dispatch.py:95-115 | at every point of every run, every success or failure in a log, and every one a process is about to append, stands right after a claim that CPI was called for |
| `CalledKeys.EarlierWasAnswered` | src/retpack_core/services/review.py:61-90 | review validates again only after a terminal failure, so every validation but the latest has had a result under its own claim |
| `CalledKeys.KeysAreCounted` | src/retpack_jobs/cpi_dispatch.py:69-115 | in every run the number of keys CPI has seen for a submission is the number of VALIDATED events in its log, less one while the latest is not called yet |
| `CalledKeys.LatestCalled` | src/retpack_jobs/cpi_dispatch.py:95-115 | a latest validation with a result in the log was called, and one without a claim was not |
| `CalledKeys.StatusTells` | src/retpack_jobs/cpi_dispatch.py:81-115 | by its status and error a log tells which it is, except while it is CPI_PENDING and no attempt of the latest validation is reported |
| `CalledKeys.OneKeyIff` | src/retpack_jobs/cpi_dispatch.py:69-115 | CPI sees at most one key for a submission exactly when its log has at most one VALIDATED, or two of which the latest is not called yet; with the latest reported, exactly when at most one, with it unclaimed, exactly when at most two |
| `RunLaws.OnlyTheJobAppends` | src/retpack_core/services/review.py:16-16 | in every run the first event appended to a released request is the job's |
| `Duplicates.TwoKeys` | src/retpack_core/services/review.py:61-78 | whatever request a customer gets accepted, some run releases it twice, with a dead letter between, and calls CPI under two keys |
| `Duplicates.TwoKeysHappen` | src/retpack_core/services/review.py:61-78 | a concrete system, customer and run in which this happens |
| `RunLaws.DoneForever` | src/retpack_jobs/cpi_dispatch.py:95-115 | once a request is done no run extends its log |
| `RunLaws.RequestsStayReleasable` | src/retpack_core/services/review.py:61-78 | with plain account ids, every request in every run can be released as it stands |
| `Termination.SettledIsPicked` | src/retpack_jobs/cpi_dispatch.py:81-92 | a released request whose last claim was reported has attempts left, and a run picks it exactly when its listing sees it |
| `Termination.DispatchMakesProgress` | src/retpack_jobs/cpi_dispatch.py:95-115 | an answered dispatch finishes the request or uses up one attempt |
| `Termination.RoundProgress` | src/retpack_jobs/cpi_dispatch.py:118-131 | one round finishes a released settled request or uses up one attempt if it sees it, and leaves it alone if not |
| `Termination.RequestsFinish` | src/retpack_jobs/cpi_dispatch.py:118-131 | such a request has finished once `max_attempts` rounds have seen it, whatever CPI answers and whatever happens to other requests |
| `Termination.StarvedIsLeft` | src/retpack_adapters/sql/submissions.py:107-112 | over SQL a request past the candidates is untouched after any number of rounds |
| `Termination.RunIsRound` | src/retpack_jobs/cpi_dispatch.py:118-131 | what `run_once` does to a good store, with no unexpected errors, is a round for every submission and leaves a good store |
| `Termination.QuietRunsFinishAll` | src/retpack_jobs/cpi_dispatch.py:118-131 | when nobody else writes and at most 1,000 requests are released, every one within the candidates has finished after `max_attempts` runs |
| `Interleaved.DispatchIsRound` | src/retpack_jobs/cpi_dispatch.py:95-131 | from its pick to its report a dispatch is a round for its request, whatever customers, reviewers and other runners do in between |
| `Interleaved.LeftBetweenRounds` | src/retpack_core/services/review.py:80-90 | between rounds the steps of all others leave a released request as it is |
| `Reaper.ReferencedPaths` | src/retpack_jobs/reaper.py:31-36 | the loop collects the paths of all listed submissions |
| `Reaper.KnownIff` | src/retpack_jobs/reaper.py:31-36 | a path is kept exactly when a submission with fewer than 100,000 newer ones references it |
| `Reaper.KnownIsReferenced` | src/retpack_jobs/reaper.py:31-36 | with no more submissions than that, these are exactly the referenced paths |
| `Reaper.UnderIff` | src/retpack_adapters/attachments/memory_files.py:31-33 | a listing has exactly the paths that begin with the directory's name and a slash, however many slashes end the name |
| `Reaper.StoredIsUnder` | src/retpack_adapters/attachments/volume.py:74-75 | what the store puts under its root is listed there |
| `Reaper.Reap` | src/retpack_jobs/reaper.py:39-56 | exactly the old unreferenced objects are deleted, none in a dry run; scanned = known + recent + deleted |
| `Reaper.LeftIsReferencedOrRecent` | src/retpack_jobs/reaper.py:39-56 | what is left is exactly what is referenced or recent |
| `ReaperRuns.ReferencedIsStored` | src/retpack_jobs/reaper.py:31-56 | whatever a submission references is in the store, however submits and reapers interleave, if submits append within the grace period |
| `ReaperRuns.SafeIff` | src/retpack_jobs/reaper.py:31-56 | all interleavings of submits and reapers keep every referenced object exactly when submits append less than the grace period after their uploads and there are never more submissions than one listing returns |
| `ReaperRuns.SlowSubmitLoses` | src/retpack_jobs/reaper.py:49-51 | a concrete run in which a submit that takes the grace period finds its object deleted |
| `ReaperRuns.CrowdLoses` | src/retpack_jobs/reaper.py:18-36 | a run with one submission too many in which the reaper deletes a referenced object |
| `ReaperRuns.DeletedIsNeverReferenced` | src/retpack_jobs/reaper.py:39-56 | what a reaper deletes is referenced at no time, before or after |

## Left out

- Screens, session state, command lines, identity providers, user provisioning, migrations, seeding, audit logging, settings.
- SQL text, JSON, connections and cursors: the table is a map, its statements are atomic. Connecting again cannot itself fail
  in `Executors`; such a failure is one before the statement.
- Corrupt logs, which listings skip with a log message: every log here was written through the repositories.
- SQLite's comparison of timestamps as text: times are numbers.
- Writers of ATTACHMENT_ADDED and CREDIT_NOTE_RECORDED: no service writes them, so runs have none; their fold handlers are there.
- Inside PDFs: page counts, text layers and hashing are facts that `put` finds or fails on. File names are not sanitised and
  path segments not checked.
- Compiling regular expressions and the time limit on them; digits outside ASCII, and exponents or infinities as text, in
  numbers; values other than null, strings, integers, booleans, floats, dates and times.
- Attachment deletes that fail during `Intake.IntakeService.Submit`; `ReaperRuns` has no lost answers.
- Keg balances, field labels and help texts, per-size upload limits.
- Logging, back-off delays and locks inside one process.
- Clock readings and fresh ids are parameters: all events of one dispatch run carry the run's `now`, and a new submission id
  is one not in use.

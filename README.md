# Couchbase .NET transactions: the attempt coordinator, modelled in Dafny

This project models the core of the Couchbase distributed-transactions
library for .NET: the `AttemptContext` that runs one attempt of a
transaction against the key-value service. The model covers:

- the read, insert, replace and remove operations;
- commit and rollback;
- the active-transaction-record (ATR) state machine, NOTHING_WRITTEN → PENDING → COMMITTED → COMPLETED, or → ABORTED → ROLLED_BACK;
- the ledger of staged mutations;
- the error triage tables that classify every failure;
- the retry loop RepeatUntilSuccessOrThrow;
- the Monotonic Atomic View (MAV) read;
- the write-write-conflict check;
- the query-error mapping;
- the error builder;
- the transaction metadata check;
- the attempt summary;
- the lost-transaction manager.

Layout, module by module:

- `errors.dfy` (`Errors`): the classified error (`ErrorWrapperException`) and its final-error enum. The class `ErrorBuilder` is `ErrorBuilder.cs` as written, updated in place. The value `Builder`, with `NewBuilder` and `CreateError`, is the builder the disposition tables call; it asks for a rollback unless told otherwise.
- `triage.dfy` (`Triage`): `ErrorTriage`, with one closed disposition table per protocol step and the lemmas about all of them.
- `repeat.dfy` (`Repeat`): `RepeatUntilSuccessOrThrow`.
  - The function `Run` is its specification: outcome, calls and waits.
  - The method with the same loop is proved to compute `Run`.
  - Lemmas cover the call bound, how a run ends, the backoff schedule 1, 10, 100, 100, … ms, and invariants carried through a run.
- `steps.dfy` (`Steps`): the body each protocol step hands to the loop, as a pure function of the fields it touches. The steps are SetAtrPending, SetAtrCommit and its ambiguity resolution, the two unstaging steps, the rollback steps, the write-write-conflict check and the staged-insert loop with its "document exists" sub-protocol.
- `ledger.dfy` (`Ledger`): `_stagedMutations`, with its lookups, kind views, staging updates and read-your-writes. The invariant is one entry per document; it holds for the intended remove update, and the remove as written breaks it (see "## Findings").
- `mav.dfy` (`Mav`): `GetWithMav`, the read that decides between a document's committed and staged content by the writer's ATR entry.
- `protocol.dfy` (`Protocol`): each AttemptContext operation as a function from the attempt's fields (`View`) to the new fields and the reply.
- `protocol_lemmas.dfy` (`ProtocolLemmas`): what the operations guarantee together:
  - read-your-writes;
  - guards that refuse and leave the attempt untouched;
  - one entry per document;
  - the states each operation can move to;
  - overtime never being left;
  - commit and rollback marking the attempt done.
- `attempt.dfy` (`Attempt`): `AttemptContext` as a class with mutable fields. Every method is proved to end with exactly the fields and reply its `Protocol` function gives.
- `query_errors.dfy` (`QueryErrors`): `ChooseQueryError` and `ConvertQueryError`.
- `xattrs.dfy` (`Xattrs`): `TransactionXattrs.ValidateMinimum`.
- `attempt_summary.dfy` (`AttemptSummary`): `TransactionAttempt` and its `ToString`.
- `lost_transactions.dfy` (`LostTransactions`): `LostTransactionManager`'s bucket bookkeeping.
- `states.dfy` (`States`): `AttemptStates` and their printed names.
- `text.dfy` (`Text`): `string.Contains`.

Storage, the ATR repository and the clock are not called. Instead, an `Env` holds the attempt's collaborators:

- A `World` answers each call by the attempt's running call count (the `tick`): writes, ATR state lookups, document lookups, the MAV reads, the conflict check's blocker and elapsed time, and "has the attempt expired".
- `classify` stands for `Exception.Classify()`.
- `mavTriage` stands for `TriageAtrLookupInMavErrors`.
- `atrIdFor` stands for the ATR chosen for a document.

The properties are therefore proved for every behaviour of the collaborators, except where a lemma states a rule about `classify` in its `requires`:

- `Steps.PendingTurnEffect` assumes an expired attempt classifies as FailExpiry (`ExpiryIsFailExpiry`).
- `Steps.ResolveByState` and `Steps.ResolveNeverRollsBack` assume a classified error classifies as TransactionOperationFailed (`WrapsAsOperationFailed`).

## Model

| member | source | states |
|---|---|---|
| Errors.FinalErrorCode | src/Couchbase.Transactions/Error/Internal/ErrorWrapperException.cs:16-26 | the four final errors have codes 0..3, and 0 is exactly TransactionFailed |
| Errors.FinalErrorOfCode | src/Couchbase.Transactions/Error/Internal/ErrorWrapperException.cs:16-26 | a code denotes a final error exactly when it is in 0..3, and that error has that code |
| Errors.FinalErrorCodeRoundTrip | src/Couchbase.Transactions/Error/Internal/ErrorWrapperException.cs:16-26 | reading a final error's code back gives the same final error |
| Errors.OutcomeOf | src/Couchbase.Transactions/Error/Internal/ErrorWrapperException.cs:22-25 | only TransactionFailedPostCommit reports success to the application, and then with unstaging not complete; every other final error is raised as itself |
| Errors.Builder.Build | src/Couchbase.Transactions/Error/ErrorBuilder.cs:68 | the built error carries the builder's class, cause, rollback flag, retry flag and final error unchanged |
| Errors.NewBuilderAsWritten | src/Couchbase.Transactions/Error/ErrorBuilder.cs:11-22 | a fresh builder as declared: final error TransactionFailed, no retry, the generic cause, and the rollback flag false because the field has no initializer |
| Errors.NewBuilder | src/Couchbase.Transactions/Error/ErrorBuilder.cs:11-22 | the intended fresh builder: the same, but asking for a rollback unless told otherwise |
| Errors.CreateError | src/Couchbase.Transactions/Error/Attempts/ErrorTriage.cs:31-42 | the three-argument `CreateError(ctx, ec, err)` the tables call gives a builder of class `ec` holding cause `err`, raising TransactionFailed, asking for a rollback and not for a retry |
| Errors.ApplyEffect | src/Couchbase.Transactions/Error/ErrorBuilder.cs:29-66 | after any chain of fluent calls the class is unchanged, the last RaiseException and the last Cause win, retry is set iff some call was RetryTransaction, and rollback holds iff it held and no call was DoNotRollbackAttempt |
| Errors.AsWrittenNeverRollsBack | src/Couchbase.Transactions/Error/ErrorBuilder.cs:14 | as declared, no chain of builder calls ever yields an error asking for an automatic rollback |
| Errors.RollbackIffNoDoNotRollback | src/Couchbase.Transactions/Error/ErrorBuilder.cs:29-45 | with the intended default, an error rolls back iff no DoNotRollbackAttempt was called, retries iff RetryTransaction was called, and raises the last RaiseException's final error |
| Errors.RetryIdempotent | src/Couchbase.Transactions/Error/ErrorBuilder.cs:41-45 | RetryTransaction sets the retry flag, and calling it twice is calling it once |
| Errors.ErrorBuilder.constructor | src/Couchbase.Transactions/Error/ErrorBuilder.cs:11-27 | a new builder holds the declared defaults: TransactionFailed, no retry, the generic cause, and rollback off because `_rollbackAttempt` has no initializer |
| Errors.ErrorBuilder.RaiseException | src/Couchbase.Transactions/Error/ErrorBuilder.cs:29-33 | the in-place call has exactly the effect of the fluent value's RaiseException |
| Errors.ErrorBuilder.DoNotRollbackAttempt | src/Couchbase.Transactions/Error/ErrorBuilder.cs:35-39 | the in-place call has exactly the effect of the fluent value's DoNotRollbackAttempt |
| Errors.ErrorBuilder.RetryTransaction | src/Couchbase.Transactions/Error/ErrorBuilder.cs:41-45 | the in-place call has exactly the effect of the fluent value's RetryTransaction |
| Errors.ErrorBuilder.SetCause | src/Couchbase.Transactions/Error/ErrorBuilder.cs:47-66 | the given exception becomes the cause, whether it had a stack trace or was rethrown to capture one; nothing else changes |
| Errors.ErrorBuilder.Build | src/Couchbase.Transactions/Error/ErrorBuilder.cs:68 | the error built from the in-place builder is the one its current settings describe |
| Triage.Error | src/Couchbase.Transactions/Error/Attempts/ErrorTriage.cs:40-58 | the helper asks a retry only for an explicit `retry: true`, drops rollback only for an explicit `rollback: false`, and changes the final error only when one is named |
| Triage.AssertNotNull | src/Couchbase.Transactions/Error/Attempts/ErrorTriage.cs:31-38 | the table's error when there is one, otherwise a fresh error of the table's class wrapping the original failure |
| Triage.TriageGetErrors | src/Couchbase.Transactions/Error/Attempts/ErrorTriage.cs:61-80 | a missing document is no error, FailHard raises without rollback, and other classes raise with their class; FailTransient carries no retry, as line 75 writes `retry:false`, although the comment at line 66 says `retry=true` |
| Triage.TriageCreateStagedRemoveOrReplaceError | src/Couchbase.Transactions/Error/Attempts/ErrorTriage.cs:82-98 | always an error; a retry is asked exactly for a missing document, CAS mismatch, transient and ambiguous failures; only FailHard drops the rollback; expiry raises TransactionExpired with an "attempt expired" cause |
| Triage.TriageCreateStagedInsertErrors | src/Couchbase.Transactions/Error/Attempts/ErrorTriage.cs:100-133 | an unsupported feature becomes FailOther; in overtime everything is a non-rollback expiry; otherwise ambiguity, CAS mismatch and an existing document are left to the caller, and of the rest only transient failures retry and only FailHard drops the rollback |
| Triage.TriageDocExistsOnStagedInsertErrors | src/Couchbase.Transactions/Error/Attempts/ErrorTriage.cs:135-148 | the lookup inside the document-exists handling: a missing document, a missing path (FailPathNotFound) and a transient failure ask for a retry, and every answer is an error |
| Triage.TriageSetAtrPendingErrors | src/Couchbase.Transactions/Error/Attempts/ErrorTriage.cs:150-173 | in overtime a non-rollback expiry; otherwise ambiguity and an existing entry are left to the caller, and of the rest only transient failures ask for a retry, only FailHard drops the rollback, expiry raises TransactionExpired and a full ATR raises with the "ATR full" cause |
| Triage.AllRetryMeans | src/Couchbase.Transactions/Error/Attempts/ErrorTriage.cs:175-198 | the `All` over retry flags holds iff every previous error asks for a retry |
| Triage.AllRollbackMeans | src/Couchbase.Transactions/Error/Attempts/ErrorTriage.cs:175-198 | the `All` over rollback flags holds iff every previous error rolls back |
| Triage.ThrowIfCommitWithPreviousErrors | src/Couchbase.Transactions/Error/Attempts/ErrorTriage.cs:175-198 | a commit after failures raises one TransactionOperationFailed error wrapping them, raising TransactionFailed, asking for a retry iff every previous error does and rolling back iff every previous error does |
| Triage.TriageSetAtrCompleteErrors | src/Couchbase.Transactions/Error/Attempts/ErrorTriage.cs:200-213 | only FailHard raises, as a post-commit failure without rollback; everything else is ignored |
| Triage.TriageUnstageRemoveErrors | src/Couchbase.Transactions/Error/Attempts/ErrorTriage.cs:215-235 | in overtime a non-rollback post-commit expiry; otherwise only ambiguity is left to the caller, and everything raised skips the rollback and is a post-commit failure, except FailHard, which raises TransactionFailed |
| Triage.TriageUnstageInsertOrReplaceErrors | src/Couchbase.Transactions/Error/Attempts/ErrorTriage.cs:237-258 | in overtime a non-rollback post-commit expiry; otherwise ambiguity and a missing document are left to the caller, and everything else, CAS mismatch and an existing document included, raises a post-commit failure without rollback |
| Triage.TriageSetAtrCommitErrors | src/Couchbase.Transactions/Error/Attempts/ErrorTriage.cs:260-275 | ambiguity is left to ambiguity resolution; everything else raises, only transient failures asking for a retry, only FailHard dropping the rollback, and expiry raising TransactionExpired with an "attempt expired" cause |
| Triage.TriageSetAtrCommitAmbiguityErrors | src/Couchbase.Transactions/Error/Attempts/ErrorTriage.cs:277-293 | transient and FailOther failures repeat the resolution; everything else raises without rollback, and expiry raises as an ambiguous commit |
| Triage.TriageSetAtrAbortedErrors | src/Couchbase.Transactions/Error/Attempts/ErrorTriage.cs:295-310 | a missing entry or record, a full ATR and FailHard raise without rollback; expiry and the rest are left to the caller |
| Triage.TriageSetAtrRolledBackErrors | src/Couchbase.Transactions/Error/Attempts/ErrorTriage.cs:312-327 | a missing entry, a full ATR and FailHard raise without rollback; expiry and a missing path are left to the caller |
| Triage.TriageRollbackStagedInsertErrors | src/Couchbase.Transactions/Error/Attempts/ErrorTriage.cs:329-344 | only CAS mismatch and FailHard raise, without rollback |
| Triage.TriageRollbackStagedRemoveOrReplaceErrors | src/Couchbase.Transactions/Error/Attempts/ErrorTriage.cs:346-361 | CAS mismatch, a missing document and FailHard raise, without rollback |
| Triage.UnsupportedFeatureIsOther | src/Couchbase.Transactions/Error/Attempts/ErrorTriage.cs:104-110 | at staged insert an unsupported feature is reclassified FailOther, in or out of overtime |
| Triage.OvertimeIsExpiry | src/Couchbase.Transactions/Error/Attempts/ErrorTriage.cs:111-120 | in overtime every failure of the four overtime tables is reclassified FailExpiry, except the unsupported feature at staged insert |
| Triage.ClassificationPreserved | src/Couchbase.Transactions/Error/Attempts/ErrorTriage.cs:61-361 | apart from those two rules every table hands back the class it was given |
| Triage.HardIsTerminal | src/Couchbase.Transactions/Error/Attempts/ErrorTriage.cs:61-361 | FailHard always raises and never asks for a retry in any table, and outside the document-exists lookup it never rolls back |
| Triage.UnstagingNeverRollsBack | src/Couchbase.Transactions/Error/Attempts/ErrorTriage.cs:200-258 | no failure after the commit point (unstaging, SetAtrComplete) triggers a rollback |
| Triage.RollbackStepsSwallowExpiry | src/Couchbase.Transactions/Error/Attempts/ErrorTriage.cs:295-361 | the rollback tables never raise for an expiry and never ask for a retry |
| Triage.RetryOnlyForRetryableClasses | src/Couchbase.Transactions/Error/Attempts/ErrorTriage.cs:61-361 | in every table a retry of the transaction is only asked for transient, ambiguous, missing-document, missing-path and CAS-mismatch failures |
| Xattrs.ValidateMinimum | src/Couchbase.Transactions/DataModel/TransactionXattrs.cs:27-37 | the metadata is accepted iff it names its attempt, transaction, ATR id, ATR bucket and ATR collection; each missing one throws the invalid-metadata exception |
| Xattrs.ValidateMinimumIgnoresOtherFields | src/Couchbase.Transactions/DataModel/TransactionXattrs.cs:27-37 | the verdict does not depend on the staged operation, restore data, forward compatibility or the ATR scope |
| AttemptSummary.TransactionAttempt.constructor | src/Couchbase.Transactions/TransactionAttempt.cs:24-31 | the property defaults: empty attempt id, no ATR, empty id lists, no exception, no tokens |
| AttemptSummary.TransactionAttempt.AtrCollectionName | src/Couchbase.Transactions/TransactionAttempt.cs:20 | present iff the ATR collection is, and then its name |
| AttemptSummary.TransactionAttempt.AtrScopeName | src/Couchbase.Transactions/TransactionAttempt.cs:21 | present iff the collection and its scope are, and then the scope's name |
| AttemptSummary.TransactionAttempt.AtrBucketName | src/Couchbase.Transactions/TransactionAttempt.cs:22 | present iff the collection, its scope and its bucket are, and then the bucket's name |
| AttemptSummary.TransactionAttempt.ToString | src/Couchbase.Transactions/TransactionAttempt.cs:33-43 | the text built piece by piece is the description of the first 5 characters of the id, the state, the collection name and the ATR id |
| AttemptSummary.DescribeFrame | src/Couchbase.Transactions/TransactionAttempt.cs:36-41 | the description starts with "TransactionAttempt{id=" and ends with "}" |
| AttemptSummary.DescribeNamesState | src/Couchbase.Transactions/TransactionAttempt.cs:38 | the final state's name appears after ",state=" and before ",atrColl=" |
| AttemptSummary.DescribeNoCollection | src/Couchbase.Transactions/TransactionAttempt.cs:39 | a missing ATR collection shows as "<none>" |
| AttemptSummary.DescribeNoAtrId | src/Couchbase.Transactions/TransactionAttempt.cs:40 | a missing ATR id shows as "<none>" just before the closing brace |
| Text.HasText | src/Couchbase.Transactions/AttemptContext.cs:2026 | `Contains` answers true exactly when the text occurs at some position |
| States.StateName | src/Couchbase.Transactions/TransactionAttempt.cs:38 | each state prints as its enum member name |
| States.StateNameInjective | src/Couchbase.Transactions/TransactionAttempt.cs:38 | distinct states print differently |
| LostTransactions.WithoutStopped | src/Couchbase.Transactions/Cleanup/LostTransactions/LostTransactionManager.cs:120-127 | exactly the running cleaners are kept, unchanged |
| LostTransactions.AddMissingEffect | src/Couchbase.Transactions/Cleanup/LostTransactions/LostTransactionManager.cs:129-146 | existing cleaners are never replaced, and only listed buckets get a new cleaner, the one the factory made for them |
| LostTransactions.AddMissingStopsAtFailure | src/Couchbase.Transactions/Cleanup/LostTransactions/LostTransactionManager.cs:136-148 | a listed bucket is left without a cleaner only when making its cleaner, or an earlier one, threw |
| LostTransactions.AddMissingSkipsRest | src/Couchbase.Transactions/Cleanup/LostTransactions/LostTransactionManager.cs:130-148 | once a listed bucket is left out, no later new bucket is added: the throw abandons the rest of the listing |
| LostTransactions.AddMissingAll | src/Couchbase.Transactions/Cleanup/LostTransactions/LostTransactionManager.cs:129-146 | when every new bucket's cleaner can be made, every listed bucket ends up with a cleaner |
| LostTransactions.ReconciledEffect | src/Couchbase.Transactions/Cleanup/LostTransactions/LostTransactionManager.cs:120-146 | a discovery round keeps the running cleaners unchanged, adds only listed buckets with the cleaner made for them, and drops a stopped cleaner whose bucket is not listed |
| LostTransactions.SumRunsRemove | src/Couchbase.Transactions/Cleanup/LostTransactions/LostTransactionManager.cs:38 | the total run count is one cleaner's count plus the total of the rest, whichever is taken first |
| LostTransactions.RunningKeysBound | src/Couchbase.Transactions/Cleanup/LostTransactions/LostTransactionManager.cs:36-37 | the running cleaners number at most the cleaners, and equally many iff all are running |
| LostTransactions.AsWrittenTimeoutAddsPermit | src/Couchbase.Transactions/Cleanup/LostTransactions/LostTransactionManager.cs:113-118 | as written, a wait that does not pass still releases in the `finally` block, so a one-permit mutex ends with two; the as-written count differs from the one `DiscoverBuckets` keeps exactly when the wait did not pass |
| LostTransactions.DiscoveryKeepsPermits | src/Couchbase.Transactions/Cleanup/LostTransactions/LostTransactionManager.cs:113-155 | releasing only a permit it took, a round leaves the mutex's permits as they were, so it stays a mutex |
| LostTransactions.LostTransactionManager.constructor | src/Couchbase.Transactions/Cleanup/LostTransactions/LostTransactionManager.cs:32-49 | the client uuid is the one given, or a fresh one when none is; no buckets are known; the mutex has its one permit |
| LostTransactions.LostTransactionManager.RunningCount | src/Couchbase.Transactions/Cleanup/LostTransactions/LostTransactionManager.cs:36-37 | never more than DiscoveredBucketCount, and equal to it iff every cleaner runs |
| LostTransactions.LostTransactionManager.TotalRunCount | src/Couchbase.Transactions/Cleanup/LostTransactions/LostTransactionManager.cs:38 | the loop over the cleaners sums exactly their run counts |
| LostTransactions.LostTransactionManager.DiscoverBuckets | src/Couchbase.Transactions/Cleanup/LostTransactions/LostTransactionManager.cs:109-157 | without the mutex nothing changes; with it the cleaners become the reconciled map, where a failed listing only prunes and a failed cleaner ends the additions; the permits come back as they were, because a round that did not pass releases nothing (the corrected half of the Findings row for lines 113-118) |
| LostTransactions.LostTransactionManager.RemoveClientEntries | src/Couchbase.Transactions/Cleanup/LostTransactions/LostTransactionManager.cs:65-95 | every cleaner is disposed and removed even when disposal throws, exactly the throwing ones are warned about, and the permits are kept |
| LostTransactions.LostTransactionManager.ShutDownCleaner | src/Couchbase.Transactions/Cleanup/LostTransactions/LostTransactionManager.cs:74-87 | one cleaner is removed whether or not its dispose throws, the permits are kept, and a throw is reported |
| QueryErrors.FirstFrom | src/Couchbase.Transactions/AttemptContext.cs:2016-2041 | the first position from `from` on that satisfies the predicate, or none when no position does |
| QueryErrors.ChooseQueryError | src/Couchbase.Transactions/AttemptContext.cs:2016-2041 | a missing list and an empty list are told apart, and a chosen error is one of the list |
| QueryErrors.ChoiceOrder | src/Couchbase.Transactions/AttemptContext.cs:2016-2041 | the first error mentioning "cause" is chosen, otherwise the first transaction code 17000-17999, otherwise the first error |
| QueryErrors.RaiseOf | src/Couchbase.Transactions/AttemptContext.cs:1981-1988 | no "raise" entry means TransactionFailed |
| QueryErrors.RaiseNameRoundTrip | src/Couchbase.Transactions/AttemptContext.cs:1981-1988 | each final error's name reads back as that final error |
| QueryErrors.RaiseOfUnknownName | src/Couchbase.Transactions/AttemptContext.cs:1981-1988 | any other name reads as TransactionFailed |
| QueryErrors.FromCause | src/Couchbase.Transactions/AttemptContext.cs:1980-2002 | a cause object becomes a FailOther error that retries iff `retry` is true, rolls back unless `rollback` is false, and raises what `raise` names |
| QueryErrors.ByCode | src/Couchbase.Transactions/AttemptContext.cs:1947-1967 | exactly codes 1065, 1080, 17004, 17010, 17012, 17014 and 17015 are mapped |
| QueryErrors.ConvertQueryError | src/Couchbase.Transactions/AttemptContext.cs:1928-2014 | a timeout is an expired attempt; a missing or empty error list and a non-query failure convert to nothing; only a query failure can throw while reading its cause; for a non-empty list the chosen error is the one converted (`QueryErrors.ChosenErrorConversion`) |
| QueryErrors.CodedErrors | src/Couchbase.Transactions/AttemptContext.cs:1947-1967 | each mapped code stands for the class, cause and final error it names |
| QueryErrors.SingleErrorConversion | src/Couchbase.Transactions/AttemptContext.cs:1940-2008 | for one error, a mapped code wins over the cause object, and an unmapped code with a cause object converts as that object says |
| QueryErrors.ChosenErrorConversion | src/Couchbase.Transactions/AttemptContext.cs:1940-2008 | for any non-empty error list, the error ChooseQueryError picks is the one converted: by its mapped code first, else by its cause object (nothing without one, the reader's exception for an unreadable one) |
| Ledger.FindStaged | src/Couchbase.Transactions/AttemptContext.cs:361-369 | none iff no entry is for the document, otherwise the first such entry |
| Ledger.OfKind | src/Couchbase.Transactions/AttemptContext.cs:760-764 | exactly the entries of that kind, no more of them than the ledger has |
| Ledger.OfKindAppend | src/Couchbase.Transactions/AttemptContext.cs:760-764 | `Where` keeps order and multiplicity: the view of a joined ledger is the views of its parts joined, and one entry is kept iff it has the kind |
| Ledger.ViewsPartition | src/Couchbase.Transactions/AttemptContext.cs:760-764 | the insert, replace and remove views together hold every entry of the ledger exactly as often as the ledger does, and their lengths add up to its length |
| Ledger.RemoveFirst | src/Couchbase.Transactions/AttemptContext.cs:480 | `List.Remove` drops one entry when present and changes nothing otherwise |
| Ledger.RemoveFirstOthers | src/Couchbase.Transactions/AttemptContext.cs:477-481 | with one entry per document, dropping a document's entry keeps every other document's entry and the invariant |
| Ledger.StageReplace | src/Couchbase.Transactions/AttemptContext.cs:477-492 | the new entry, with the new content, ends the ledger; a first mutation of the document is appended as a Replace |
| Ledger.FindStagedUnique | src/Couchbase.Transactions/AttemptContext.cs:361-369 | under the invariant, the entry found for a document is its only entry |
| Ledger.StageReplaceEffect | src/Couchbase.Transactions/AttemptContext.cs:477-492 | a replace keeps one entry per document, finds the new content under the document with its kind kept (an Insert stays an Insert), and leaves every other document alone |
| Ledger.StageInsertEffect | src/Couchbase.Transactions/AttemptContext.cs:640 | an insert of a document not yet staged keeps one entry per document, and a lookup finds it as an Insert of its content |
| Ledger.WithoutDoc | src/Couchbase.Transactions/AttemptContext.cs:909-911 | exactly the other documents' entries |
| Ledger.StageRemove | src/Couchbase.Transactions/AttemptContext.cs:909-911 | the intended update: the Remove entry ends the ledger |
| Ledger.WithoutDocKeeps | src/Couchbase.Transactions/AttemptContext.cs:909-911 | dropping a document's entries keeps one entry per document |
| Ledger.StageRemoveEffect | src/Couchbase.Transactions/AttemptContext.cs:909-911 | the intended remove keeps one entry per document, finds the Remove under the document, and leaves every other document alone |
| Ledger.ReadOwnWrite | src/Couchbase.Transactions/AttemptContext.cs:153-168 | not staged iff no entry; the staged content for an insert or replace; removed iff the entry is a Remove |
| Ledger.AsWrittenRemoveKeepsReplace | src/Couchbase.Transactions/AttemptContext.cs:909-911 | as written, replace then remove of one document leaves two entries, and a read then still returns the replaced content |
| Ledger.RemoveAfterReplaceReadsRemoved | src/Couchbase.Transactions/AttemptContext.cs:909-911 | with the intended update, the same sequence keeps the invariant and reads the document as removed |
| Ledger.AsWrittenGuardIgnoresCollection | src/Couchbase.Transactions/AttemptContext.cs:897 | as written, an insert of key "k" in one collection blocks a remove of "k" in another |
| Ledger.GuardIsPerDocument | src/Couchbase.Transactions/AttemptContext.cs:897 | the intended guard blocks exactly a remove of a document staged as an insert |
| Mav.Failure | src/Couchbase.Transactions/AttemptContext.cs:329-333 | every exception of the read ends it in failure, with the triage's error when it gives one |
| Mav.RoundVerdict | src/Couchbase.Transactions/AttemptContext.cs:252-333 | the intended verdict of one pass: a null lookup reads as no document (where line 253 as written fails first), a failed lookup as the triaged failure, and only a missing writer entry looks again |
| Mav.RoundVerdictAsWritten | src/Couchbase.Transactions/AttemptContext.cs:253-256 | as written, a null lookup fails on its CAS before the null check; every other pass is as intended |
| Mav.AsWrittenNullLookupFails | src/Couchbase.Transactions/AttemptContext.cs:253-256 | as written a missing document makes the read fail; as intended it reads as no document |
| Mav.GetWithMav | src/Couchbase.Transactions/AttemptContext.cs:242-345 | no pass left means unresolved; a settled first pass, by the intended verdict, is the result; a look-again goes on with the writer remembered |
| Mav.NoWriterReadsCommitted | src/Couchbase.Transactions/AttemptContext.cs:259-269 | a document outside any transaction reads as its committed content, or as nothing when it is a tombstone |
| Mav.CommittedWriterReadsStaged | src/Couchbase.Transactions/AttemptContext.cs:308-316 | a document staged by another attempt whose entry is COMMITTED or COMPLETED reads as its staged content, or as nothing for a staged remove |
| Mav.UncommittedWriterReadsCommitted | src/Couchbase.Transactions/AttemptContext.cs:318-323 | a document staged by another attempt that has not committed reads as its committed content, or as nothing for a tombstone or a staged insert |
| Mav.OwnWriteReadsStaged | src/Couchbase.Transactions/AttemptContext.cs:294-304 | the attempt's own staged write reads as staged (nothing for a staged remove), whatever its entry's state |
| Mav.MissingEntrySecondSightingReadsStaged | src/Couchbase.Transactions/AttemptContext.cs:271-277 | a writer whose entry was missing, seen again on the second lookup, reads as staged (nothing for a tombstone) without resolving the ATR again |
| Mav.UnresolvedOnlyByMissingEntries | src/Couchbase.Transactions/AttemptContext.cs:335-343 | the read stays unresolved only when every pass found a writer with a missing entry |
| Mav.ResultFromSomePass | src/Couchbase.Transactions/AttemptContext.cs:242-345 | content that is returned is a document one of the passes found |
| Repeat.ActionCode | src/Couchbase.Transactions/AttemptContext.cs:2113-2119 | each repeat action has a code in 0..3, and the code is 0 exactly for NoRepeat |
| Repeat.NextBackoff | src/Couchbase.Transactions/AttemptContext.cs:2144-2147 | the backoff grows tenfold and is capped at 100 ms |
| Repeat.RepeatUntilSuccessOrThrow | src/Couchbase.Transactions/AttemptContext.cs:2131-2163 | the loop's outcome and the waits it takes are exactly what the specification `Run` gives from the first call at backoff 1 ms |
| Repeat.RunTurns | src/Couchbase.Transactions/AttemptContext.cs:2131-2156 | at most one call per remaining retry and at most one wait per call; each call after the first is made on the state its predecessor left, after it asked for a repeat |
| Repeat.RunEnds | src/Couchbase.Transactions/AttemptContext.cs:2135-2155 | a run ends with the last call's NoRepeat value, or its error, or the retry-limit error after exactly the calls left |
| Repeat.CallBound | src/Couchbase.Transactions/AttemptContext.cs:2131-2156 | with retry limit n >= 0 the step is called at most n + 1 times |
| Repeat.NegativeLimitRaises | src/Couchbase.Transactions/AttemptContext.cs:2155 | a negative limit makes no call and raises at once |
| Repeat.BackoffsOf | src/Couchbase.Transactions/AttemptContext.cs:2144-2147 | the backoff waits among the waits, in order |
| Repeat.BackoffsOfAppend | src/Couchbase.Transactions/AttemptContext.cs:2144-2147 | the backoffs of two joined wait lists are the joined backoffs |
| Repeat.BackoffsGrow | src/Couchbase.Transactions/AttemptContext.cs:2144-2147 | the k-th backoff of a run is the starting backoff grown k times |
| Repeat.BackoffFromOne | src/Couchbase.Transactions/AttemptContext.cs:2144-2147 | grown from 1 ms the backoff is 1, 10, then 100 ms for ever |
| Repeat.StaysAtMax | src/Couchbase.Transactions/AttemptContext.cs:2144-2147 | once at 100 ms the backoff stays there |
| Repeat.BackoffSchedule | src/Couchbase.Transactions/AttemptContext.cs:2144-2147 | the waits of a run as called are 1, 10, 100, 100, ... ms |
| Repeat.RunPreserves | src/Couchbase.Transactions/AttemptContext.cs:2131-2156 | a property every call keeps holds of the state the run leaves |
| Repeat.RunReturnsVia | src/Couchbase.Transactions/AttemptContext.cs:2131-2156 | a property of every NoRepeat reply holds of a run that returns |
| Repeat.RunRaisesVia | src/Couchbase.Transactions/AttemptContext.cs:2131-2156 | a property of every raise holds of a run that raises, unless it ran out of retries |
| Repeat.RunOnce | src/Couchbase.Transactions/AttemptContext.cs:2131-2156 | a step that never asks for a repeat is called once, and the run hands back its reply |
| Steps.TriagedThrow | src/Couchbase.Transactions/Error/Attempts/ErrorTriage.cs:31-38 | what is thrown is a classified error, the table's own when it gives one |
| Steps.ExpiryGuard | src/Couchbase.Transactions/AttemptContext.cs:1668-1682 | it raises, an AttemptExpired, exactly when the attempt has expired outside overtime |
| Steps.Bailout | src/Couchbase.Transactions/AttemptContext.cs:1620-1634 | an expiry raising TransactionExpired, with no retry, rolling back exactly when `rollback` is true (by the intended builder default; see its Left out line) |
| Steps.PostCommitExpiry | src/Couchbase.Transactions/AttemptContext.cs:1095-1100 | an expiry reported as a post-commit failure, without rollback or retry |
| Steps.GuardedWrite | src/Couchbase.Transactions/AttemptContext.cs:1668-1682 | the expiry guard catches before any call; otherwise one call, whose reply or exception is passed on |
| Steps.PendingTurnEffect | src/Couchbase.Transactions/AttemptContext.cs:767-816 | a SetAtrPending call ends only with PENDING written or the entry already existing, repeats only after ambiguity, keeps overtime, and raises only classified errors |
| Steps.NoRollbackOther | src/Couchbase.Transactions/AttemptContext.cs:1262-1296 | a FailOther error without rollback or retry, raising TransactionFailed |
| Steps.ResolveByState | src/Couchbase.Transactions/AttemptContext.cs:1253-1319 | COMMITTED ends SetAtrCommit, PENDING restarts it, and ABORTED, ROLLED_BACK, an unknown or an unparsable state raise a non-rollback error wrapping the reason |
| Steps.WithoutRollback | src/Couchbase.Transactions/Error/Attempts/ErrorTriage.cs:40-58 | `Error(ec, err, rollback: false)` neither rolls back nor retries |
| Steps.ResolveNeverRollsBack | src/Couchbase.Transactions/AttemptContext.cs:1253-1319 | nothing ambiguity resolution raises rolls the attempt back |
| Steps.CommitTurnState | src/Couchbase.Transactions/AttemptContext.cs:1215-1251 | SetAtrCommit's body sets COMMITTED or keeps the state, repeats only with a delay, and keeps overtime; when its ATR write passes it sets COMMITTED (line 1229) and ends without a repeat |
| Steps.ResolveKeepsState | src/Couchbase.Transactions/AttemptContext.cs:1253-1319 | ambiguity resolution never changes the state and never leaves overtime |
| Steps.ResolveNextAction | src/Couchbase.Transactions/AttemptContext.cs:1253-1319 | resolution returns only NoRepeat or RepeatWithDelay to SetAtrCommit |
| Steps.EnterOvertimeIfExpired | src/Couchbase.Transactions/AttemptContext.cs:1081-1084 | overtime afterwards iff it was on or the attempt has expired |
| Steps.UnstageRetryRules | src/Couchbase.Transactions/AttemptContext.cs:1166-1210 | ambiguity switches on ambiguity mode; a CAS mismatch retries at CAS 0 or, in ambiguity mode, raises; a missing document retries as an insert; an existing one retries as a replace at CAS 0 or, in ambiguity mode, raises; the rest raise |
| Steps.UnstageRaisesNoRollback | src/Couchbase.Transactions/AttemptContext.cs:1069-1213 | nothing unstaging raises rolls back, and in overtime it is always the post-commit expiry |
| Steps.RollbackTurns | src/Couchbase.Transactions/AttemptContext.cs:1321-1606 | the ATR steps set only ABORTED or ROLLED_BACK, and when their ATR write passes they set it (ABORTED at line 1336, ROLLED_BACK at line 1386) and end without a repeat; the document steps keep the state; a failure in overtime bails out as an expiry without rollback |
| Steps.RollbackRaisesNoRollback | src/Couchbase.Transactions/AttemptContext.cs:1321-1606 | no rollback step asks for a retry, and only an expiry passed on by SetAtrRolledBack can ask for a rollback |
| Steps.TurnsKeepOvertime | src/Couchbase.Transactions/AttemptContext.cs:767-1606 | every step body keeps overtime once it is set |
| Steps.ExpiredError | src/Couchbase.Transactions/AttemptContext.cs:1656-1666 | CheckExpiryAndThrow's error is an expiry raising TransactionExpired, with no retry, asking for a rollback (by the intended builder default; see its Left out line) |
| Steps.ConflictError | src/Couchbase.Transactions/AttemptContext.cs:1804-1818 | the conflict error asks for a retry of the transaction and carries class FailWriteWriteConflict |
| Steps.ConflictDecision | src/Couchbase.Transactions/AttemptContext.cs:1723-1818 | a write proceeds exactly when the document is not blocked by another transaction or the blocker's entry is gone, expired or finished; it backs off while the blocker is live for at most a second, then raises the conflict; the state is kept |
| Steps.DocExistsError | src/Couchbase.Transactions/AttemptContext.cs:684-698 | a FailDocAlreadyExists error with the document-exists cause, not retried |
| Steps.OverStagedInsert | src/Couchbase.Transactions/AttemptContext.cs:700-735 | over another transaction's staged insert: a tombstone is overwritten at its CAS, anything else raises, and state and overtime are kept |
| Steps.DocExistsCases | src/Couchbase.Transactions/AttemptContext.cs:657-742 | by what the lookup found: tombstone outside a transaction overwritten at its CAS, live document outside a transaction or a non-insert staging raises, a staged insert is conflict-checked first |
| Steps.DocExistsReturns | src/Couchbase.Transactions/AttemptContext.cs:657-742 | the document-exists loop only returns RepeatNoDelay, with the CAS to insert over |
| Steps.InsertTurnReturns | src/Couchbase.Transactions/AttemptContext.cs:611-749 | a CreateStagedInsert call that asks no repeat has staged the insert and reports its CAS; the document-exists handling always repeats |
| Steps.InsertRunReturns | src/Couchbase.Transactions/AttemptContext.cs:605-758 | the insert loop returns only the CAS of a successful staging write |
| Steps.ConflictKeeps | src/Couchbase.Transactions/AttemptContext.cs:1709-1820 | the conflict loop keeps the state and never leaves overtime |
| Steps.DocExistsTurnKeeps | src/Couchbase.Transactions/AttemptContext.cs:657-742 | one document-exists call keeps the state and overtime |
| Steps.DocExistsKeeps | src/Couchbase.Transactions/AttemptContext.cs:657-742 | the document-exists loop keeps the state and overtime |
| Steps.InsertTurnKeeps | src/Couchbase.Transactions/AttemptContext.cs:611-749 | one CreateStagedInsert call keeps the state and overtime |
| Steps.InsertKeeps | src/Couchbase.Transactions/AttemptContext.cs:605-758 | the insert loop keeps the state and overtime |
| Protocol.Initial | src/Couchbase.Transactions/AttemptContext.cs:57-103 | a new attempt has written nothing, staged nothing, no errors, is not done or in overtime, and has the ATR only when one was supplied |
| Protocol.DoneCheck | src/Couchbase.Transactions/AttemptContext.cs:1608-1618 | refuses iff the attempt is done or has left NOTHING_WRITTEN and PENDING, with a FailOther error that neither rolls back nor retries |
| Protocol.CheckErrors | src/Couchbase.Transactions/AttemptContext.cs:347-359 | refuses iff an earlier failure was saved, with a FailOther error wrapping the saved errors |
| Protocol.CheckExpiry | src/Couchbase.Transactions/AttemptContext.cs:1656-1666 | refuses iff expired, entering overtime and raising the expiry |
| Protocol.Entry | src/Couchbase.Transactions/AttemptContext.cs:143-145 | the operation starts iff none of the three checks refuses; the first that refuses decides the error |
| Protocol.SaveError | src/Couchbase.Transactions/AttemptContext.cs:2108-2111 | a classified error is saved once and nothing else changes |
| Protocol.InitAtr | src/Couchbase.Transactions/AttemptContext.cs:1636-1654 | afterwards an ATR is chosen, an existing one is kept, and nothing else changes |
| Protocol.RunStep | src/Couchbase.Transactions/AttemptContext.cs:2131-2156 | a step changes only the state, overtime flag and tick |
| Protocol.SetAtrPendingIfFirst | src/Couchbase.Transactions/AttemptContext.cs:452-458 | nothing happens unless the ledger is empty; it never touches the ledger, the ATR choice or the done flag |
| Protocol.StagingFailed | src/Couchbase.Transactions/AttemptContext.cs:507-522 | a failed staging write raises the error the replace/remove table gives (or the wrapper of its class), enters overtime exactly when the triaged class is FailExpiry, keeps the state and the ledger, and saves the error, once, among the previous errors |
| Protocol.CreateStagedReplace | src/Couchbase.Transactions/AttemptContext.cs:460-523 | staging a replace keeps the state and never leaves overtime |
| Protocol.CreateStagedRemove | src/Couchbase.Transactions/AttemptContext.cs:884-929 | staging a remove keeps the state and never leaves overtime |
| Protocol.UnstageOne | src/Couchbase.Transactions/AttemptContext.cs:1046-1067 | unstaging an entry keeps the ledger's length, the saved errors, the done flag and the ATR |
| Protocol.UnstageFrom | src/Couchbase.Transactions/AttemptContext.cs:1046-1067 | unstaging the rest of the ledger keeps the same |
| Protocol.SetAtrComplete | src/Couchbase.Transactions/AttemptContext.cs:1008-1044 | once expired outside overtime nothing changes (lines 1013-1019); a passed write sets COMPLETED and unstaging complete (lines 1027-1028); a failed write raises exactly when it is FailHard and otherwise is passed over with the state kept (line 1040); the ledger, saved errors and done flag are kept |
| Protocol.RollbackOne | src/Couchbase.Transactions/AttemptContext.cs:1526-1606 | rolling back an entry changes only the state, overtime flag and tick |
| Protocol.RollbackFrom | src/Couchbase.Transactions/AttemptContext.cs:1469-1483 | rolling back the remaining entries changes only the state, overtime flag and tick |
| Protocol.GetCleanupRequest | src/Couchbase.Transactions/AttemptContext.cs:2167-2193 | no request iff there is no ATR or the state is NOTHING_WRITTEN, COMPLETED or ROLLED_BACK; otherwise the attempt, its ATR and state, and the staged documents by kind |
| ProtocolLemmas.KeysOfKindAppend | src/Couchbase.Transactions/AttemptContext.cs:2183-2185 | staging one more entry appends its id to the ids of its kind and to no other |
| ProtocolLemmas.KeysOfKindMembers | src/Couchbase.Transactions/AttemptContext.cs:2183-2185 | an id is listed under a kind iff an entry of that kind is staged for it |
| ProtocolLemmas.CleanupRequestInLedgerOrder | src/Couchbase.Transactions/AttemptContext.cs:2167-2193 | the request lists ids in ledger order: one more staged entry appends its id to its own kind's list, and the other lists, attempt, ATR and state stay |
| ProtocolLemmas.CleanupRequestLists | src/Couchbase.Transactions/AttemptContext.cs:2167-2193 | a document is listed under inserted, replaced or removed iff an entry of that kind is staged for it, and the three lists together are as long as the ledger |
| ProtocolLemmas.GetReadsOwnWrites | src/Couchbase.Transactions/AttemptContext.cs:153-168 | a get of a staged document answers from the ledger without a lookup: the staged content, or nothing for a remove |
| ProtocolLemmas.GetLooksUp | src/Couchbase.Transactions/AttemptContext.cs:170-199 | a get of any other document costs exactly one lookup, and its reply is the MAV read's verdict: the pre- or post-transaction body, nothing for an empty read, an unresolved read as such, and for a failed read nothing on FailDocNotFound, else the triaged error, raised and saved |
| ProtocolLemmas.GuardsRefuse | src/Couchbase.Transactions/AttemptContext.cs:143-145 | each operation refuses once done or past PENDING, and then after a saved failure, leaving the attempt as it was |
| ProtocolLemmas.DuplicateStagingRefused | src/Couchbase.Transactions/AttemptContext.cs:540-551 | insert of a document already staged fails as FailOther before the expiry check; remove of a staged insert fails as FailOther after it; both before the ATR or any write, leaving the attempt as it was |
| ProtocolLemmas.FailedStagingIsSaved | src/Couchbase.Transactions/AttemptContext.cs:507-522 | a failed staging write of a replace or remove, and a classified failure of SetAtrPending, leave the raised error among the saved errors |
| ProtocolLemmas.SavedErrorRefusesLater | src/Couchbase.Transactions/AttemptContext.cs:143-145 | once an error is saved, every later get, insert, replace and remove is refused with the attempt unchanged, and commit raises ThrowIfCommitWithPreviousErrors' compound error |
| ProtocolLemmas.UnsavedFailures | src/Couchbase.Transactions/AttemptContext.cs:540-551 | the duplicate-staging refusals and a raise of the write-write-conflict check are passed on without being saved |
| ProtocolLemmas.InsertStages | src/Couchbase.Transactions/AttemptContext.cs:536-558 | a successful insert stages one Insert entry for a document not staged before, and keeps one entry per document |
| ProtocolLemmas.CreateStagedReplaceEffect | src/Couchbase.Transactions/AttemptContext.cs:460-523 | one staging write; on success the ledger update keeps one entry per document, finds the new content under the document (an Insert stays an Insert) and leaves other documents alone; on a failed write the error of the replace/remove table is raised, overtime is entered exactly on FailExpiry, the ledger is kept, and the error is saved |
| ProtocolLemmas.ReplaceCollapses | src/Couchbase.Transactions/AttemptContext.cs:477-492 | a successful replace leaves one entry for the document (an Insert stays one), with the new content and CAS, every other entry alone, one entry per document |
| ProtocolLemmas.RemoveStages | src/Couchbase.Transactions/AttemptContext.cs:884-929 | a successful remove leaves one Remove entry for the document, every other entry alone, one entry per document |
| ProtocolLemmas.ReadAfterInsert | src/Couchbase.Transactions/AttemptContext.cs:153-168 | a get right after an insert reads the inserted content |
| ProtocolLemmas.ReadAfterReplace | src/Couchbase.Transactions/AttemptContext.cs:153-168 | a get right after a replace reads the new content |
| ProtocolLemmas.ReadAfterRemove | src/Couchbase.Transactions/AttemptContext.cs:153-168 | a get right after a remove finds nothing |
| ProtocolLemmas.CommitNothingStaged | src/Couchbase.Transactions/AttemptContext.cs:956-967 | a commit with nothing staged succeeds at once, marking the attempt done and changing nothing else |
| ProtocolLemmas.CommitChecks | src/Couchbase.Transactions/AttemptContext.cs:945-955 | commit checks the saved errors, then expiry (entering overtime), then DoneCheck |
| ProtocolLemmas.CommitMarksDone | src/Couchbase.Transactions/AttemptContext.cs:945-968 | once past its checks a commit leaves every later operation refused, whatever happens next |
| ProtocolLemmas.RollbackMarksDone | src/Couchbase.Transactions/AttemptContext.cs:1442-1487 | a successful rollback leaves every later operation refused |
| ProtocolLemmas.RunStepMoves | src/Couchbase.Transactions/AttemptContext.cs:2131-2156 | a step whose every call keeps the state or sets one given state does the same as a whole, and keeps overtime |
| ProtocolLemmas.PendingMoves | src/Couchbase.Transactions/AttemptContext.cs:452-458 | SetAtrPendingIfFirstMutation can only move the state to PENDING |
| ProtocolLemmas.ConflictMoves | src/Couchbase.Transactions/AttemptContext.cs:1709-1820 | the conflict check keeps the state and overtime |
| ProtocolLemmas.GetMoves | src/Couchbase.Transactions/AttemptContext.cs:140-199 | a get keeps the state and overtime |
| ProtocolLemmas.CreateStagedInsertMoves | src/Couchbase.Transactions/AttemptContext.cs:605-758 | staging an insert keeps the state and overtime |
| ProtocolLemmas.InsertMoves | src/Couchbase.Transactions/AttemptContext.cs:536-558 | an insert can only move the state to PENDING, and keeps overtime |
| ProtocolLemmas.ReplaceMoves | src/Couchbase.Transactions/AttemptContext.cs:381-392 | a replace can only move the state to PENDING, and keeps overtime |
| ProtocolLemmas.RemoveMoves | src/Couchbase.Transactions/AttemptContext.cs:827-844 | a remove can only move the state to PENDING, and keeps overtime |
| ProtocolLemmas.UnstageOneMoves | src/Couchbase.Transactions/AttemptContext.cs:1069-1213 | unstaging one entry keeps the state and overtime |
| ProtocolLemmas.UnstageMoves | src/Couchbase.Transactions/AttemptContext.cs:1046-1067 | unstaging keeps the state and overtime |
| ProtocolLemmas.CommitStepMoves | src/Couchbase.Transactions/AttemptContext.cs:1215-1251 | SetAtrCommit keeps the state or sets COMMITTED, and keeps overtime |
| ProtocolLemmas.UnstageOneKeepsEntries | src/Couchbase.Transactions/AttemptContext.cs:1126-1213 | unstaging an entry rewrites at most its CAS; every entry keeps its document, kind and content |
| ProtocolLemmas.UnstageKeepsEntries | src/Couchbase.Transactions/AttemptContext.cs:1046-1067 | unstaging keeps the ledger's documents, kinds and contents, so a later cleanup request names the same documents |
| ProtocolLemmas.CommitMoves | src/Couchbase.Transactions/AttemptContext.cs:945-968 | a commit can only move the state to COMMITTED or COMPLETED, and keeps overtime |
| ProtocolLemmas.RollbackOneMoves | src/Couchbase.Transactions/AttemptContext.cs:1526-1606 | rolling back one entry keeps the state and overtime |
| ProtocolLemmas.RollbackFromMoves | src/Couchbase.Transactions/AttemptContext.cs:1469-1483 | rolling back the entries keeps the state and overtime |
| ProtocolLemmas.RollbackAfterAbortMoves | src/Couchbase.Transactions/AttemptContext.cs:1468-1485 | after ABORTED is written, the rest of a rollback can only move the state to ROLLED_BACK |
| ProtocolLemmas.RollbackMoves | src/Couchbase.Transactions/AttemptContext.cs:1442-1487 | a rollback can only move the state to ABORTED or ROLLED_BACK, and keeps overtime |
| Attempt.AttemptContext.constructor | src/Couchbase.Transactions/AttemptContext.cs:57-103 | a new attempt's fields are the initial view |
| Attempt.AttemptContext.RunSteps | src/Couchbase.Transactions/AttemptContext.cs:2131-2156 | running a step's loop on the fields ends as RunStep says |
| Attempt.AttemptContext.SaveErrorWrapper | src/Couchbase.Transactions/AttemptContext.cs:2108-2111 | the fields afterwards are SaveError of the fields before |
| Attempt.AttemptContext.InitAtrIfNeeded | src/Couchbase.Transactions/AttemptContext.cs:1636-1654 | the fields afterwards are InitAtr of the fields before |
| Attempt.AttemptContext.SetAtrPendingIfFirstMutation | src/Couchbase.Transactions/AttemptContext.cs:452-458 | fields and reply are SetAtrPendingIfFirst's |
| Attempt.AttemptContext.CheckWriteWriteConflict | src/Couchbase.Transactions/AttemptContext.cs:1709-1820 | fields and reply are the conflict step's |
| Attempt.AttemptContext.Get | src/Couchbase.Transactions/AttemptContext.cs:137-199 | fields and reply are GetSpec's |
| Attempt.AttemptContext.Insert | src/Couchbase.Transactions/AttemptContext.cs:533-558 | fields and reply are InsertSpec's |
| Attempt.AttemptContext.CreateStagedInsert | src/Couchbase.Transactions/AttemptContext.cs:605-758 | fields and reply are Protocol.CreateStagedInsert's |
| Attempt.AttemptContext.Replace | src/Couchbase.Transactions/AttemptContext.cs:378-392 | fields and reply are ReplaceSpec's |
| Attempt.AttemptContext.StagingFailed | src/Couchbase.Transactions/AttemptContext.cs:507-522 | fields and reply are Protocol.StagingFailed's |
| Attempt.AttemptContext.CreateStagedReplace | src/Couchbase.Transactions/AttemptContext.cs:460-523 | fields and reply are Protocol.CreateStagedReplace's |
| Attempt.AttemptContext.Remove | src/Couchbase.Transactions/AttemptContext.cs:824-844 | fields and reply are RemoveSpec's |
| Attempt.AttemptContext.CreateStagedRemove | src/Couchbase.Transactions/AttemptContext.cs:884-929 | fields and reply are Protocol.CreateStagedRemove's |
| Attempt.AttemptContext.Commit | src/Couchbase.Transactions/AttemptContext.cs:942-968 | fields and reply are CommitSpec's |
| Attempt.AttemptContext.UnstageEntry | src/Couchbase.Transactions/AttemptContext.cs:1053-1065 | fields and reply are UnstageOne's for that entry |
| Attempt.AttemptContext.UnstageInsertOrReplace | src/Couchbase.Transactions/AttemptContext.cs:1126-1213 | fields and reply are UnstageOne's for an insert or replace entry |
| Attempt.AttemptContext.UnstageDocs | src/Couchbase.Transactions/AttemptContext.cs:1046-1067 | the loop over the ledger ends as UnstageFrom from the first entry |
| Attempt.AttemptContext.SetAtrComplete | src/Couchbase.Transactions/AttemptContext.cs:1008-1044 | fields and reply are Protocol.SetAtrComplete's |
| Attempt.AttemptContext.RollbackDocs | src/Couchbase.Transactions/AttemptContext.cs:1469-1483 | the loop over the ledger ends as RollbackFrom from the first entry |
| Attempt.AttemptContext.RollbackEntry | src/Couchbase.Transactions/AttemptContext.cs:1526-1606 | fields and reply are RollbackOne's for that entry |
| Attempt.AttemptContext.Rollback | src/Couchbase.Transactions/AttemptContext.cs:1419-1487 | fields and reply are RollbackSpec's |

## Specification functions

These functions define what an operation or one call of a step body does. They carry no contract of their own: the lemmas named beside each one state its properties, and the methods of `Attempt.AttemptContext` and `Repeat` are proved equal to them.

| function | source | defines | properties in |
|---|---|---|---|
| Protocol.GetSpec | src/Couchbase.Transactions/AttemptContext.cs:140-199 | GetWithKv: the entry checks, then read-your-writes, else one MAV read whose failure is triaged and saved | ProtocolLemmas.GetReadsOwnWrites, GetLooksUp, GetMoves, ReadAfterInsert, ReadAfterReplace, ReadAfterRemove |
| Protocol.InsertSpec | src/Couchbase.Transactions/AttemptContext.cs:536-558 | InsertWithKv: the done and saved-error checks, the duplicate check, the expiry check, then ATR choice, SetAtrPending and the staged insert | ProtocolLemmas.DuplicateStagingRefused, InsertStages, InsertMoves, GuardsRefuse |
| Protocol.CreateStagedInsert | src/Couchbase.Transactions/AttemptContext.cs:605-758 | the insert loop, then the new Insert entry; a raise is saved | ProtocolLemmas.CreateStagedInsertMoves, Steps.InsertRunReturns |
| Protocol.ReplaceSpec | src/Couchbase.Transactions/AttemptContext.cs:381-392 | ReplaceWithKv: the entry checks, the conflict check, ATR choice, SetAtrPending, then the staged replace | ProtocolLemmas.CreateStagedReplaceEffect, ReplaceCollapses, ReplaceMoves |
| Protocol.RemoveSpec | src/Couchbase.Transactions/AttemptContext.cs:827-844 | RemoveWithKv: the entry checks, the staged-insert refusal, the conflict check, ATR choice, SetAtrPending, then the staged remove | ProtocolLemmas.RemoveStages, RemoveMoves |
| Protocol.CommitSpec | src/Couchbase.Transactions/AttemptContext.cs:945-968 | CommitWithKv: the saved-error, expiry and done checks, then SetAtrCommit, unstaging and SetAtrComplete | ProtocolLemmas.CommitNothingStaged, CommitChecks, CommitMarksDone, CommitMoves |
| Protocol.RollbackSpec | src/Couchbase.Transactions/AttemptContext.cs:1442-1487 | RollbackWithKv: nothing written ends at once, an application rollback after the attempt is done is refused, otherwise SetAtrAborted, the entries rolled back in ledger order, SetAtrRolledBack | ProtocolLemmas.RollbackMarksDone, RollbackAfterAbortMoves, RollbackMoves |
| Protocol.CheckWriteWriteConflict | src/Couchbase.Transactions/AttemptContext.cs:1709-1820 | the conflict loop for one document; a raise is passed on, not saved | ProtocolLemmas.ConflictMoves, UnsavedFailures, Steps.ConflictDecision |
| Mav.Decide | src/Couchbase.Transactions/AttemptContext.cs:259-323 | the decision for a found document from its writer and the writer's entry | Mav.NoWriterReadsCommitted, CommittedWriterReadsStaged, UncommittedWriterReadsCommitted, OwnWriteReadsStaged, MissingEntrySecondSightingReadsStaged |
| Repeat.Run | src/Couchbase.Transactions/AttemptContext.cs:2131-2163 | RepeatUntilSuccessOrThrow as a trace of calls and waits | Repeat.RepeatUntilSuccessOrThrow, RunTurns, RunEnds, CallBound, BackoffSchedule |
| Steps.PendingTurn | src/Couchbase.Transactions/AttemptContext.cs:767-816 | one call of SetAtrPending's body | Steps.PendingTurnEffect, TurnsKeepOvertime |
| Steps.ResolveTurn | src/Couchbase.Transactions/AttemptContext.cs:1253-1319 | one call of ResolveSetAtrCommitAmbiguity's body | Steps.ResolveByState, ResolveNeverRollsBack, ResolveKeepsState, ResolveNextAction |
| Steps.CommitTurn | src/Couchbase.Transactions/AttemptContext.cs:1215-1251 | one call of SetAtrCommit's body | Steps.CommitTurnState |
| Steps.UnstageRemoveTurn | src/Couchbase.Transactions/AttemptContext.cs:1069-1116 | one call of UnstageRemove's body | Steps.UnstageRaisesNoRollback, TurnsKeepOvertime |
| Steps.UnstageTurn | src/Couchbase.Transactions/AttemptContext.cs:1126-1213 | one call of UnstageInsertOrReplace's body | Steps.UnstageRetryRules, UnstageRaisesNoRollback |
| Steps.AbortedTurn | src/Couchbase.Transactions/AttemptContext.cs:1321-1368 | one call of SetAtrAborted's body | Steps.RollbackTurns, RollbackRaisesNoRollback |
| Steps.RolledBackTurn | src/Couchbase.Transactions/AttemptContext.cs:1370-1411 | one call of SetAtrRolledBack's body | Steps.RollbackTurns, RollbackRaisesNoRollback |
| Steps.RollbackInsertTurn | src/Couchbase.Transactions/AttemptContext.cs:1526-1565 | one call of RollbackStagedInsert's body | Steps.RollbackTurns, RollbackRaisesNoRollback |
| Steps.RollbackReplaceOrRemoveTurn | src/Couchbase.Transactions/AttemptContext.cs:1567-1606 | one call of RollbackStagedReplaceOrRemove's body | Steps.RollbackTurns, RollbackRaisesNoRollback |
| Steps.ConflictTurn | src/Couchbase.Transactions/AttemptContext.cs:1709-1820 | one call of CheckWriteWriteConflict's body | Steps.ConflictDecision, ConflictKeeps |
| Steps.DocExistsTurn | src/Couchbase.Transactions/AttemptContext.cs:657-742 | one call of the document-exists loop | Steps.DocExistsCases, DocExistsReturns, DocExistsTurnKeeps |
| Steps.InsertTurn | src/Couchbase.Transactions/AttemptContext.cs:611-749 | one call of CreateStagedInsert's body | Steps.InsertTurnReturns, InsertTurnKeeps |
| Ledger.StageInsert | src/Couchbase.Transactions/AttemptContext.cs:640 | CreateStagedInsert's ledger update: one Insert entry appended | Ledger.StageInsertEffect |
| Ledger.StageRemoveAsWritten | src/Couchbase.Transactions/AttemptContext.cs:909-911 | CreateStagedRemove's ledger update as written: the Remove entry appended, with no earlier entry dropped | Ledger.AsWrittenRemoveKeepsReplace |
| Triage.TriageAt | src/Couchbase.Transactions/Error/Attempts/ErrorTriage.cs:61-361 | the table that the error handling at a given call site uses | Triage.ClassificationPreserved, HardIsTerminal, UnstagingNeverRollsBack, RollbackStepsSwallowExpiry, RetryOnlyForRetryableClasses |

## Left out

- Query mode: `GetWithQuery`, `InsertWithQuery`, `ReplaceWithQuery`, `RemoveWithQuery`, `CommitWithQuery`, `RollbackWithQuery`, `QueryWrapper` and `QueryBeginWork`. Only the mapping of query errors (`ChooseQueryError`, `ConvertQueryError`) is modelled, because the rest is I/O with the query service.
- Storage, the ATR repository, the clock (`HasExpiredClientSide`, the conflict check's stopwatch) and `Exception.Classify()`: all of these are inputs (`World`, `classify`). The properties hold for any answers they give, apart from the two `classify` rules named above.
- `ForwardCompatibility.Check` is assumed to pass at every call site, including the ones in `AttemptContext.cs` at lines 179, 306, 664, 1722 and 1784. A forward-compatibility failure, which throws, is not modelled.
- Errors.CreateError: the three-argument `CreateError(ctx, ec, err)`, and a `Build` returning `TransactionOperationFailedException`, are what `ErrorTriage.cs` calls. They are not in this version of `ErrorBuilder.cs`, which has only `CreateError(ctx, ec)` and builds `ErrorWrapperException`. The model takes that overload as a fresh builder with the cause set. It starts asking for a rollback, as the tables assume when they pass `rollback: false` to turn it off.
- Protocol.CheckErrors: its FailOther error (AttemptContext.cs:355) is built by the same builder, with no `DoNotRollbackAttempt`, so it asks for a rollback by the intended default. Under ErrorBuilder.cs:14 as written it would not.
- Protocol.InsertSpec: the "already staged" refusal (AttemptContext.cs:546) asks for a rollback by the same intended default. Under line 14 as written it would not.
- Protocol.RemoveSpec: the "already staged for insert" refusal (AttemptContext.cs:835) asks for a rollback by the same intended default. Under line 14 as written it would not.
- Steps.DocExistsError: the FailDocAlreadyExists error (AttemptContext.cs:686) asks for a rollback by the same intended default. Under line 14 as written it would not.
- Steps.ConflictTurn: the FailHard error raised when the blocking attempt's ATR entry cannot be read (AttemptContext.cs:1764) asks for a rollback by the same intended default. Under line 14 as written it would not.
- Steps.ConflictError: the FailWriteWriteConflict error (AttemptContext.cs:1813) asks for a rollback by the same intended default. Under line 14 as written it would not.
- QueryErrors.ByCode: the errors for code 1065 (AttemptContext.cs:1950) and for codes 1080 and 17010 (1957) ask for a rollback by the same intended default. Under line 14 as written they would not.
- Protocol.CreateStagedRemove: the source writes the new CAS into the caller's document object in place (`doc.Cas = updatedCas`, AttemptContext.cs:896), before the staged-insert guard, so the caller sees it even when the guard then throws. The model passes documents as values and a remove replies with no document, so this update of the caller's object is not modelled. The staged Remove entry carries the new CAS.
- Steps.Bailout: `BailoutIfInOvertime` (AttemptContext.cs:1620-1634) calls the two-argument `CreateError` and raises `TransactionOperationFailedException.FinalError`, so it uses the same builder that is not in this version of `ErrorBuilder.cs`. The model gives it that builder's intended rollback default (see `Errors.CreateError` above and the Findings row for ErrorBuilder.cs:14): with `rollback` true the error asks for a rollback. Under line 14 as written it would not.
- Steps.ExpiredError: `CheckExpiryAndThrow` (AttemptContext.cs:1656-1666) uses the same builder, so its error asks for a rollback by the intended default. Under ErrorBuilder.cs:14 as written it would not (`Errors.AsWrittenNeverRollsBack`).
- LostTransactions.LostTransactionManager.DiscoverBuckets: releases the mutex only when the wait passed, the corrected half of the Findings row for LostTransactionManager.cs:113-118. As written, a round whose wait times out returns at line 117 and the `finally` block still releases at line 154, so the permits grow by one (`LostTransactions.AsWrittenTimeoutAddsPermit`). A cancellation caught at line 148 takes the same path.
- Protocol.CreateStagedRemove: uses the intended ledger update (`Ledger.StageRemove`) and the full-id staged-insert guard, not lines 897 and 909-911 as written. The as-written behaviour is shown in `Ledger.AsWrittenRemoveKeepsReplace` and `Ledger.AsWrittenGuardIgnoresCollection` (see "## Findings"):
  - a remove after a replace of the same document keeps the Replace entry;
  - a remove of a key staged as an insert in another collection throws, after its staging write.
- Protocol.RemoveSpec: is built on `Protocol.CreateStagedRemove`, so the intended update and guard apply here too.
- Attempt.AttemptContext.Remove: is proved equal to `Protocol.RemoveSpec`, so the intended update and guard apply here too.
- Attempt.AttemptContext.CreateStagedRemove: is proved equal to `Protocol.CreateStagedRemove`, so the intended update and guard apply here too.
- ProtocolLemmas.RemoveStages: "one entry per document" is proved for the intended remove update. As written, lines 909-911 keep an earlier Replace entry beside the Remove.
- ProtocolLemmas.ReadAfterRemove: is proved for the intended remove update. As written, a get after replace-then-remove returns the replaced content (`Ledger.AsWrittenRemoveKeepsReplace`).
- Mav.RoundVerdict: a null lookup reads as no document, which is the intended behaviour. As written, line 253 dereferences it first and the read fails (`Mav.RoundVerdictAsWritten`). Whether the lookup can return null rather than throw is not part of this model.
- Mav.GetWithMav: composes `Mav.RoundVerdict`, so a null lookup reads as no document here too.
- Protocol.GetSpec: reads through `Mav.GetWithMav`, with the same intended null reading.
- Attempt.AttemptContext.Get: is proved equal to `Protocol.GetSpec`, with the same intended null reading.
- The ATR id is chosen by vBucket (`AtrIds.GetAtrId`) from the metadata collection or the bucket's default collection. This is an input (`atrIdFor`). The `_initAtrLock` lock is not modelled.
- `TriageAtrLookupInMavErrors` is not part of this model. The MAV read takes that table as an input (`mavTriage`).
- Test hooks are treated as no-ops. Hook-driven fake expiry is part of the `expired` input.
- Mutation tokens (`_finalMutations`, `TransactionAttempt.MutationTokens`) are opaque. They are collected but never read by the core.
- AttemptSummary.TransactionAttempt: `TimeTaken` (TransactionAttempt.cs:14) is left out. It is a duration taken from the clock, and the core never reads it.
- Logging, tracing spans, redaction and durability levels are left out; they do not affect the protocol.
- Concurrency is left out. `_previousErrors` is a `ConcurrentDictionary` keyed by a counter; here it is a sequence, and an error already saved is not added again. The lost-transaction manager's timer and cancellation are left out. Its semaphore `_timerCallbackMutex` becomes a count of free permits (`permits`), and whether the wait passed is the `passed` input of `DiscoverBuckets`. `RemoveClientEntries` runs sequentially. Operations of one attempt run one at a time.
- `SafeSubstring` is an input of `ToString`, because its definition is not part of this model. The id in the text is its result for 5 characters.
- Documents, contents and the metadata beyond what the coordinator reads are opaque values. A staged document's own metadata is not updated after staging. A successful replace returns the document with its new CAS only.
- `TransactionGetResult.Empty` and a null result are kept apart (`EmptyResult`, `Absent`). The model does not say how the application tells them apart.
- The MAV read gets a finite list of lookups. When they run out before the read settles, the result is `Unresolved`, and the source has no such case. Only the missing-entry path reaches it; `Mav.UnresolvedOnlyByMissingEntries` proves this.
- The "Final result should not be null" failure of `CreateStagedInsert` is kept as its own error (`NoInsertResult`). The insert loop never returns without a CAS (`Steps.InsertRunReturns`), so it cannot occur.
- After ambiguity resolution reads COMMITTED, SetAtrCommit returns without setting `_state` to COMMITTED. This is modelled as written: `Steps.CommitTurnState` allows the state to be unchanged.
- The `TransactionContext` (expiry time, config, per-transaction durability) is reduced to the parameters the attempt reads from it: `transactionId` and the `expired` answers.
- `DocumentAlreadyInTransactionException` has no behaviour of its own. It appears only as an opaque cause.
- Cleanup of lost transactions beyond building the `CleanupRequest` is not modelled: the per-bucket cleaners and the cleanup of ATR entries are outside the attempt coordinator.
- Unsigned 64-bit CAS values are modelled as unbounded naturals. The core only compares them and passes them on.

## Findings

| source | as written | input that shows it | evidently intended | confidence | as-written member | corrected member |
|---|---|---|---|---|---|---|
| src/Couchbase.Transactions/Error/ErrorBuilder.cs:14 | in this version of `ErrorBuilder.cs`, `_rollbackAttempt` has no initializer, so it starts false and `DoNotRollbackAttempt` can only set it to the value it already has. The three-argument overload the tables call is not in this file | any plain error of this builder, e.g. `CreateError(ctx, FailOther).Cause(err).Build()` | an error rolls the attempt back unless `DoNotRollbackAttempt` was called | not executed | Errors.AsWrittenNeverRollsBack | Errors.RollbackIffNoDoNotRollback |
| src/Couchbase.Transactions/AttemptContext.cs:909-911 | CreateStagedRemove adds a Remove entry without removing the document's earlier Replace entry | replace then remove of the same document: the ledger holds both, and a get finds the Replace first and returns the replaced content | the remove takes the place of the earlier entry and a later get finds nothing | not executed | Ledger.AsWrittenRemoveKeepsReplace | Ledger.RemoveAfterReplaceReadsRemoved |
| src/Couchbase.Transactions/AttemptContext.cs:897 | the staged-insert guard of a remove compares the key only, not the fully qualified id | an insert of key "k" in collection c1, then a remove of "k" in collection c2 | only a staged insert of the same document blocks the remove | not executed | Ledger.AsWrittenGuardIgnoresCollection | Ledger.GuardIsPerDocument |
| src/Couchbase.Transactions/AttemptContext.cs:253-256 | the lookup's CAS is read for logging before the lookup is checked for null | a get of a document that does not exist: the lookup returns null | a missing document reads as "no document" | not executed | Mav.AsWrittenNullLookupFails | Mav.RoundVerdict |
| src/Couchbase.Transactions/Cleanup/LostTransactions/LostTransactionManager.cs:113-118 | the `finally` block at 152-155 releases `_timerCallbackMutex` even when the wait did not pass: a timeout returns at 117, and a cancellation throws and is caught at 148 | a discovery round whose wait times out or is cancelled while the mutex has one free permit: it releases a permit it never took, so the mutex then has two | a round releases only a permit it took, so the mutex keeps at most one | not executed | LostTransactions.AsWrittenTimeoutAddsPermit | LostTransactions.DiscoveryKeepsPermits |

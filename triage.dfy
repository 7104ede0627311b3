/**
 * ErrorTriage: one closed disposition table per protocol step, from the
 * classification of a failure to either "no error" (the caller handles the
 * case itself) or a classified error to raise.
 */
module Triage {
  import opened Errors

  /** A table's answer: the class it settled on, and the error to raise if any. */
  datatype Triaged = Triaged(ec: ErrorClass, toThrow: Option<TransactionError>)

  /** The answer raises an error with exactly these three flags. */
  predicate Throws(t: Triaged, retry: bool, rollback: bool, raise: FinalError)
  {
    t.toThrow.Some?
    && t.toThrow.value.retryTransaction == retry
    && t.toThrow.value.autoRollbackAttempt == rollback
    && t.toThrow.value.finalErrorToRaise == raise
  }

  /** The answer's error, if any, carries class `ec` and cause `c`. */
  predicate CausedBy(t: Triaged, ec: ErrorClass, c: Cause)
  {
    t.toThrow.Some? ==> t.toThrow.value.causingErrorClass == ec && t.toThrow.value.cause == c
  }

  /**
   * The `Error` helper: retry only for an explicit `retry: true`,
   * DoNotRollbackAttempt only for an explicit `rollback: false`, and
   * RaiseException only when a final error is given.
   */
  function Error(ec: ErrorClass, err: Cause, retry: Option<bool>, rollback: Option<bool>, raise: Option<FinalError>): (b: Builder)
    ensures b.causingErrorClass == ec && b.cause == err
    ensures b.retryTransaction <==> retry == Some(true)
    ensures !b.rollbackAttempt <==> rollback == Some(false)
    ensures b.toRaise == (if raise.Some? then raise.value else TransactionFailed)
  {
    var eb0 := CreateError(ec, err);
    var eb1 := if retry.Some? && retry.value then eb0.RetryTransaction() else eb0;
    var eb2 := if rollback.Some? && !rollback.value then eb1.DoNotRollbackAttempt() else eb1;
    if raise.Some? then eb2.RaiseException(raise.value) else eb2
  }

  /** `Error(ec, err)` with no named arguments. */
  function Plain(ec: ErrorClass, err: Cause): Builder { Error(ec, err, None, None, None) }

  function Built(b: Builder): Option<TransactionError> { Some(b.Build()) }

  /** `AssertNotNull`: the given error, or a fresh plain one wrapping the cause. */
  function AssertNotNull(toThrow: Option<TransactionError>, ec: ErrorClass, inner: Cause): (e: TransactionError)
    ensures toThrow.Some? ==> e == toThrow.value
    ensures toThrow.None? ==> e.causingErrorClass == ec && e.cause == WrapperMissing(inner)
    ensures toThrow.None? ==> e.autoRollbackAttempt && !e.retryTransaction && e.finalErrorToRaise == TransactionFailed
  {
    if toThrow.Some? then toThrow.value else CreateError(ec, WrapperMissing(inner)).Build()
  }

  /** Get: a missing document is no error; FailHard must not roll back. */
  function TriageGetErrors(ec: ErrorClass, err: Cause): (r: Triaged)
    ensures r.ec == ec && CausedBy(r, ec, err)
    ensures r.toThrow.None? <==> ec == FailDocNotFound
    ensures r.toThrow.Some? ==> Throws(r, false, ec != FailHard, TransactionFailed)
  {
    var toThrow := match ec
      case FailDocNotFound => None
      case FailHard => Built(Error(ec, err, None, Some(false), None))
      case FailTransient => Built(Error(ec, err, Some(false), None, None))
      case _ => Built(Plain(ec, err));
    Triaged(ec, toThrow)
  }

  /** Staged replace or remove: always an error; the retryable classes ask a retry. */
  function TriageCreateStagedRemoveOrReplaceError(ec: ErrorClass, err: Cause): (r: Triaged)
    ensures r.ec == ec && r.toThrow.Some?
    ensures r.toThrow.value.retryTransaction <==> ec in {FailDocNotFound, FailCasMismatch, FailTransient, FailAmbiguous}
    ensures !r.toThrow.value.autoRollbackAttempt <==> ec == FailHard
    ensures r.toThrow.value.finalErrorToRaise == (if ec == FailExpiry then TransactionExpired else TransactionFailed)
    ensures CausedBy(r, ec, if ec == FailExpiry then AttemptExpired else err)
  {
    var toThrow := match ec
      case FailExpiry => Built(Error(ec, AttemptExpired, None, None, Some(TransactionExpired)))
      case FailDocNotFound => Built(Error(ec, err, Some(true), None, None))
      case FailCasMismatch => Built(Error(ec, err, Some(true), None, None))
      case FailTransient => Built(Error(ec, err, Some(true), None, None))
      case FailAmbiguous => Built(Error(ec, err, Some(true), None, None))
      case FailHard => Built(Error(ec, err, None, Some(false), None))
      case _ => Built(Plain(ec, err));
    Triaged(ec, toThrow)
  }

  /** The overtime answer of the pre-commit tables. */
  function OvertimeExpired(): Triaged
  {
    Triaged(FailExpiry, Built(Error(FailExpiry, AttemptExpired, None, Some(false), Some(TransactionExpired))))
  }

  /** The overtime answer of the unstaging tables. */
  function OvertimePostCommit(): Triaged
  {
    Triaged(FailExpiry, Built(Error(FailExpiry, AttemptExpired, None, Some(false), Some(TransactionFailedPostCommit))))
  }

  /**
   * Staged insert: an unsupported feature ends the transaction as FailOther;
   * in overtime the answer is a non-rollback expiry; otherwise ambiguity,
   * CAS mismatch and an existing document are left to the caller.
   */
  function TriageCreateStagedInsertErrors(ec: ErrorClass, err: Cause, overtime: bool): (r: Triaged)
    ensures err.FeatureNotAvailable? ==> r.ec == FailOther && Throws(r, false, true, TransactionFailed) && CausedBy(r, FailOther, err)
    ensures !err.FeatureNotAvailable? && overtime ==> r.ec == FailExpiry && Throws(r, false, false, TransactionExpired)
    ensures !err.FeatureNotAvailable? && !overtime ==> r.ec == ec
    ensures !err.FeatureNotAvailable? && !overtime ==>
      (r.toThrow.None? <==> ec in {FailAmbiguous, FailCasMismatch, FailDocAlreadyExists})
    ensures !err.FeatureNotAvailable? && !overtime && r.toThrow.Some? ==>
      Throws(r, ec == FailTransient, ec != FailHard, if ec == FailExpiry then TransactionExpired else TransactionFailed)
  {
    if err.FeatureNotAvailable? then Triaged(FailOther, Built(Plain(FailOther, err)))
    else if overtime then OvertimeExpired()
    else
      var toThrow := match ec
        case FailExpiry => Built(Error(ec, AttemptExpired, None, None, Some(TransactionExpired)))
        case FailAmbiguous => None
        case FailTransient => Built(Error(ec, err, Some(true), None, None))
        case FailHard => Built(Error(ec, err, None, Some(false), None))
        case FailCasMismatch => None
        case FailDocAlreadyExists => None
        case _ => Built(Plain(ec, err));
      Triaged(ec, toThrow)
  }

  /** The lookup inside the staged-insert "document exists" handling. */
  function TriageDocExistsOnStagedInsertErrors(ec: ErrorClass, err: Cause): (r: Triaged)
    ensures r.ec == ec && CausedBy(r, ec, err)
    ensures Throws(r, ec in {FailDocNotFound, FailPathNotFound, FailTransient}, true, TransactionFailed)
  {
    var toThrow := match ec
      case FailDocNotFound => Built(Error(ec, err, Some(true), None, None))
      case FailPathNotFound => Built(Error(ec, err, Some(true), None, None))
      case FailTransient => Built(Error(ec, err, Some(true), None, None))
      case _ => Built(Plain(ec, err));
    Triaged(ec, toThrow)
  }

  /** Setting the ATR entry PENDING: ambiguity and an existing entry are left to the caller. */
  function TriageSetAtrPendingErrors(ec: ErrorClass, err: Cause, overtime: bool): (r: Triaged)
    ensures overtime ==> r == OvertimeExpired()
    ensures !overtime ==> r.ec == ec
    ensures !overtime ==> (r.toThrow.None? <==> ec in {FailAmbiguous, FailPathAlreadyExists})
    ensures !overtime && r.toThrow.Some? ==>
      Throws(r, ec == FailTransient, ec != FailHard, if ec == FailExpiry then TransactionExpired else TransactionFailed)
    ensures !overtime && ec == FailAtrFull ==> CausedBy(r, ec, AtrFull)
  {
    if overtime then OvertimeExpired()
    else
      var toThrow := match ec
        case FailExpiry => Built(Error(ec, AttemptExpired, None, None, Some(TransactionExpired)))
        case FailAtrFull => Built(Plain(ec, AtrFull))
        case FailAmbiguous => None
        case FailPathAlreadyExists => None
        case FailHard => Built(Error(ec, err, None, Some(false), None))
        case FailTransient => Built(Error(ec, err, Some(true), None, None))
        case _ => Built(Plain(ec, err));
      Triaged(ec, toThrow)
  }

  /** `Enumerable.All` over the previous errors' retry flags. */
  function AllRetry(errs: seq<TransactionError>): bool
    decreases |errs|
  {
    if errs == [] then true else errs[0].retryTransaction && AllRetry(errs[1..])
  }

  /** `Enumerable.All` over the previous errors' rollback flags. */
  function AllRollback(errs: seq<TransactionError>): bool
    decreases |errs|
  {
    if errs == [] then true else errs[0].autoRollbackAttempt && AllRollback(errs[1..])
  }

  lemma {:induction false} AllRetryMeans(errs: seq<TransactionError>)
    ensures AllRetry(errs) <==> forall i :: 0 <= i < |errs| ==> errs[i].retryTransaction
    decreases |errs|
  {
    if errs != [] {
      AllRetryMeans(errs[1..]);
      assert forall i :: 1 <= i < |errs| ==> errs[i] == errs[1..][i - 1];
    }
  }

  lemma {:induction false} AllRollbackMeans(errs: seq<TransactionError>)
    ensures AllRollback(errs) <==> forall i :: 0 <= i < |errs| ==> errs[i].autoRollbackAttempt
    decreases |errs|
  {
    if errs != [] {
      AllRollbackMeans(errs[1..]);
      assert forall i :: 1 <= i < |errs| ==> errs[i] == errs[1..][i - 1];
    }
  }

  /**
   * The single error a commit with outstanding failures raises: it asks a
   * retry iff every previous error does, and rolls back iff every previous
   * error does.
   */
  function ThrowIfCommitWithPreviousErrors(previous: seq<TransactionError>): (e: TransactionError)
    ensures e.causingErrorClass == TransactionOperationFailed
    ensures e.cause == PreviousOperationFailed(previous)
    ensures e.retryTransaction <==> forall i :: 0 <= i < |previous| ==> previous[i].retryTransaction
    ensures e.autoRollbackAttempt <==> forall i :: 0 <= i < |previous| ==> previous[i].autoRollbackAttempt
    ensures e.finalErrorToRaise == TransactionFailed
  {
    AllRetryMeans(previous);
    AllRollbackMeans(previous);
    var retry := AllRetry(previous);
    var rollback := AllRollback(previous);
    var b0 := CreateError(TransactionOperationFailed, PreviousOperationFailed(previous));
    var b1 := if retry then b0.RetryTransaction() else b0;
    var b2 := if !rollback then b1.DoNotRollbackAttempt() else b1;
    b2.Build()
  }

  /** Setting the ATR entry COMPLETED is cleanup: only FailHard raises. */
  function TriageSetAtrCompleteErrors(ec: ErrorClass, err: Cause): (r: Triaged)
    ensures r.ec == ec && CausedBy(r, ec, err)
    ensures r.toThrow.Some? <==> ec == FailHard
    ensures r.toThrow.Some? ==> Throws(r, false, false, TransactionFailed)
  {
    var toThrow := match ec
      case FailHard => Built(Error(ec, err, None, Some(false), None))
      case _ => None;
    Triaged(ec, toThrow)
  }

  /** Unstaging a remove: nothing raised here rolls back; ambiguity is retried. */
  function TriageUnstageRemoveErrors(ec: ErrorClass, err: Cause, overtime: bool): (r: Triaged)
    ensures overtime ==> r == OvertimePostCommit()
    ensures !overtime ==> r.ec == ec && CausedBy(r, ec, err)
    ensures !overtime ==> (r.toThrow.None? <==> ec == FailAmbiguous)
    ensures !overtime && r.toThrow.Some? ==>
      Throws(r, false, false, if ec == FailHard then TransactionFailed else TransactionFailedPostCommit)
  {
    if overtime then OvertimePostCommit()
    else
      var toThrow := match ec
        case FailAmbiguous => None
        case FailDocNotFound => Built(Error(ec, err, None, Some(false), Some(TransactionFailedPostCommit)))
        case FailHard => Built(Error(ec, err, None, Some(false), None))
        case _ => Built(Error(ec, err, None, Some(false), Some(TransactionFailedPostCommit)));
      Triaged(ec, toThrow)
  }

  /** Unstaging an insert or replace: ambiguity and a missing document are retried. */
  function TriageUnstageInsertOrReplaceErrors(ec: ErrorClass, err: Cause, overtime: bool): (r: Triaged)
    ensures overtime ==> r == OvertimePostCommit()
    ensures !overtime ==> r.ec == ec && CausedBy(r, ec, err)
    ensures !overtime ==> (r.toThrow.None? <==> ec in {FailAmbiguous, FailDocNotFound})
    ensures !overtime && r.toThrow.Some? ==> Throws(r, false, false, TransactionFailedPostCommit)
  {
    if overtime then OvertimePostCommit()
    else
      var toThrow := match ec
        case FailAmbiguous => None
        case FailCasMismatch => Built(Error(ec, err, None, Some(false), Some(TransactionFailedPostCommit)))
        case FailDocNotFound => None
        case FailDocAlreadyExists => Built(Error(ec, err, None, Some(false), Some(TransactionFailedPostCommit)))
        case _ => Built(Error(ec, err, None, Some(false), Some(TransactionFailedPostCommit)));
      Triaged(ec, toThrow)
  }

  /** Setting the ATR entry COMMITTED: ambiguity goes to ambiguity resolution. */
  function TriageSetAtrCommitErrors(ec: ErrorClass, err: Cause): (r: Triaged)
    ensures r.ec == ec
    ensures r.toThrow.None? <==> ec == FailAmbiguous
    ensures r.toThrow.Some? ==>
      Throws(r, ec == FailTransient, ec != FailHard, if ec == FailExpiry then TransactionExpired else TransactionFailed)
    ensures CausedBy(r, ec, if ec == FailExpiry then AttemptExpired else err)
  {
    var toThrow := match ec
      case FailExpiry => Built(Error(ec, AttemptExpired, None, None, Some(TransactionExpired)))
      case FailAmbiguous => None
      case FailHard => Built(Error(ec, err, None, Some(false), None))
      case FailTransient => Built(Error(ec, err, Some(true), None, None))
      case _ => Built(Plain(ec, err));
    Triaged(ec, toThrow)
  }

  /**
   * Ambiguity resolution of SetAtrCommit: transient and "other" failures
   * repeat the resolution; everything else raises without rollback, expiry
   * as an ambiguous commit.
   */
  function TriageSetAtrCommitAmbiguityErrors(ec: ErrorClass, err: Cause): (r: Triaged)
    ensures r.ec == ec
    ensures r.toThrow.None? <==> ec in {FailTransient, FailOther}
    ensures r.toThrow.Some? ==>
      Throws(r, false, false, if ec == FailExpiry then TransactionCommitAmbiguous else TransactionFailed)
    ensures CausedBy(r, ec, if ec == FailExpiry then AttemptExpired else err)
  {
    var toThrow := match ec
      case FailExpiry => Built(Error(ec, AttemptExpired, None, Some(false), Some(TransactionCommitAmbiguous)))
      case FailHard => Built(Error(ec, err, None, Some(false), None))
      case FailTransient => None
      case FailOther => None
      case _ => Built(Error(ec, err, None, Some(false), None));
    Triaged(ec, toThrow)
  }

  /** Setting the ATR entry ABORTED: a missing entry or record, a full ATR and FailHard raise. */
  function TriageSetAtrAbortedErrors(ec: ErrorClass, err: Cause): (r: Triaged)
    ensures r.ec == ec
    ensures r.toThrow.Some? <==> ec in {FailPathNotFound, FailDocNotFound, FailAtrFull, FailHard}
    ensures r.toThrow.Some? ==> Throws(r, false, false, TransactionFailed)
    ensures ec == FailPathNotFound ==> CausedBy(r, ec, AtrEntryNotFound)
    ensures ec == FailDocNotFound ==> CausedBy(r, ec, AtrNotFound)
    ensures ec == FailAtrFull ==> CausedBy(r, ec, AtrFull)
    ensures ec == FailHard ==> CausedBy(r, ec, err)
  {
    var toThrow := match ec
      case FailExpiry => None
      case FailPathNotFound => Built(Error(ec, AtrEntryNotFound, None, Some(false), None))
      case FailDocNotFound => Built(Error(ec, AtrNotFound, None, Some(false), None))
      case FailAtrFull => Built(Error(ec, AtrFull, None, Some(false), None))
      case FailHard => Built(Error(ec, err, None, Some(false), None))
      case _ => None;
    Triaged(ec, toThrow)
  }

  /** Setting the ATR entry ROLLED_BACK: a missing entry counts as done. */
  function TriageSetAtrRolledBackErrors(ec: ErrorClass, err: Cause): (r: Triaged)
    ensures r.ec == ec
    ensures r.toThrow.Some? <==> ec in {FailDocNotFound, FailAtrFull, FailHard}
    ensures r.toThrow.Some? ==> Throws(r, false, false, TransactionFailed)
    ensures ec == FailDocNotFound ==> CausedBy(r, ec, AtrNotFound)
    ensures ec == FailAtrFull ==> CausedBy(r, ec, AtrFull)
    ensures ec == FailHard ==> CausedBy(r, ec, err)
  {
    var toThrow := match ec
      case FailExpiry => None
      case FailPathNotFound => None
      case FailDocNotFound => Built(Error(ec, AtrNotFound, None, Some(false), None))
      case FailAtrFull => Built(Error(ec, AtrFull, None, Some(false), None))
      case FailHard => Built(Error(ec, err, None, Some(false), None))
      case _ => None;
    Triaged(ec, toThrow)
  }

  /** Rolling back a staged insert: only a CAS mismatch and FailHard raise. */
  function TriageRollbackStagedInsertErrors(ec: ErrorClass, err: Cause): (r: Triaged)
    ensures r.ec == ec && CausedBy(r, ec, err)
    ensures r.toThrow.Some? <==> ec in {FailCasMismatch, FailHard}
    ensures r.toThrow.Some? ==> Throws(r, false, false, TransactionFailed)
  {
    var toThrow := match ec
      case FailExpiry => None
      case FailPathNotFound => None
      case FailDocNotFound => None
      case FailCasMismatch => Built(Error(ec, err, None, Some(false), None))
      case FailHard => Built(Error(ec, err, None, Some(false), None))
      case _ => None;
    Triaged(ec, toThrow)
  }

  /** Rolling back a staged replace or remove: a missing document raises too. */
  function TriageRollbackStagedRemoveOrReplaceErrors(ec: ErrorClass, err: Cause): (r: Triaged)
    ensures r.ec == ec && CausedBy(r, ec, err)
    ensures r.toThrow.Some? <==> ec in {FailDocNotFound, FailCasMismatch, FailHard}
    ensures r.toThrow.Some? ==> Throws(r, false, false, TransactionFailed)
  {
    var toThrow := match ec
      case FailExpiry => None
      case FailPathNotFound => None
      case FailDocNotFound => Built(Error(ec, err, None, Some(false), None))
      case FailCasMismatch => Built(Error(ec, err, None, Some(false), None))
      case FailHard => Built(Error(ec, err, None, Some(false), None))
      case _ => None;
    Triaged(ec, toThrow)
  }

  /** The protocol step a table belongs to. */
  datatype Site =
    | Get | CreateStagedRemoveOrReplace | CreateStagedInsert | DocExistsOnStagedInsert
    | SetAtrPending | SetAtrComplete | UnstageRemove | UnstageInsertOrReplace
    | SetAtrCommit | SetAtrCommitAmbiguity | SetAtrAborted | SetAtrRolledBack
    | RollbackStagedInsert | RollbackStagedRemoveOrReplace

  /** The tables that take the attempt's overtime flag. */
  predicate TakesOvertime(site: Site)
  {
    site in {CreateStagedInsert, SetAtrPending, UnstageRemove, UnstageInsertOrReplace}
  }

  /** The tables of the rollback path. */
  predicate IsRollbackStep(site: Site)
  {
    site in {SetAtrAborted, SetAtrRolledBack, RollbackStagedInsert, RollbackStagedRemoveOrReplace}
  }

  /** Dispatch to the named table. */
  function TriageAt(site: Site, ec: ErrorClass, err: Cause, overtime: bool): Triaged
  {
    match site
    case Get => TriageGetErrors(ec, err)
    case CreateStagedRemoveOrReplace => TriageCreateStagedRemoveOrReplaceError(ec, err)
    case CreateStagedInsert => TriageCreateStagedInsertErrors(ec, err, overtime)
    case DocExistsOnStagedInsert => TriageDocExistsOnStagedInsertErrors(ec, err)
    case SetAtrPending => TriageSetAtrPendingErrors(ec, err, overtime)
    case SetAtrComplete => TriageSetAtrCompleteErrors(ec, err)
    case UnstageRemove => TriageUnstageRemoveErrors(ec, err, overtime)
    case UnstageInsertOrReplace => TriageUnstageInsertOrReplaceErrors(ec, err, overtime)
    case SetAtrCommit => TriageSetAtrCommitErrors(ec, err)
    case SetAtrCommitAmbiguity => TriageSetAtrCommitAmbiguityErrors(ec, err)
    case SetAtrAborted => TriageSetAtrAbortedErrors(ec, err)
    case SetAtrRolledBack => TriageSetAtrRolledBackErrors(ec, err)
    case RollbackStagedInsert => TriageRollbackStagedInsertErrors(ec, err)
    case RollbackStagedRemoveOrReplace => TriageRollbackStagedRemoveOrReplaceErrors(ec, err)
  }

  /** An unsupported feature at staged insert is reclassified as FailOther. */
  lemma UnsupportedFeatureIsOther(ec: ErrorClass, err: Cause, overtime: bool)
    requires err.FeatureNotAvailable?
    ensures TriageAt(CreateStagedInsert, ec, err, overtime).ec == FailOther
  {
  }

  /** Overtime mode reclassifies every failure of the four overtime tables as FailExpiry. */
  lemma OvertimeIsExpiry(site: Site, ec: ErrorClass, err: Cause)
    requires TakesOvertime(site) && !(site == CreateStagedInsert && err.FeatureNotAvailable?)
    ensures TriageAt(site, ec, err, true).ec == FailExpiry
  {
    if site == CreateStagedInsert {
    } else if site == SetAtrPending {
      assert TriageAt(site, ec, err, true) == OvertimeExpired();
    } else if site == UnstageRemove {
      assert TriageAt(site, ec, err, true) == OvertimePostCommit();
    } else {
      assert site == UnstageInsertOrReplace;
      assert TriageAt(site, ec, err, true) == OvertimePostCommit();
    }
  }

  /**
   * Every table hands back the input's classification, except an unsupported
   * feature at staged insert and overtime mode (the two lemmas above).
   */
  lemma ClassificationPreserved(site: Site, ec: ErrorClass, err: Cause, overtime: bool)
    requires !(site == CreateStagedInsert && err.FeatureNotAvailable?) && !(TakesOvertime(site) && overtime)
    ensures TriageAt(site, ec, err, overtime).ec == ec
  {
    match site
    case Get =>
    case CreateStagedRemoveOrReplace =>
    case CreateStagedInsert =>
    case DocExistsOnStagedInsert =>
    case SetAtrPending =>
    case SetAtrComplete =>
    case UnstageRemove =>
    case UnstageInsertOrReplace =>
    case SetAtrCommit =>
    case SetAtrCommitAmbiguity =>
    case SetAtrAborted =>
    case SetAtrRolledBack =>
    case RollbackStagedInsert =>
    case RollbackStagedRemoveOrReplace =>
  }

  /**
   * FailHard is terminal in every table: an error is always raised, it never
   * asks a retry, and outside the document-exists lookup it never rolls back.
   */
  lemma HardIsTerminal(site: Site, err: Cause, overtime: bool)
    requires !(TakesOvertime(site) && overtime) && !err.FeatureNotAvailable?
    ensures TriageAt(site, FailHard, err, overtime).toThrow.Some?
    ensures !TriageAt(site, FailHard, err, overtime).toThrow.value.retryTransaction
    ensures site != DocExistsOnStagedInsert ==> !TriageAt(site, FailHard, err, overtime).toThrow.value.autoRollbackAttempt
  {
    match site
    case Get =>
    case CreateStagedRemoveOrReplace =>
    case CreateStagedInsert =>
    case DocExistsOnStagedInsert =>
    case SetAtrPending =>
    case SetAtrComplete =>
    case UnstageRemove =>
    case UnstageInsertOrReplace =>
    case SetAtrCommit =>
    case SetAtrCommitAmbiguity =>
    case SetAtrAborted =>
    case SetAtrRolledBack =>
    case RollbackStagedInsert =>
    case RollbackStagedRemoveOrReplace =>
  }

  /** Failures after the commit point never trigger a rollback. */
  lemma UnstagingNeverRollsBack(site: Site, ec: ErrorClass, err: Cause, overtime: bool)
    requires site in {UnstageRemove, UnstageInsertOrReplace, SetAtrComplete}
    ensures TriageAt(site, ec, err, overtime).toThrow.Some? ==>
      !TriageAt(site, ec, err, overtime).toThrow.value.autoRollbackAttempt
      && !TriageAt(site, ec, err, overtime).toThrow.value.retryTransaction
  {
    if site == UnstageRemove {
    } else if site == UnstageInsertOrReplace {
    } else {
    }
  }

  /** In the rollback steps an expiry is swallowed and nothing asks a retry. */
  lemma RollbackStepsSwallowExpiry(site: Site, ec: ErrorClass, err: Cause, overtime: bool)
    requires IsRollbackStep(site)
    ensures TriageAt(site, FailExpiry, err, overtime).toThrow.None?
    ensures TriageAt(site, ec, err, overtime).toThrow.Some? ==>
      !TriageAt(site, ec, err, overtime).toThrow.value.retryTransaction
      && !TriageAt(site, ec, err, overtime).toThrow.value.autoRollbackAttempt
  {
    if site == SetAtrAborted {
    } else if site == SetAtrRolledBack {
    } else if site == RollbackStagedInsert {
    } else {
    }
  }

  /** A retry of the whole transaction is only ever asked for transient-like classes. */
  lemma RetryOnlyForRetryableClasses(site: Site, ec: ErrorClass, err: Cause, overtime: bool)
    ensures TriageAt(site, ec, err, overtime).toThrow.Some? && TriageAt(site, ec, err, overtime).toThrow.value.retryTransaction ==>
      ec in {FailTransient, FailDocNotFound, FailCasMismatch, FailAmbiguous, FailPathNotFound}
  {
    match site
    case Get =>
    case CreateStagedRemoveOrReplace =>
    case CreateStagedInsert =>
    case DocExistsOnStagedInsert =>
    case SetAtrPending =>
    case SetAtrComplete =>
    case UnstageRemove =>
    case UnstageInsertOrReplace =>
    case SetAtrCommit =>
    case SetAtrCommitAmbiguity =>
    case SetAtrAborted =>
    case SetAtrRolledBack =>
    case RollbackStagedInsert =>
    case RollbackStagedRemoveOrReplace =>
  }
}

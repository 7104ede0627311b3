/**
 * The classified transaction error (ErrorWrapperException) and the fluent
 * ErrorBuilder that produces it.
 */
module Errors {

  datatype Option<T> = None | Some(value: T)

  /** The classification `err.Classify()` gives a failure, as the core uses it. */
  datatype ErrorClass =
    | FailDocNotFound
    | FailDocAlreadyExists
    | FailCasMismatch
    | FailPathNotFound
    | FailPathAlreadyExists
    | FailTransient
    | FailAmbiguous
    | FailHard
    | FailExpiry
    | FailAtrFull
    | FailWriteWriteConflict
    | FailOther
    | TransactionOperationFailed

  /** The terminal error category an attempt reports to the application. */
  datatype FinalError =
    | TransactionFailed
    | TransactionExpired
    | TransactionCommitAmbiguous
    | TransactionFailedPostCommit

  /** The enum's numeric code. */
  function FinalErrorCode(f: FinalError): (n: nat)
    ensures n <= 3
    ensures n == 0 <==> f == TransactionFailed
  {
    match f
    case TransactionFailed => 0
    case TransactionExpired => 1
    case TransactionCommitAmbiguous => 2
    case TransactionFailedPostCommit => 3
  }

  /** The category a numeric code denotes, if any: the enum is closed. */
  function FinalErrorOfCode(n: int): (r: Option<FinalError>)
    ensures r.Some? <==> 0 <= n <= 3
    ensures r.Some? ==> FinalErrorCode(r.value) == n
  {
    if n == 0 then Some(TransactionFailed)
    else if n == 1 then Some(TransactionExpired)
    else if n == 2 then Some(TransactionCommitAmbiguous)
    else if n == 3 then Some(TransactionFailedPostCommit)
    else None
  }

  lemma FinalErrorCodeRoundTrip(f: FinalError)
    ensures FinalErrorOfCode(FinalErrorCode(f)) == Some(f)
  {
  }

  /** What the application sees for a terminal error category. */
  datatype ApplicationOutcome = Succeeded(unstagingComplete: bool) | Raised(kind: FinalError)

  /**
   * A post-commit failure is reported as success with unstaging incomplete;
   * every other category is raised.
   */
  function OutcomeOf(f: FinalError): (r: ApplicationOutcome)
    ensures r.Succeeded? <==> f == TransactionFailedPostCommit
    ensures r.Succeeded? ==> !r.unstagingComplete
    ensures r.Raised? ==> r.kind == f
  {
    if f == TransactionFailedPostCommit then Succeeded(false) else Raised(f)
  }

  /** The exception a classified error wraps; collaborator exceptions are opaque. */
  datatype Cause =
    | GenericCause                                  // "generic exception cause"
    | Raw(id: nat)                                  // raised by a collaborator
    | FeatureNotAvailable
    | AttemptExpired
    | AtrFull
    | AtrEntryNotFound                              // ActiveTransactionRecordEntryNotFoundException
    | AtrNotFound                                   // ActiveTransactionRecordNotFoundException
    | WrapperMissing(inner: Cause)                  // "Failed to generate proper exception wrapper"
    | PreviousOperationFailed(errors: seq<TransactionError>)
    | Classified(error: TransactionError)           // a classified error raised again
    | RetryLimitExceeded(limit: int)                // "Retry Limit (n) exceeded"
    | NullReference                                 // NullReferenceException
    | AbortedExternally                             // TransactionAbortedExternallyException
    | DocumentExists
    | DocumentNotFound
    | CasMismatch
    | AttemptNotFoundOnQuery
    | QueryFailure                                  // the exception a query raised
    | Described(message: string)                    // any other exception of the core, by message

  /** ErrorWrapperException: every property is read-only once constructed. */
  datatype TransactionError = TransactionError(
    causingErrorClass: ErrorClass,
    autoRollbackAttempt: bool,
    retryTransaction: bool,
    cause: Cause,
    finalErrorToRaise: FinalError)

  /** The builder's five settings, as a value. */
  datatype Builder = Builder(
    causingErrorClass: ErrorClass,
    toRaise: FinalError,
    rollbackAttempt: bool,
    retryTransaction: bool,
    cause: Cause)
  {
    function RaiseException(f: FinalError): Builder { this.(toRaise := f) }
    function DoNotRollbackAttempt(): Builder { this.(rollbackAttempt := false) }
    function RetryTransaction(): Builder { this.(retryTransaction := true) }
    function WithCause(c: Cause): Builder { this.(cause := c) }

    function Build(): (e: TransactionError)
      ensures e.causingErrorClass == causingErrorClass && e.cause == cause
      ensures e.autoRollbackAttempt == rollbackAttempt && e.retryTransaction == retryTransaction
      ensures e.finalErrorToRaise == toRaise
    {
      TransactionError(causingErrorClass, rollbackAttempt, retryTransaction, cause, toRaise)
    }
  }

  /** `_rollbackAttempt` as declared: a C# bool field starts out false. */
  const AsWrittenRollbackDefault := false

  /** The fresh builder as written: it never asks for an automatic rollback. */
  function NewBuilderAsWritten(ec: ErrorClass): (b: Builder)
    ensures b.causingErrorClass == ec && b.toRaise == TransactionFailed
    ensures !b.rollbackAttempt && !b.retryTransaction && b.cause == GenericCause
  {
    Builder(ec, TransactionFailed, AsWrittenRollbackDefault, false, GenericCause)
  }

  /**
   * The fresh builder with the default the disposition tables rely on:
   * rollback unless DoNotRollbackAttempt is called.
   */
  function NewBuilder(ec: ErrorClass): (b: Builder)
    ensures b.causingErrorClass == ec && b.toRaise == TransactionFailed
    ensures b.rollbackAttempt && !b.retryTransaction && b.cause == GenericCause
  {
    Builder(ec, TransactionFailed, true, false, GenericCause)
  }

  /**
   * `CreateError(ctx, ec, err)`, the overload the disposition tables call:
   * a fresh builder of class `ec` holding the cause `err`, raising
   * TransactionFailed, asking for a rollback and not for a retry.
   */
  function CreateError(ec: ErrorClass, err: Cause): (b: Builder)
    ensures b.causingErrorClass == ec && b.cause == err && b.toRaise == TransactionFailed
    ensures b.rollbackAttempt && !b.retryTransaction
  {
    NewBuilder(ec).WithCause(err)
  }

  /** One fluent call on a builder. */
  datatype BuilderStep = Raise(f: FinalError) | NoRollback | Retry | SetCause(c: Cause)

  function Step(b: Builder, s: BuilderStep): Builder
  {
    match s
    case Raise(f) => b.RaiseException(f)
    case NoRollback => b.DoNotRollbackAttempt()
    case Retry => b.RetryTransaction()
    case SetCause(c) => b.WithCause(c)
  }

  /** The builder after a chain of fluent calls, applied left to right. */
  function Apply(b: Builder, steps: seq<BuilderStep>): Builder
    decreases |steps|
  {
    if steps == [] then b else Apply(Step(b, steps[0]), steps[1..])
  }

  /** The final error of the last RaiseException in the chain, or `dflt`. */
  function LastRaised(steps: seq<BuilderStep>, dflt: FinalError): FinalError
    decreases |steps|
  {
    if steps == [] then dflt
    else LastRaised(steps[1..], if steps[0].Raise? then steps[0].f else dflt)
  }

  /** The cause of the last Cause call in the chain, or `dflt`. */
  function LastCause(steps: seq<BuilderStep>, dflt: Cause): Cause
    decreases |steps|
  {
    if steps == [] then dflt
    else LastCause(steps[1..], if steps[0].SetCause? then steps[0].c else dflt)
  }

  /**
   * What any chain of fluent calls yields: the causing class never changes,
   * the last RaiseException and the last Cause win, retry is set once any
   * RetryTransaction was called, and rollback survives only if no
   * DoNotRollbackAttempt was called.
   */
  lemma {:induction false} ApplyEffect(b: Builder, steps: seq<BuilderStep>)
    ensures Apply(b, steps).causingErrorClass == b.causingErrorClass
    ensures Apply(b, steps).toRaise == LastRaised(steps, b.toRaise)
    ensures Apply(b, steps).cause == LastCause(steps, b.cause)
    ensures Apply(b, steps).retryTransaction <==> (b.retryTransaction || Retry in steps)
    ensures Apply(b, steps).rollbackAttempt <==> (b.rollbackAttempt && NoRollback !in steps)
    decreases |steps|
  {
    if steps != [] {
      ApplyEffect(Step(b, steps[0]), steps[1..]);
      assert steps == [steps[0]] + steps[1..];
    }
  }

  /** As written, no chain of builder calls ever yields an error that rolls back. */
  lemma AsWrittenNeverRollsBack(ec: ErrorClass, steps: seq<BuilderStep>)
    ensures !Apply(NewBuilderAsWritten(ec), steps).Build().autoRollbackAttempt
    ensures Apply(NewBuilderAsWritten(ec), steps).Build().causingErrorClass == ec
  {
    ApplyEffect(NewBuilderAsWritten(ec), steps);
  }

  /**
   * With the intended default, a built error rolls back exactly when no
   * DoNotRollbackAttempt call was made, and it carries the causing class.
   */
  lemma RollbackIffNoDoNotRollback(ec: ErrorClass, steps: seq<BuilderStep>)
    ensures Apply(NewBuilder(ec), steps).Build().autoRollbackAttempt <==> NoRollback !in steps
    ensures Apply(NewBuilder(ec), steps).Build().retryTransaction <==> Retry in steps
    ensures Apply(NewBuilder(ec), steps).Build().finalErrorToRaise == LastRaised(steps, TransactionFailed)
    ensures Apply(NewBuilder(ec), steps).Build().causingErrorClass == ec
  {
    ApplyEffect(NewBuilder(ec), steps);
  }

  /** RetryTransaction is idempotent. */
  lemma RetryIdempotent(b: Builder)
    ensures b.RetryTransaction().RetryTransaction() == b.RetryTransaction()
    ensures b.RetryTransaction().retryTransaction
  {
  }

  /** The fluent builder: each call updates one field in place. */
  class ErrorBuilder {
    const causingErrorClass: ErrorClass
    var toRaise: FinalError
    var rollbackAttempt: bool
    var retryTransaction: bool
    var cause: Cause

    /** The builder's settings as a value. */
    function Value(): Builder
      reads this
    {
      Builder(causingErrorClass, toRaise, rollbackAttempt, retryTransaction, cause)
    }

    /** `CreateError(ctx, ec)`, with the field defaults as declared. */
    constructor (ec: ErrorClass)
      ensures Value() == NewBuilderAsWritten(ec)
    {
      causingErrorClass := ec;
      toRaise := TransactionFailed;
      rollbackAttempt := AsWrittenRollbackDefault;
      retryTransaction := false;
      cause := GenericCause;
    }

    method RaiseException(f: FinalError)
      modifies this
      ensures Value() == old(Value()).RaiseException(f)
    {
      toRaise := f;
    }

    method DoNotRollbackAttempt()
      modifies this
      ensures Value() == old(Value()).DoNotRollbackAttempt()
    {
      rollbackAttempt := false;
    }

    method RetryTransaction()
      modifies this
      ensures Value() == old(Value()).RetryTransaction()
    {
      retryTransaction := true;
    }

    /**
     * Stores the cause. One without a stack trace is rethrown and caught to
     * capture one; what is caught is the same exception, so it is stored too.
     */
    method SetCause(c: Cause, hasStackTrace: bool)
      modifies this
      ensures Value() == old(Value()).WithCause(c)
    {
      if hasStackTrace {
        cause := c;
      } else {
        var caught := c;
        cause := caught;
      }
    }

    method Build() returns (e: TransactionError)
      ensures e == Value().Build()
    {
      e := TransactionError(causingErrorClass, rollbackAttempt, retryTransaction, cause, toRaise);
    }
  }
}

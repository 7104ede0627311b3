/**
 * The query-error mapping of the attempt coordinator: which of the errors a
 * query reports is chosen (ChooseQueryError), and what that error becomes
 * (ConvertQueryError).
 */
module QueryErrors {
  import opened Errors
  import opened Text

  /** The "cause" object a query error may carry in its additional data. */
  datatype ErrorCause = ErrorCause(cause: Option<string>, raise: Option<string>, retry: Option<bool>, rollback: Option<bool>)

  /** The additional data's "cause" entry: absent, readable, or one that does not deserialize. */
  datatype CauseEntry = NoCauseEntry | CauseObject(value: ErrorCause) | Unreadable

  /** One error reported by the query service. */
  datatype QueryError = QueryError(code: int, message: string, cause: CauseEntry)

  /** The context of a failed query: the error list may be missing. */
  datatype ErrorContext = QueryErrorContext(errors: Option<seq<QueryError>>) | OtherContext

  /** The exception a query raised, as far as the conversion looks at it. */
  datatype QueryException =
    | QueryTimeout                                 // Couchbase.Core.Exceptions.TimeoutException
    | CouchbaseFailure(context: ErrorContext)      // any other CouchbaseException
    | OtherFailure                                 // not a CouchbaseException

  /** ChooseQueryError's answer; `First()` of an empty list raises. */
  datatype Choice = NoErrorList | Chosen(error: QueryError) | EmptyErrorList

  /** The error's message mentions "cause". */
  predicate MentionsCause(e: QueryError)
  {
    HasText(e.message, "cause")
  }

  /** The error's code is one of the transaction codes, 17000 to 17999. */
  predicate IsTransactionCode(e: QueryError)
  {
    17_000 <= e.code < 18_000
  }

  /** The first position at or after `from` whose error satisfies `p`. */
  function FirstFrom(errs: seq<QueryError>, p: QueryError -> bool, from: nat): (r: Option<nat>)
    requires from <= |errs|
    ensures r.Some? ==> from <= r.value < |errs| && p(errs[r.value])
    ensures r.Some? ==> forall j | from <= j < r.value :: !p(errs[j])
    ensures r.None? ==> forall j | from <= j < |errs| :: !p(errs[j])
    decreases |errs| - from
  {
    if from == |errs| then None
    else if p(errs[from]) then Some(from)
    else FirstFrom(errs, p, from + 1)
  }

  /**
   * Prefer the first error that mentions "cause", then the first with a
   * transaction code, then the first of all.
   */
  function ChooseQueryError(errors: Option<seq<QueryError>>): (c: Choice)
    ensures c.NoErrorList? <==> errors.None?
    ensures c.EmptyErrorList? <==> errors == Some([])
    ensures c.Chosen? ==> c.error in errors.value
  {
    if errors.None? then NoErrorList
    else
      var errs := errors.value;
      var byCause := FirstFrom(errs, MentionsCause, 0);
      if byCause.Some? then Chosen(errs[byCause.value])
      else
        var byCode := FirstFrom(errs, IsTransactionCode, 0);
        if byCode.Some? then Chosen(errs[byCode.value])
        else if errs == [] then EmptyErrorList
        else Chosen(errs[0])
  }

  /** The error chosen from a non-empty list is the first by the three preferences, in order. */
  lemma ChoiceOrder(errs: seq<QueryError>)
    requires errs != []
    ensures ChooseQueryError(Some(errs)).Chosen?
    ensures (exists i | 0 <= i < |errs| :: MentionsCause(errs[i])) ==>
      exists i | 0 <= i < |errs| :: ChooseQueryError(Some(errs)).error == errs[i] && MentionsCause(errs[i])
        && forall j | 0 <= j < i :: !MentionsCause(errs[j])
    ensures (forall i | 0 <= i < |errs| :: !MentionsCause(errs[i])) && (exists i | 0 <= i < |errs| :: IsTransactionCode(errs[i])) ==>
      exists i | 0 <= i < |errs| :: ChooseQueryError(Some(errs)).error == errs[i] && IsTransactionCode(errs[i])
        && forall j | 0 <= j < i :: !IsTransactionCode(errs[j])
    ensures (forall i | 0 <= i < |errs| :: !MentionsCause(errs[i]) && !IsTransactionCode(errs[i])) ==>
      ChooseQueryError(Some(errs)).error == errs[0]
  {
    var byCause := FirstFrom(errs, MentionsCause, 0);
    var byCode := FirstFrom(errs, IsTransactionCode, 0);
    if byCause.Some? {
      var i := byCause.value;
      assert ChooseQueryError(Some(errs)).error == errs[i];
    } else if byCode.Some? {
      var i := byCode.value;
      assert ChooseQueryError(Some(errs)).error == errs[i];
    }
  }

  /** The final error a query cause's "raise" entry names; anything else is TransactionFailed. */
  function RaiseOf(raise: Option<string>): (f: FinalError)
    ensures raise.None? ==> f == TransactionFailed
  {
    if raise == Some("failed_post_commit") then TransactionFailedPostCommit
    else if raise == Some("commit_ambiguous") then TransactionCommitAmbiguous
    else if raise == Some("expired") then TransactionExpired
    else TransactionFailed
  }

  /** The name the query service gives each final error. */
  function RaiseName(f: FinalError): string
  {
    match f
    case TransactionFailed => "failed"
    case TransactionExpired => "expired"
    case TransactionCommitAmbiguous => "commit_ambiguous"
    case TransactionFailedPostCommit => "failed_post_commit"
  }

  /** Every final error is read back from its name. */
  lemma RaiseNameRoundTrip(f: FinalError)
    ensures RaiseOf(Some(RaiseName(f))) == f
  {
  }

  /** The four names are the only ones that select something other than TransactionFailed. */
  lemma RaiseOfUnknownName(name: string)
    requires name !in {"failed_post_commit", "commit_ambiguous", "expired"}
    ensures RaiseOf(Some(name)) == TransactionFailed
  {
  }

  /** The classified error a query cause object becomes. */
  function FromCause(c: ErrorCause): (e: TransactionError)
    ensures e.causingErrorClass == FailOther && e.cause == QueryFailure
    ensures e.finalErrorToRaise == RaiseOf(c.raise)
    ensures e.retryTransaction <==> c.retry == Some(true)
    ensures !e.autoRollbackAttempt <==> c.rollback == Some(false)
  {
    var b0 := CreateError(FailOther, QueryFailure).RaiseException(RaiseOf(c.raise));
    var b1 := if c.retry == Some(true) then b0.RetryTransaction() else b0;
    var b2 := if c.rollback == Some(false) then b1.DoNotRollbackAttempt() else b1;
    b2.Build()
  }

  /** ConvertQueryError's answer: an exception to raise, null, or the deserializer's own exception. */
  datatype Conversion = Converted(cause: Cause) | NoConversion | ThrowsWhileReading

  /** The exception a coded query error stands for, when its code is one that is mapped. */
  function ByCode(code: int): (c: Option<Cause>)
    ensures c.Some? <==> code in {1065, 17004, 1080, 17010, 17012, 17014, 17015}
  {
    if code == 1065 then Some(Classified(CreateError(FailOther, FeatureNotAvailable).Build()))
    else if code == 17004 then Some(AttemptNotFoundOnQuery)
    else if code == 1080 || code == 17010 then
      Some(Classified(CreateError(FailExpiry, AttemptExpired).RaiseException(TransactionExpired).Build()))
    else if code == 17012 then Some(DocumentExists)
    else if code == 17014 then Some(DocumentNotFound)
    else if code == 17015 then Some(CasMismatch)
    else None
  }

  /**
   * A timeout is an expired attempt; a query failure with at least one
   * error maps the chosen error by code, then by its cause object; anything
   * else converts to null.
   */
  function ConvertQueryError(err: QueryException): (r: Conversion)
    ensures err.QueryTimeout? ==> r == Converted(AttemptExpired)
    ensures err.OtherFailure? ==> r == NoConversion
    ensures err.CouchbaseFailure? && err.context.OtherContext? ==> r == NoConversion
    ensures err == CouchbaseFailure(QueryErrorContext(None)) ==> r == NoConversion
    ensures err == CouchbaseFailure(QueryErrorContext(Some([]))) ==> r == NoConversion
    ensures r.ThrowsWhileReading? ==> err.CouchbaseFailure?
  {
    match err
    case QueryTimeout => Converted(AttemptExpired)
    case OtherFailure => NoConversion
    case CouchbaseFailure(OtherContext) => NoConversion
    case CouchbaseFailure(QueryErrorContext(errors)) =>
      if errors.None? || |errors.value| < 1 then NoConversion
      else
        var chosen := ChooseQueryError(errors);
        if !chosen.Chosen? then NoConversion
        else
          var code := chosen.error.code;
          var mapped := ByCode(code);
          if mapped.Some? then Converted(mapped.value)
          else match chosen.error.cause
            case NoCauseEntry => NoConversion
            case Unreadable => ThrowsWhileReading
            case CauseObject(c) => Converted(Classified(FromCause(c)))
  }

  /**
   * For a query failure with any non-empty error list, the conversion is
   * that of the error ChooseQueryError picks: its mapped code first, then
   * its cause object.
   */
  lemma ChosenErrorConversion(errs: seq<QueryError>)
    requires errs != []
    ensures ChooseQueryError(Some(errs)).Chosen?
    ensures var chosen := ChooseQueryError(Some(errs)).error;
      ByCode(chosen.code).Some? ==>
        ConvertQueryError(CouchbaseFailure(QueryErrorContext(Some(errs)))) == Converted(ByCode(chosen.code).value)
    ensures var chosen := ChooseQueryError(Some(errs)).error;
      ByCode(chosen.code).None? && chosen.cause.CauseObject? ==>
        ConvertQueryError(CouchbaseFailure(QueryErrorContext(Some(errs)))) == Converted(Classified(FromCause(chosen.cause.value)))
    ensures var chosen := ChooseQueryError(Some(errs)).error;
      ByCode(chosen.code).None? && chosen.cause.NoCauseEntry? ==>
        ConvertQueryError(CouchbaseFailure(QueryErrorContext(Some(errs)))) == NoConversion
    ensures var chosen := ChooseQueryError(Some(errs)).error;
      ByCode(chosen.code).None? && chosen.cause.Unreadable? ==>
        ConvertQueryError(CouchbaseFailure(QueryErrorContext(Some(errs)))) == ThrowsWhileReading
  {
    ChoiceOrder(errs);
  }

  /** The coded errors that stand for classified errors carry the classes and final errors the code names. */
  lemma CodedErrors()
    ensures ByCode(1065).value.Classified? && ByCode(1065).value.error.causingErrorClass == FailOther
    ensures ByCode(1065).value.error.cause == FeatureNotAvailable
    ensures forall code | code in {1080, 17010} ::
      ByCode(code).Some? && ByCode(code).value.Classified?
      && ByCode(code).value.error.causingErrorClass == FailExpiry
      && ByCode(code).value.error.finalErrorToRaise == TransactionExpired
    ensures ByCode(17004) == Some(AttemptNotFoundOnQuery)
    ensures ByCode(17012) == Some(DocumentExists) && ByCode(17014) == Some(DocumentNotFound)
    ensures ByCode(17015) == Some(CasMismatch)
  {
  }

  /**
   * For a query failure with a single error: a mapped code wins over the
   * cause object; an unmapped code with a cause object becomes the
   * classified error that object describes.
   */
  lemma SingleErrorConversion(e: QueryError)
    ensures ByCode(e.code).Some? ==>
      ConvertQueryError(CouchbaseFailure(QueryErrorContext(Some([e])))) == Converted(ByCode(e.code).value)
    ensures ByCode(e.code).None? && e.cause.CauseObject? ==>
      ConvertQueryError(CouchbaseFailure(QueryErrorContext(Some([e])))) == Converted(Classified(FromCause(e.cause.value)))
    ensures ByCode(e.code).None? && e.cause.NoCauseEntry? ==>
      ConvertQueryError(CouchbaseFailure(QueryErrorContext(Some([e])))) == NoConversion
  {
    ChoiceOrder([e]);
  }
}

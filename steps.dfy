/**
 * The bodies AttemptContext hands to RepeatUntilSuccessOrThrow, one per
 * protocol step, as pure functions of the attempt fields they touch.
 *
 * Storage, the ATR repository and the clock are not modelled: a `World`
 * answers each collaborator call by its position in the attempt's sequence
 * of calls (the `tick`), and every call moves the tick on by one.
 */
module Steps {
  import opened Errors
  import opened States
  import opened Xattrs
  import opened Triage
  import opened Ledger
  import opened Mav
  import opened Repeat

  /** A mutation's reply: the new CAS, or the exception it raised. */
  datatype WriteReply = Wrote(cas: nat) | WriteFailed(c: Cause)

  /** LookupAtrState's reply: a state name that parses, one that does not (None), or an exception. */
  datatype StateReply = StateIs(state: Option<AttemptState>) | StateFailed(c: Cause)

  /** A document lookup's reply: the document, null (None), or an exception. */
  datatype LookupReply = Looked(doc: Option<Doc>) | LookupFailed(c: Cause)

  /** The collaborators, answering the call made at each tick. */
  datatype World = World(
    expired: nat -> bool,       // HasExpiredClientSide; the test hook never fakes expiry
    write: nat -> WriteReply,   // any document or ATR mutation
    atrState: nat -> StateReply,
    lookup: nat -> LookupReply,
    blocker: nat -> AtrReply,   // the ATR entry of the attempt that blocks a write
    elapsedMs: nat -> nat,      // the write-write-conflict stopwatch
    mavReads: nat -> seq<MavRound>) // the lookups of one GetWithMav, round by round

  /** The attempt fields a step reads and writes, and the next tick. */
  datatype Ctx = Ctx(state: AttemptState, overtime: bool, tick: nat)

  /** The rule that a failure which is itself a classified error is classified as such. */
  ghost predicate WrapsAsOperationFailed(classify: Cause -> ErrorClass)
  {
    forall e :: classify(Classified(e)) == TransactionOperationFailed
  }

  /** The rule that an expired attempt is classified as FailExpiry. */
  ghost predicate ExpiryIsFailExpiry(classify: Cause -> ErrorClass)
  {
    classify(AttemptExpired) == FailExpiry
  }

  /** What a classified error a step raises is: a TransactionOperationFailedException. */
  function OperationFailed(e: TransactionError): Cause { Classified(e) }

  /** `throw _triage.AssertNotNull(triaged, ex)`. */
  function TriagedThrow(t: Triaged, ex: Cause): (c: Cause)
    ensures c.Classified?
    ensures t.toThrow.Some? ==> c.error == t.toThrow.value
  {
    OperationFailed(AssertNotNull(t.toThrow, t.ec, ex))
  }

  /** ErrorIfExpiredAndNotInExpiryOvertimeMode: the raw expiry it raises, if any. */
  function ExpiryGuard(w: World, c: Ctx): (r: Option<Cause>)
    ensures r.Some? <==> !c.overtime && w.expired(c.tick)
    ensures r.Some? ==> r.value == AttemptExpired
  {
    if c.overtime then None
    else if w.expired(c.tick) then Some(AttemptExpired)
    else None
  }

  /** BailoutIfInOvertime's error: an expiry, without rollback unless `rollback`. */
  function Bailout(rollback: bool): (e: TransactionError)
    ensures e.causingErrorClass == FailExpiry && e.finalErrorToRaise == TransactionExpired
    ensures e.autoRollbackAttempt == rollback && !e.retryTransaction
  {
    var b := CreateError(FailExpiry, AttemptExpired).RaiseException(TransactionExpired);
    (if rollback then b else b.DoNotRollbackAttempt()).Build()
  }

  /** The error unstaging raises in overtime: an expiry reported as a post-commit failure. */
  function PostCommitExpiry(): (e: TransactionError)
    ensures e.causingErrorClass == FailExpiry && e.finalErrorToRaise == TransactionFailedPostCommit
    ensures !e.autoRollbackAttempt && !e.retryTransaction
  {
    CreateError(FailExpiry, AttemptExpired).DoNotRollbackAttempt().RaiseException(TransactionFailedPostCommit).Build()
  }

  /** The try block of an ATR or document mutation: succeeded with a CAS, or caught an exception. */
  datatype Try = Ok(cas: nat, next: Ctx) | Caught(ex: Cause, next: Ctx)

  /** The expiry guard (when `guarded`), then one mutation call. */
  function GuardedWrite(w: World, c: Ctx, guarded: bool): (r: Try)
    ensures r.next.state == c.state && r.next.overtime == c.overtime
    ensures r.next.tick == c.tick || r.next.tick == c.tick + 1
    ensures guarded && ExpiryGuard(w, c).Some? ==> r == Caught(AttemptExpired, c)
    ensures !(guarded && ExpiryGuard(w, c).Some?) ==>
      r == match w.write(c.tick)
        case Wrote(cas) => Ok(cas, c.(tick := c.tick + 1))
        case WriteFailed(x) => Caught(x, c.(tick := c.tick + 1))
  {
    if guarded && ExpiryGuard(w, c).Some? then Caught(AttemptExpired, c)
    else match w.write(c.tick)
      case Wrote(cas) => Ok(cas, c.(tick := c.tick + 1))
      case WriteFailed(x) => Caught(x, c.(tick := c.tick + 1))
  }

  // ---------------------------------------------------------------- SetAtrPending

  /** One call of SetAtrPending's body. */
  function PendingTurn(w: World, classify: Cause -> ErrorClass, c: Ctx): Turn<Ctx, ()>
  {
    match GuardedWrite(w, c, true)
    case Ok(_, n) => Turn(NoRepeat, (), n.(state := PENDING))
    case Caught(ex, n) =>
      var t := TriageSetAtrPendingErrors(classify(ex), ex, n.overtime);
      if t.ec == FailExpiry then Threw(TriagedThrow(t, ex), n.(overtime := true))
      else if t.ec == FailAmbiguous then Turn(RepeatWithDelay, (), n)
      else if t.ec == FailPathAlreadyExists then Turn(NoRepeat, (), n)
      else Threw(TriagedThrow(t, ex), n)
  }

  function PendingBody(w: World, classify: Cause -> ErrorClass): Ctx -> Turn<Ctx, ()>
  {
    c => PendingTurn(w, classify, c)
  }

  /**
   * Each call of SetAtrPending's body ends NoRepeat only with the entry
   * written PENDING or already existing, repeats only after an ambiguous
   * write, and keeps the overtime flag once set.
   */
  lemma PendingTurnEffect(w: World, classify: Cause -> ErrorClass, c: Ctx)
    requires ExpiryIsFailExpiry(classify)
    ensures var t := PendingTurn(w, classify, c);
      t.Turn? && t.action == NoRepeat ==> t.next.state == PENDING || (w.write(c.tick).WriteFailed? && classify(w.write(c.tick).c) == FailPathAlreadyExists)
    ensures var t := PendingTurn(w, classify, c);
      t.Turn? && t.action != NoRepeat ==> t.action == RepeatWithDelay && !c.overtime && t.next.state == c.state
    ensures c.overtime ==> PendingTurn(w, classify, c).next.overtime
    ensures PendingTurn(w, classify, c).Threw? ==> PendingTurn(w, classify, c).error.Classified?
  {
  }

  // ---------------------------------------------------------------- SetAtrCommit

  /** The error ambiguity resolution raises for a state it cannot continue from. */
  function NoRollbackOther(cause: Cause): (e: TransactionError)
    ensures e.causingErrorClass == FailOther && e.cause == cause
    ensures !e.autoRollbackAttempt && !e.retryTransaction && e.finalErrorToRaise == TransactionFailed
  {
    CreateError(FailOther, cause).DoNotRollbackAttempt().Build()
  }

  const UnparsableState := Described("ATR state could not be parsed")
  const UnknownState := Described("Unknown state in ambiguity resolution.")

  /**
   * One call of ResolveSetAtrCommitAmbiguity's body. Its value is what
   * SetAtrCommit does next.
   */
  function ResolveTurn(w: World, classify: Cause -> ErrorClass, c: Ctx): Turn<Ctx, RepeatAction>
  {
    var tried: Turn<Ctx, RepeatAction> :=
      if ExpiryGuard(w, c).Some? then Threw(AttemptExpired, c)
      else
        var n := c.(tick := c.tick + 1);
        match w.atrState(c.tick)
        case StateFailed(x) => Threw(x, n)
        case StateIs(None) => Threw(OperationFailed(NoRollbackOther(UnparsableState)), n)
        case StateIs(Some(s)) =>
          if s == COMMITTED then Turn(NoRepeat, NoRepeat, n)
          else if s == PENDING then Turn(NoRepeat, RepeatWithDelay, n)
          else if s == ABORTED || s == ROLLED_BACK then Threw(OperationFailed(NoRollbackOther(AbortedExternally)), n)
          else Threw(OperationFailed(NoRollbackOther(UnknownState)), n);
    if tried.Turn? then tried
    else
      // everything raised in the try block, its own errors included, is caught
      var ex := tried.error;
      var t := TriageSetAtrCommitAmbiguityErrors(classify(ex), ex);
      if t.ec == FailExpiry then Threw(TriagedThrow(t, ex), tried.next.(overtime := true))
      else if t.ec == FailTransient || t.ec == FailOther then Turn(RepeatWithDelay, RepeatWithDelay, tried.next)
      else Threw(TriagedThrow(t, ex), tried.next)
  }

  function ResolveBody(w: World, classify: Cause -> ErrorClass): Ctx -> Turn<Ctx, RepeatAction>
  {
    c => ResolveTurn(w, classify, c)
  }

  /**
   * Ambiguity resolution by the ATR state it reads (the expiry guard
   * passing): COMMITTED ends SetAtrCommit without another write, PENDING
   * restarts it, and any other state or an unparsable one raises an error
   * without rollback that wraps the FailOther error naming the reason.
   */
  lemma ResolveByState(w: World, classify: Cause -> ErrorClass, c: Ctx)
    requires WrapsAsOperationFailed(classify)
    requires ExpiryGuard(w, c).None? && w.atrState(c.tick).StateIs?
    ensures var t := ResolveTurn(w, classify, c);
      var read := w.atrState(c.tick).state;
      && t.next.tick == c.tick + 1 && t.next.state == c.state
      && (read == Some(COMMITTED) ==> t == Turn(NoRepeat, NoRepeat, t.next))
      && (read == Some(PENDING) ==> t == Turn(NoRepeat, RepeatWithDelay, t.next))
      && (read == Some(ABORTED) || read == Some(ROLLED_BACK) ==>
            t.Threw? && t.error == OperationFailed(WithoutRollback(TransactionOperationFailed, OperationFailed(NoRollbackOther(AbortedExternally)))))
      && (read.None? ==>
            t.Threw? && t.error == OperationFailed(WithoutRollback(TransactionOperationFailed, OperationFailed(NoRollbackOther(UnparsableState)))))
      && (read.Some? && read.value !in {COMMITTED, PENDING, ABORTED, ROLLED_BACK} ==>
            t.Threw? && t.error == OperationFailed(WithoutRollback(TransactionOperationFailed, OperationFailed(NoRollbackOther(UnknownState)))))
  {
    match w.atrState(c.tick).state
    case None =>
    case Some(s) =>
      if s == COMMITTED || s == PENDING {
      } else if s == ABORTED || s == ROLLED_BACK {
      } else {
      }
  }

  /** `Error(ec, err, rollback: false)`. */
  function WithoutRollback(ec: ErrorClass, err: Cause): (e: TransactionError)
    ensures e.causingErrorClass == ec && e.cause == err && !e.autoRollbackAttempt && !e.retryTransaction
  {
    CreateError(ec, err).DoNotRollbackAttempt().Build()
  }

  /** Whatever ambiguity resolution raises does not roll the attempt back. */
  lemma ResolveNeverRollsBack(w: World, classify: Cause -> ErrorClass, c: Ctx)
    requires WrapsAsOperationFailed(classify)
    ensures var t := ResolveTurn(w, classify, c);
      t.Threw? ==> t.error.Classified? && !t.error.error.autoRollbackAttempt
  {
  }

  /** One call of SetAtrCommit's body; ambiguity runs the resolution loop once. */
  function CommitTurn(w: World, classify: Cause -> ErrorClass, c: Ctx): Turn<Ctx, ()>
  {
    match GuardedWrite(w, c, true)
    case Ok(_, n) => Turn(NoRepeat, (), n.(state := COMMITTED))
    case Caught(ex, n) =>
      var t := TriageSetAtrCommitErrors(classify(ex), ex);
      if t.ec == FailExpiry then Threw(TriagedThrow(t, ex), n.(overtime := true))
      else if t.ec == FailAmbiguous then
        match RunFromStart(ResolveBody(w, classify), n, DefaultRetryLimit).outcome
        case Returned(next, s) => Turn(next, (), s)
        case Thrown(e, s) => Threw(e, s)
      else Threw(TriagedThrow(t, ex), n)
  }

  function CommitBody(w: World, classify: Cause -> ErrorClass): Ctx -> Turn<Ctx, ()>
  {
    c => CommitTurn(w, classify, c)
  }

  /**
   * A call of SetAtrCommit's body that asks no repeat leaves the state
   * COMMITTED after its own write, or unchanged when ambiguity resolution
   * read COMMITTED; it never moves the state anywhere else.
   */
  lemma CommitTurnState(w: World, classify: Cause -> ErrorClass, c: Ctx)
    ensures var t := CommitTurn(w, classify, c);
      t.next.state == COMMITTED || t.next.state == c.state
    ensures var t := CommitTurn(w, classify, c);
      t.Turn? && t.action != NoRepeat ==> t.action == RepeatWithDelay && t.next.state == c.state
    ensures c.overtime ==> CommitTurn(w, classify, c).next.overtime
    // its own ATR write passing ends the call with COMMITTED and no repeat
    ensures GuardedWrite(w, c, true).Ok? ==>
      CommitTurn(w, classify, c) == Turn(NoRepeat, (), GuardedWrite(w, c, true).next.(state := COMMITTED))
  {
    var n := GuardedWrite(w, c, true).next;
    ResolveKeepsState(w, classify, n);
    ResolveNextAction(w, classify, n);
  }

  /** `c` has the attempt state `c0` had, and is in overtime if `c0` was. */
  predicate Keeps(c0: Ctx, c: Ctx)
  {
    c.state == c0.state && (c0.overtime ==> c.overtime)
  }

  /** Ambiguity resolution never changes the attempt state, and never leaves overtime. */
  lemma ResolveKeepsState(w: World, classify: Cause -> ErrorClass, c: Ctx)
    ensures Keeps(c, RunFromStart(ResolveBody(w, classify), c, DefaultRetryLimit).outcome.state)
  {
    var inv := (x: Ctx) => Keeps(c, x);
    forall x | inv(x)
      ensures inv(ResolveBody(w, classify)(x).next)
    {
    }
    RunPreserves(ResolveBody(w, classify), inv, c, DefaultRetryLimit, -1, InitialBackoffMs);
  }

  /** Ambiguity resolution returns only NoRepeat (COMMITTED was read) or RepeatWithDelay (PENDING was read). */
  lemma ResolveNextAction(w: World, classify: Cause -> ErrorClass, c: Ctx)
    ensures var o := RunFromStart(ResolveBody(w, classify), c, DefaultRetryLimit).outcome;
      o.Returned? ==> o.value == NoRepeat || o.value == RepeatWithDelay
  {
    var done := (v: RepeatAction, s: Ctx) => v == NoRepeat || v == RepeatWithDelay;
    RunReturnsVia(ResolveBody(w, classify), done, c, DefaultRetryLimit, -1, InitialBackoffMs);
  }

  // ---------------------------------------------------------------- unstaging

  /** Unstaging first enters overtime when the attempt has expired. */
  function EnterOvertimeIfExpired(w: World, c: Ctx): (n: Ctx)
    ensures n.overtime == (c.overtime || w.expired(c.tick))
    ensures n.state == c.state && n.tick == c.tick
  {
    if !c.overtime && w.expired(c.tick) then c.(overtime := true) else c
  }

  /** One call of UnstageRemove's body. */
  function UnstageRemoveTurn(w: World, classify: Cause -> ErrorClass, c: Ctx): Turn<Ctx, ()>
  {
    match GuardedWrite(w, EnterOvertimeIfExpired(w, c), false)
    case Ok(_, n) => Turn(NoRepeat, (), n)
    case Caught(ex, n) =>
      var t := TriageUnstageRemoveErrors(classify(ex), ex, n.overtime);
      if n.overtime then Threw(OperationFailed(PostCommitExpiry()), n)
      else if t.ec == FailAmbiguous then Turn(RepeatWithDelay, (), n)
      else Threw(TriagedThrow(t, ex), n)
  }

  function UnstageRemoveBody(w: World, classify: Cause -> ErrorClass): Ctx -> Turn<Ctx, ()>
  {
    c => UnstageRemoveTurn(w, classify, c)
  }

  /** The fields UnstageInsertOrReplace's body updates between calls. */
  datatype UnstageCtx = UnstageCtx(ctx: Ctx, cas: nat, insertMode: bool, ambiguity: bool)

  /** One call of UnstageInsertOrReplace's body; its value is the CAS the write returned. */
  function UnstageTurn(w: World, classify: Cause -> ErrorClass, u: UnstageCtx): Turn<UnstageCtx, nat>
  {
    match GuardedWrite(w, EnterOvertimeIfExpired(w, u.ctx), false)
    case Ok(cas, n) => Turn(NoRepeat, cas, u.(ctx := n))
    case Caught(ex, n) =>
      var t := TriageUnstageInsertOrReplaceErrors(classify(ex), ex, n.overtime);
      var v := u.(ctx := n);
      if n.overtime then Threw(OperationFailed(PostCommitExpiry()), v)
      else match t.ec
        case FailAmbiguous => Turn(RepeatWithDelay, 0, v.(ambiguity := true))
        case FailCasMismatch =>
          if u.ambiguity then Threw(TriagedThrow(t, ex), v) else Turn(RepeatWithDelay, 0, v.(cas := 0))
        case FailDocNotFound => Turn(RepeatWithDelay, 0, v.(insertMode := true))
        case FailDocAlreadyExists =>
          if u.ambiguity then Threw(TriagedThrow(t, ex), v) else Turn(RepeatWithDelay, 0, v.(insertMode := false, cas := 0))
        case _ => Threw(TriagedThrow(t, ex), v)
  }

  function UnstageBody(w: World, classify: Cause -> ErrorClass): UnstageCtx -> Turn<UnstageCtx, nat>
  {
    u => UnstageTurn(w, classify, u)
  }

  /**
   * The unstage retry rules for one failed write outside overtime: ambiguity
   * switches on ambiguity mode; a CAS mismatch retries with CAS 0 or, in
   * ambiguity mode, raises; a missing document retries as an insert; an
   * existing document retries as a replace with CAS 0 or, in ambiguity
   * mode, raises. Anything else raises.
   */
  lemma UnstageRetryRules(w: World, classify: Cause -> ErrorClass, u: UnstageCtx)
    requires !u.ctx.overtime && !w.expired(u.ctx.tick) && w.write(u.ctx.tick).WriteFailed?
    ensures var t := UnstageTurn(w, classify, u);
      var ec := classify(w.write(u.ctx.tick).c);
      && t.next.ctx == u.ctx.(tick := u.ctx.tick + 1)
      && (ec == FailAmbiguous ==> t.Turn? && t.action == RepeatWithDelay && t.next == u.(ctx := t.next.ctx, ambiguity := true))
      && (ec == FailCasMismatch && !u.ambiguity ==> t.Turn? && t.action == RepeatWithDelay && t.next == u.(ctx := t.next.ctx, cas := 0))
      && (ec == FailDocNotFound ==> t.Turn? && t.action == RepeatWithDelay && t.next == u.(ctx := t.next.ctx, insertMode := true))
      && (ec == FailDocAlreadyExists && !u.ambiguity ==>
            t.Turn? && t.action == RepeatWithDelay && t.next == u.(ctx := t.next.ctx, insertMode := false, cas := 0))
      && ((ec in {FailCasMismatch, FailDocAlreadyExists} && u.ambiguity) || ec !in {FailAmbiguous, FailCasMismatch, FailDocNotFound, FailDocAlreadyExists} ==>
            t.Threw?)
  {
  }

  /**
   * Nothing unstaging raises rolls the attempt back: outside overtime it is
   * the table's post-commit error, in overtime a post-commit expiry.
   */
  lemma UnstageRaisesNoRollback(w: World, classify: Cause -> ErrorClass, u: UnstageCtx, c: Ctx)
    ensures UnstageTurn(w, classify, u).Threw? ==>
      UnstageTurn(w, classify, u).error.Classified? && !UnstageTurn(w, classify, u).error.error.autoRollbackAttempt
    ensures UnstageRemoveTurn(w, classify, c).Threw? ==>
      UnstageRemoveTurn(w, classify, c).error.Classified? && !UnstageRemoveTurn(w, classify, c).error.error.autoRollbackAttempt
    ensures (u.ctx.overtime || w.expired(u.ctx.tick)) && UnstageTurn(w, classify, u).Threw? ==>
      UnstageTurn(w, classify, u).error == OperationFailed(PostCommitExpiry())
    ensures (c.overtime || w.expired(c.tick)) && UnstageRemoveTurn(w, classify, c).Threw? ==>
      UnstageRemoveTurn(w, classify, c).error == OperationFailed(PostCommitExpiry())
  {
  }

  // ---------------------------------------------------------------- rollback

  /** One call of SetAtrAborted's body. */
  function AbortedTurn(w: World, classify: Cause -> ErrorClass, c: Ctx): Turn<Ctx, ()>
  {
    match GuardedWrite(w, c, true)
    case Ok(_, n) => Turn(NoRepeat, (), n.(state := ABORTED))
    case Caught(ex, n) =>
      if n.overtime then Threw(OperationFailed(Bailout(false)), n)
      else
        var t := TriageSetAtrAbortedErrors(classify(ex), ex);
        if t.ec == FailExpiry then Turn(RepeatWithBackoff, (), n.(overtime := true))
        else if t.ec in {FailPathNotFound, FailDocNotFound, FailAtrFull, FailHard} then Threw(TriagedThrow(t, ex), n)
        else Turn(RepeatWithBackoff, (), n)
  }

  function AbortedBody(w: World, classify: Cause -> ErrorClass): Ctx -> Turn<Ctx, ()>
  {
    c => AbortedTurn(w, classify, c)
  }

  /** One call of SetAtrRolledBack's body. */
  function RolledBackTurn(w: World, classify: Cause -> ErrorClass, c: Ctx): Turn<Ctx, ()>
  {
    match GuardedWrite(w, c, true)
    case Ok(_, n) => Turn(NoRepeat, (), n.(state := ROLLED_BACK))
    case Caught(ex, n) =>
      if n.overtime then Threw(OperationFailed(Bailout(false)), n)
      else
        var t := TriageSetAtrRolledBackErrors(classify(ex), ex);
        if t.ec == FailPathNotFound || t.ec == FailDocNotFound then Turn(NoRepeat, (), n)
        else if t.ec == FailExpiry || t.ec == FailHard then Threw(TriagedThrow(t, ex), n)
        else Turn(RepeatWithBackoff, (), n)
  }

  function RolledBackBody(w: World, classify: Cause -> ErrorClass): Ctx -> Turn<Ctx, ()>
  {
    c => RolledBackTurn(w, classify, c)
  }

  /** One call of RollbackStagedInsert's body. */
  function RollbackInsertTurn(w: World, classify: Cause -> ErrorClass, c: Ctx): Turn<Ctx, ()>
  {
    match GuardedWrite(w, c, true)
    case Ok(_, n) => Turn(NoRepeat, (), n)
    case Caught(ex, n) =>
      if n.overtime then Threw(OperationFailed(Bailout(false)), n)
      else
        var t := TriageRollbackStagedInsertErrors(classify(ex), ex);
        if t.ec == FailExpiry then Turn(RepeatWithBackoff, (), n.(overtime := true))
        else if t.ec == FailDocNotFound || t.ec == FailPathNotFound then Turn(NoRepeat, (), n)
        else if t.ec == FailCasMismatch || t.ec == FailHard then Threw(TriagedThrow(t, ex), n)
        else Turn(RepeatWithBackoff, (), n)
  }

  function RollbackInsertBody(w: World, classify: Cause -> ErrorClass): Ctx -> Turn<Ctx, ()>
  {
    c => RollbackInsertTurn(w, classify, c)
  }

  /** One call of RollbackStagedReplaceOrRemove's body. */
  function RollbackReplaceOrRemoveTurn(w: World, classify: Cause -> ErrorClass, c: Ctx): Turn<Ctx, ()>
  {
    match GuardedWrite(w, c, true)
    case Ok(_, n) => Turn(NoRepeat, (), n)
    case Caught(ex, n) =>
      if n.overtime then Threw(OperationFailed(Bailout(false)), n)
      else
        var t := TriageRollbackStagedRemoveOrReplaceErrors(classify(ex), ex);
        if t.ec == FailExpiry then Turn(RepeatWithBackoff, (), n.(overtime := true))
        else if t.ec == FailPathNotFound then Turn(NoRepeat, (), n)
        else if t.ec in {FailDocNotFound, FailCasMismatch, FailHard} then Threw(TriagedThrow(t, ex), n)
        else Turn(RepeatWithBackoff, (), n)
  }

  function RollbackReplaceOrRemoveBody(w: World, classify: Cause -> ErrorClass): Ctx -> Turn<Ctx, ()>
  {
    c => RollbackReplaceOrRemoveTurn(w, classify, c)
  }

  /**
   * The rollback steps: the ATR write sets ABORTED or ROLLED_BACK and
   * nothing else; a failure in overtime bails out as an expiry without
   * rollback; a first classified expiry enters overtime and backs off.
   */
  lemma RollbackTurns(w: World, classify: Cause -> ErrorClass, c: Ctx)
    ensures var t := AbortedTurn(w, classify, c);
      (t.Turn? && t.action == NoRepeat ==> t.next.state == ABORTED)
      && (t.next.state == ABORTED || t.next.state == c.state)
    ensures var t := RolledBackTurn(w, classify, c);
      t.next.state == ROLLED_BACK || t.next.state == c.state
    // a passed ATR write ends the call with ABORTED or ROLLED_BACK and no repeat
    ensures GuardedWrite(w, c, true).Ok? ==>
      AbortedTurn(w, classify, c) == Turn(NoRepeat, (), GuardedWrite(w, c, true).next.(state := ABORTED))
    ensures GuardedWrite(w, c, true).Ok? ==>
      RolledBackTurn(w, classify, c) == Turn(NoRepeat, (), GuardedWrite(w, c, true).next.(state := ROLLED_BACK))
    ensures RollbackInsertTurn(w, classify, c).next.state == c.state
    ensures RollbackReplaceOrRemoveTurn(w, classify, c).next.state == c.state
    ensures c.overtime && GuardedWrite(w, c, true).Caught? ==>
      AbortedTurn(w, classify, c) == Threw(OperationFailed(Bailout(false)), GuardedWrite(w, c, true).next)
      && RolledBackTurn(w, classify, c) == Threw(OperationFailed(Bailout(false)), GuardedWrite(w, c, true).next)
      && RollbackInsertTurn(w, classify, c) == Threw(OperationFailed(Bailout(false)), GuardedWrite(w, c, true).next)
      && RollbackReplaceOrRemoveTurn(w, classify, c) == Threw(OperationFailed(Bailout(false)), GuardedWrite(w, c, true).next)
  {
  }

  /**
   * Nothing the rollback steps raise asks for a retry, and nothing but
   * the expiry SetAtrRolledBack passes on unwrapped rolls back.
   */
  lemma RollbackRaisesNoRollback(w: World, classify: Cause -> ErrorClass, c: Ctx)
    ensures var t := AbortedTurn(w, classify, c);
      t.Threw? ==> t.error.Classified? && !t.error.error.autoRollbackAttempt && !t.error.error.retryTransaction
    ensures var t := RolledBackTurn(w, classify, c);
      t.Threw? ==> (t.error.Classified? && !t.error.error.retryTransaction
        && (t.error.error.autoRollbackAttempt ==> t.error.error.causingErrorClass == FailExpiry))
    ensures var t := RollbackInsertTurn(w, classify, c);
      t.Threw? ==> t.error.Classified? && !t.error.error.autoRollbackAttempt && !t.error.error.retryTransaction
    ensures var t := RollbackReplaceOrRemoveTurn(w, classify, c);
      t.Threw? ==> t.error.Classified? && !t.error.error.autoRollbackAttempt && !t.error.error.retryTransaction
  {
  }

  // ---------------------------------------------------------------- overtime

  /** Every step keeps the overtime flag once it is set. */
  lemma TurnsKeepOvertime(w: World, classify: Cause -> ErrorClass, c: Ctx, u: UnstageCtx)
    requires c.overtime && u.ctx.overtime
    ensures PendingTurn(w, classify, c).next.overtime
    ensures AbortedTurn(w, classify, c).next.overtime
    ensures RolledBackTurn(w, classify, c).next.overtime
    ensures RollbackInsertTurn(w, classify, c).next.overtime
    ensures RollbackReplaceOrRemoveTurn(w, classify, c).next.overtime
    ensures UnstageRemoveTurn(w, classify, c).next.overtime
    ensures UnstageTurn(w, classify, u).next.ctx.overtime
  {
  }

  // ---------------------------------------------------------------- write-write conflict

  /** CheckWriteWriteConflict gives up after this many milliseconds. */
  const WriteWriteConflictTimeLimitMs := 1000

  /** CheckExpiryAndThrow's error. */
  function ExpiredError(): (e: TransactionError)
    ensures e.causingErrorClass == FailExpiry && e.finalErrorToRaise == TransactionExpired
    ensures e.autoRollbackAttempt && !e.retryTransaction
  {
    CreateError(FailExpiry, AttemptExpired).RaiseException(TransactionExpired).Build()
  }

  /** The conflict error: FailWriteWriteConflict asking a retry of the transaction. */
  function ConflictError(cause: Cause): (e: TransactionError)
    ensures e.causingErrorClass == FailWriteWriteConflict && e.retryTransaction && e.cause == cause
  {
    CreateError(FailWriteWriteConflict, cause).RetryTransaction().Build()
  }

  const AtrUnreadable := Described("ATR entry could not be read.")

  /** The document is staged by another transaction, as its metadata says. */
  predicate BlockedBy(gr: Doc, transactionId: string)
  {
    gr.txn.Some? && gr.txn.value.atrRef.Some? && TransactionIdOf(gr.txn.value) != Some(transactionId)
  }

  /** One call of CheckWriteWriteConflict's body, for the document `gr`. */
  function ConflictTurn(w: World, transactionId: string, gr: Doc, c: Ctx): Turn<Ctx, ()>
  {
    if !BlockedBy(gr, transactionId) then Turn(NoRepeat, (), c)
    else if w.expired(c.tick) then Threw(OperationFailed(ExpiredError()), c.(overtime := true))
    else
      var n := c.(tick := c.tick + 1);
      match w.blocker(c.tick)
      case CollectionFailed(x) => Threw(OperationFailed(ConflictError(x)), n)
      case CollectionMissing => Threw(OperationFailed(CreateError(FailHard, AtrUnreadable).Build()), n)
      case _ =>
        var invalid := ValidateMinimum(gr.txn.value);
        if invalid.Some? then Threw(invalid.value, n)
        else match w.blocker(c.tick)
          case EntryFailed(x) => Threw(x, n)
          case EntryFound(state, isExpired) =>
            if isExpired || state == COMPLETED || state == ROLLED_BACK then Turn(NoRepeat, (), n)
            else if w.elapsedMs(n.tick) > WriteWriteConflictTimeLimitMs then Threw(OperationFailed(ConflictError(GenericCause)), n)
            else Turn(RepeatWithBackoff, (), n)
          case _ => Turn(NoRepeat, (), n)
  }

  function ConflictBody(w: World, transactionId: string, gr: Doc): Ctx -> Turn<Ctx, ()>
  {
    c => ConflictTurn(w, transactionId, gr, c)
  }

  /** The document may be written: the blocking attempt's entry is gone, expired, or finished. */
  predicate Proceeds(reply: AtrReply)
  {
    reply.EntryMissing? || (reply.EntryFound? && (reply.isExpired || reply.state in {COMPLETED, ROLLED_BACK}))
  }

  /**
   * The write-write-conflict decision: a call proceeds exactly when the
   * document is not blocked by another transaction, or the blocker's entry
   * is gone, expired or finished; it backs off while the blocker is live
   * and no more than a second has passed, and then raises a conflict that
   * asks for a retry.
   */
  lemma ConflictDecision(w: World, transactionId: string, gr: Doc, c: Ctx)
    ensures var t := ConflictTurn(w, transactionId, gr, c);
      (t.Turn? && t.action == NoRepeat) <==>
        (!BlockedBy(gr, transactionId)
         || (!w.expired(c.tick) && ValidateMinimum(gr.txn.value).None? && Proceeds(w.blocker(c.tick))))
    ensures var t := ConflictTurn(w, transactionId, gr, c);
      t.Turn? && t.action != NoRepeat ==>
        t.action == RepeatWithBackoff && w.elapsedMs(c.tick + 1) <= WriteWriteConflictTimeLimitMs
    ensures var t := ConflictTurn(w, transactionId, gr, c);
      BlockedBy(gr, transactionId) && !w.expired(c.tick) && ValidateMinimum(gr.txn.value).None?
      && w.blocker(c.tick).EntryFound? && !Proceeds(w.blocker(c.tick)) && w.elapsedMs(c.tick + 1) > WriteWriteConflictTimeLimitMs ==>
        t == Threw(OperationFailed(ConflictError(GenericCause)), c.(tick := c.tick + 1))
    ensures ConflictTurn(w, transactionId, gr, c).next.state == c.state
  {
  }

  // ---------------------------------------------------------------- staged insert

  /**
   * The fields CreateStagedInsert's body updates between calls: the CAS to
   * insert over, and whether the document is taken to be a tombstone.
   */
  datatype InsertCtx = InsertCtx(ctx: Ctx, cas: Option<nat>, tombstone: bool)

  /** The document is in some transaction: its metadata names a transaction. */
  predicate InTransaction(d: Option<Doc>)
  {
    d.Some? && d.value.txn.Some? && TransactionIdOf(d.value.txn.value).Some?
  }

  /** The error for an insert over a document that exists outside a transaction or is not a staged insert. */
  function DocExistsError(): (e: TransactionError)
    ensures e.causingErrorClass == FailDocAlreadyExists && e.cause == DocumentExists && !e.retryTransaction
  {
    CreateError(FailDocAlreadyExists, DocumentExists).Build()
  }

  /** The try block of one call of the "document exists" loop; `ex` is the insert's own failure. */
  function DocExistsTry(w: World, classify: Cause -> ErrorClass, transactionId: string, ex: Cause, ic: InsertCtx): Turn<InsertCtx, RepeatAction>
  {
    var c := ic.ctx;
    var n := c.(tick := c.tick + 1);
    match w.lookup(c.tick)
    case LookupFailed(x) => Threw(x, ic.(ctx := n))
    case Looked(d) =>
      var inTxn := InTransaction(d);
      var tombstone := d.Some? && d.value.isDeleted;
      var seen := ic.(ctx := n, tombstone := tombstone);
      if tombstone && !inTxn then Turn(NoRepeat, RepeatNoDelay, seen.(cas := Some(d.value.cas)))
      else if !inTxn then Threw(OperationFailed(DocExistsError()), seen)
      else if OpTypeOf(d.value) != Some("insert") then Threw(OperationFailed(DocExistsError()), seen)
      else OverStagedInsert(w, classify, transactionId, ex, d.value, seen)
  }

  /**
   * The "document exists" loop on a document another transaction staged as
   * an insert: the write-write-conflict check first; then a live document
   * is removed and the transaction retried, and a tombstone is overwritten
   * at its CAS. The attempt state and overtime are kept.
   */
  function OverStagedInsert(w: World, classify: Cause -> ErrorClass, transactionId: string, ex: Cause, d: Doc, seen: InsertCtx): (r: Turn<InsertCtx, RepeatAction>)
    ensures Keeps(seen.ctx, r.next.ctx)
    ensures r.Turn? ==> r.action == NoRepeat && r.value == RepeatNoDelay && r.next == seen.(ctx := r.next.ctx, cas := Some(d.cas))
    ensures !seen.tombstone ==> r.Threw?
  {
    ConflictKeeps(w, transactionId, d, seen.ctx);
    match RunFromStart(ConflictBody(w, transactionId, d), seen.ctx, DefaultRetryLimit).outcome
    case Thrown(e, s) => Threw(e, seen.(ctx := s))
    case Returned(_, s) =>
      if !seen.tombstone then
        // a staged insert that is not a tombstone is removed, then the transaction is retried
        var r := s.(tick := s.tick + 1);
        match w.write(s.tick)
        case WriteFailed(x) =>
          var ec := classify(x);
          Threw(OperationFailed(if ec == FailDocNotFound || ec == FailCasMismatch then CreateError(ec, x).RetryTransaction().Build()
                       else CreateError(ec, x).Build()), seen.(ctx := r))
        case Wrote(_) => Threw(OperationFailed(CreateError(FailDocAlreadyExists, ex).RetryTransaction().Build()), seen.(ctx := r))
      else Turn(NoRepeat, RepeatNoDelay, seen.(ctx := s, cas := Some(d.cas)))
  }

  /** One call of the "document exists" loop: whatever its try block raises goes through its table. */
  function DocExistsTurn(w: World, classify: Cause -> ErrorClass, transactionId: string, ex: Cause, ic: InsertCtx): Turn<InsertCtx, RepeatAction>
  {
    var tried := DocExistsTry(w, classify, transactionId, ex, ic);
    if tried.Turn? then tried
    else Threw(TriagedThrow(TriageDocExistsOnStagedInsertErrors(classify(tried.error), tried.error), tried.error), tried.next)
  }

  function DocExistsBody(w: World, classify: Cause -> ErrorClass, transactionId: string, ex: Cause): InsertCtx -> Turn<InsertCtx, RepeatAction>
  {
    ic => DocExistsTurn(w, classify, transactionId, ex, ic)
  }

  /**
   * The "document exists" sub-protocol, by what the lookup found: a
   * tombstone outside any transaction is overwritten at its CAS; a live
   * document outside a transaction, or one staged by anything but an
   * insert, raises through the table; a staged insert is first checked
   * for a write-write conflict.
   */
  lemma DocExistsCases(w: World, classify: Cause -> ErrorClass, transactionId: string, ex: Cause, ic: InsertCtx)
    requires w.lookup(ic.ctx.tick).Looked?
    ensures var d := w.lookup(ic.ctx.tick).doc;
      var t := DocExistsTurn(w, classify, transactionId, ex, ic);
      && (d.Some? && d.value.isDeleted && !InTransaction(d) ==>
            t == Turn(NoRepeat, RepeatNoDelay, InsertCtx(ic.ctx.(tick := ic.ctx.tick + 1), Some(d.value.cas), true)))
      && (!(d.Some? && d.value.isDeleted) && !InTransaction(d) ==>
            t == Threw(TriagedThrow(TriageDocExistsOnStagedInsertErrors(classify(OperationFailed(DocExistsError())), OperationFailed(DocExistsError())),
                                    OperationFailed(DocExistsError())), InsertCtx(ic.ctx.(tick := ic.ctx.tick + 1), ic.cas, false)))
      && (t.Turn? ==> t.next.tombstone == (d.Some? && d.value.isDeleted))
      && (InTransaction(d) && OpTypeOf(d.value) != Some("insert") ==> t.Threw?)
      && (t.Turn? ==> t.action == NoRepeat && t.value == RepeatNoDelay && d.Some? && t.next.cas == Some(d.value.cas))
  {
  }

  /** The "document exists" loop only ever returns RepeatNoDelay, with the CAS to insert over. */
  lemma DocExistsReturns(w: World, classify: Cause -> ErrorClass, transactionId: string, ex: Cause, ic: InsertCtx)
    ensures var o := RunFromStart(DocExistsBody(w, classify, transactionId, ex), ic, DefaultRetryLimit).outcome;
      o.Returned? ==> o.value == RepeatNoDelay && o.state.cas.Some?
  {
    var done := (v: RepeatAction, s: InsertCtx) => v == RepeatNoDelay && s.cas.Some?;
    forall x | DocExistsBody(w, classify, transactionId, ex)(x).Turn? && DocExistsBody(w, classify, transactionId, ex)(x).action == NoRepeat
      ensures done(DocExistsBody(w, classify, transactionId, ex)(x).value, DocExistsBody(w, classify, transactionId, ex)(x).next)
    {
      if w.lookup(x.ctx.tick).Looked? {
        DocExistsCases(w, classify, transactionId, ex, x);
      }
    }
    RunReturnsVia(DocExistsBody(w, classify, transactionId, ex), done, ic, DefaultRetryLimit, -1, InitialBackoffMs);
  }

  /** One call of CreateStagedInsert's body; its value is the new CAS once the insert is staged. */
  function InsertTurn(w: World, classify: Cause -> ErrorClass, transactionId: string, ic: InsertCtx): Turn<InsertCtx, Option<nat>>
  {
    match GuardedWrite(w, ic.ctx, true)
    case Ok(cas, n) => Turn(NoRepeat, Some(cas), ic.(ctx := n))
    case Caught(ex, n) =>
      var t := TriageCreateStagedInsertErrors(classify(ex), ex, n.overtime);
      if t.ec == FailExpiry then Threw(TriagedThrow(t, ex), ic.(ctx := n.(overtime := true)))
      else if t.ec == FailAmbiguous then Turn(RepeatWithDelay, None, ic.(ctx := n))
      else if t.ec == FailCasMismatch || t.ec == FailDocAlreadyExists then
        match RunFromStart(DocExistsBody(w, classify, transactionId, ex), ic.(ctx := n), DefaultRetryLimit).outcome
        case Returned(action, s) => Turn(action, None, s)
        case Thrown(e, s) => Threw(e, s)
      else Threw(TriagedThrow(t, ex), ic.(ctx := n))
  }

  function InsertBody(w: World, classify: Cause -> ErrorClass, transactionId: string): InsertCtx -> Turn<InsertCtx, Option<nat>>
  {
    ic => InsertTurn(w, classify, transactionId, ic)
  }

  /**
   * A call of CreateStagedInsert's body that asks no repeat has staged the
   * insert and reports the CAS its write returned; the "document exists"
   * handling always asks a repeat.
   */
  lemma InsertTurnReturns(w: World, classify: Cause -> ErrorClass, transactionId: string, ic: InsertCtx)
    ensures var t := InsertTurn(w, classify, transactionId, ic);
      t.Turn? && t.action == NoRepeat ==>
        t.value.Some? && ExpiryGuard(w, ic.ctx).None? && w.write(ic.ctx.tick) == Wrote(t.value.value)
  {
    var g := GuardedWrite(w, ic.ctx, true);
    if g.Caught? {
      DocExistsReturns(w, classify, transactionId, g.ex, ic.(ctx := g.next));
    }
  }

  /** The insert loop returns only with the CAS of a successful staging write. */
  lemma InsertRunReturns(w: World, classify: Cause -> ErrorClass, transactionId: string, ic: InsertCtx)
    ensures var o := RunFromStart(InsertBody(w, classify, transactionId), ic, DefaultRetryLimit).outcome;
      o.Returned? ==> o.value.Some?
  {
    var done := (v: Option<nat>, s: InsertCtx) => v.Some?;
    forall x | InsertBody(w, classify, transactionId)(x).Turn? && InsertBody(w, classify, transactionId)(x).action == NoRepeat
      ensures done(InsertBody(w, classify, transactionId)(x).value, InsertBody(w, classify, transactionId)(x).next)
    {
      InsertTurnReturns(w, classify, transactionId, x);
    }
    RunReturnsVia(InsertBody(w, classify, transactionId), done, ic, DefaultRetryLimit, -1, InitialBackoffMs);
  }

  // ---------------------------------------------------------------- what the nested loops keep

  /** The write-write-conflict loop never changes the attempt state, and never leaves overtime. */
  lemma ConflictKeeps(w: World, transactionId: string, gr: Doc, c: Ctx)
    ensures Keeps(c, RunFromStart(ConflictBody(w, transactionId, gr), c, DefaultRetryLimit).outcome.state)
  {
    var inv := (x: Ctx) => Keeps(c, x);
    forall x | inv(x)
      ensures inv(ConflictBody(w, transactionId, gr)(x).next)
    {
      ConflictDecision(w, transactionId, gr, x);
    }
    RunPreserves(ConflictBody(w, transactionId, gr), inv, c, DefaultRetryLimit, -1, InitialBackoffMs);
  }

  /** One call of the "document exists" loop keeps the attempt state and overtime. */
  lemma DocExistsTurnKeeps(w: World, classify: Cause -> ErrorClass, transactionId: string, ex: Cause, ic: InsertCtx)
    ensures Keeps(ic.ctx, DocExistsTurn(w, classify, transactionId, ex, ic).next.ctx)
  {
  }

  /** The "document exists" loop keeps the attempt state and overtime. */
  lemma DocExistsKeeps(w: World, classify: Cause -> ErrorClass, transactionId: string, ex: Cause, ic: InsertCtx)
    ensures Keeps(ic.ctx, RunFromStart(DocExistsBody(w, classify, transactionId, ex), ic, DefaultRetryLimit).outcome.state.ctx)
  {
    var inv := (x: InsertCtx) => Keeps(ic.ctx, x.ctx);
    forall x | inv(x)
      ensures inv(DocExistsBody(w, classify, transactionId, ex)(x).next)
    {
      DocExistsTurnKeeps(w, classify, transactionId, ex, x);
    }
    RunPreserves(DocExistsBody(w, classify, transactionId, ex), inv, ic, DefaultRetryLimit, -1, InitialBackoffMs);
  }

  /** One call of CreateStagedInsert's body keeps the attempt state and overtime. */
  lemma InsertTurnKeeps(w: World, classify: Cause -> ErrorClass, transactionId: string, ic: InsertCtx)
    ensures Keeps(ic.ctx, InsertTurn(w, classify, transactionId, ic).next.ctx)
  {
    var g := GuardedWrite(w, ic.ctx, true);
    if g.Caught? {
      DocExistsKeeps(w, classify, transactionId, g.ex, ic.(ctx := g.next));
    }
  }

  /** The insert loop keeps the attempt state and overtime. */
  lemma InsertKeeps(w: World, classify: Cause -> ErrorClass, transactionId: string, ic: InsertCtx)
    ensures Keeps(ic.ctx, RunFromStart(InsertBody(w, classify, transactionId), ic, DefaultRetryLimit).outcome.state.ctx)
  {
    var inv := (x: InsertCtx) => Keeps(ic.ctx, x.ctx);
    forall x | inv(x)
      ensures inv(InsertBody(w, classify, transactionId)(x).next)
    {
      InsertTurnKeeps(w, classify, transactionId, x);
    }
    RunPreserves(InsertBody(w, classify, transactionId), inv, ic, DefaultRetryLimit, -1, InitialBackoffMs);
  }
}

/**
 * AttemptContext: one attempt of a transaction, as an object whose fields
 * the operations update in place. Every method is proved to do what the
 * matching function of Protocol says, so the properties proved there
 * (read-your-writes, one entry per document, the reachable states,
 * overtime never left) hold of the object.
 */
module Attempt {
  import opened Errors
  import opened States
  import opened Ledger
  import opened Mav
  import opened Repeat
  import opened Steps
  import opened Protocol
  import Triage

  class AttemptContext {
    const env: Env
    var state: AttemptState
    var isDone: bool
    var overtime: bool            // _expirationOvertimeMode
    var tick: nat                 // how many collaborator calls have been made
    var staged: Mutations         // _stagedMutations
    var previousErrors: seq<TransactionError>
    var atr: Option<string>       // the ATR id once chosen
    var unstagingComplete: bool

    /** The fields, as the value Protocol's functions work on. */
    function Fields(): View
      reads this
    {
      View(state, isDone, overtime, tick, staged, previousErrors, atr, unstagingComplete)
    }

    /** A new attempt, on the ATR given if there is one. */
    constructor(env: Env, atr: Option<string>)
      ensures this.env == env && Fields() == Initial(atr)
    {
      this.env := env;
      state := NOTHING_WRITTEN;
      isDone := false;
      overtime := false;
      tick := 0;
      staged := [];
      previousErrors := [];
      this.atr := atr;
      unstagingComplete := false;
    }

    // ---------------------------------------------------------------- helpers

    /** RepeatUntilSuccessOrThrow over one step on the state, overtime flag and tick. */
    method RunSteps(body: Ctx -> Turn<Ctx, ()>) returns (r: Reply<()>)
      modifies this
      ensures OpResult(Fields(), r) == RunStep(body, old(Fields()))
    {
      var outcome, _ := RepeatUntilSuccessOrThrow(body, Ctx(state, overtime, tick), DefaultRetryLimit);
      state, overtime, tick := outcome.state.state, outcome.state.overtime, outcome.state.tick;
      match outcome {
        case Returned(_, _) => r := Done(());
        case Thrown(x, _) => r := Failed(x);
      }
    }

    /** SaveErrorWrapper. */
    method SaveErrorWrapper(c: Cause)
      modifies this
      ensures Fields() == SaveError(old(Fields()), c)
    {
      if c.Classified? && c.error !in previousErrors {
        previousErrors := previousErrors + [c.error];
      }
    }

    /** InitAtrIfNeeded. */
    method InitAtrIfNeeded(key: DocKey)
      modifies this
      ensures Fields() == InitAtr(env, old(Fields()), key)
    {
      if atr.None? {
        atr := Some(env.atrIdFor(key));
      }
    }

    /** SetAtrPendingIfFirstMutation, with SetAtrPending's failures saved. */
    method SetAtrPendingIfFirstMutation() returns (r: Reply<()>)
      modifies this
      ensures OpResult(Fields(), r) == SetAtrPendingIfFirst(env, old(Fields()))
    {
      if staged != [] {
        return Done(());
      }
      r := RunSteps(PendingBody(env.world, env.classify));
      if r.Failed? {
        SaveErrorWrapper(r.error);
      }
    }

    /** CheckWriteWriteConflict against the document `gr` as it was read. */
    method CheckWriteWriteConflict(gr: Doc) returns (r: Reply<()>)
      modifies this
      ensures OpResult(Fields(), r) == Protocol.CheckWriteWriteConflict(env, old(Fields()), gr)
    {
      r := RunSteps(ConflictBody(env.world, env.transactionId, gr));
    }

    // ---------------------------------------------------------------- get

    /** GetOptional, through GetWithKv. */
    method Get(key: DocKey) returns (r: Reply<GetResult>)
      modifies this
      ensures OpResult(Fields(), r) == GetSpec(env, old(Fields()), key)
    {
      var done := DoneCheck(Fields());
      if done.Some? {
        return Failed(OperationFailed(done.value));
      }
      var errors := CheckErrors(Fields());
      if errors.Some? {
        return Failed(OperationFailed(errors.value));
      }
      if env.world.expired(tick) {
        overtime := true;
        return Failed(OperationFailed(ExpiredError()));
      }
      match ReadOwnWrite(staged, key) {
        case StagedContent(d, content) => return Done(OwnContent(d, content));
        case StagedRemoved => return Done(Absent);
        case NotStaged =>
      }
      var rounds := env.world.mavReads(tick);
      tick := tick + 1;
      match GetWithMav(env.attemptId, rounds, None, env.mavTriage) {
        case Empty => r := Done(EmptyResult);
        case PreTransaction(d) => r := Done(Fetched(d, false));
        case PostTransaction(d) => r := Done(Fetched(d, true));
        case NoMoreReplies => r := Done(Unresolved);
        case MavFailed(err) =>
          var ex := OperationFailed(err);
          var t := Triage.TriageGetErrors(env.classify(ex), ex);
          if t.ec == FailDocNotFound {
            r := Done(EmptyResult);
          } else {
            var thrown := TriagedThrow(t, ex);
            SaveErrorWrapper(thrown);
            r := Failed(thrown);
          }
      }
    }

    // ---------------------------------------------------------------- insert

    /** InsertAsync, through InsertWithKv. */
    method Insert(key: DocKey, content: Content) returns (r: Reply<Doc>)
      modifies this
      ensures OpResult(Fields(), r) == InsertSpec(env, old(Fields()), key, content)
    {
      var done := DoneCheck(Fields());
      if done.Some? {
        return Failed(OperationFailed(done.value));
      }
      var errors := CheckErrors(Fields());
      if errors.Some? {
        return Failed(OperationFailed(errors.value));
      }
      if IsStaged(staged, key) {
        return Failed(OperationFailed(CreateError(FailOther, AlreadyStaged).Build()));
      }
      if env.world.expired(tick) {
        overtime := true;
        return Failed(OperationFailed(ExpiredError()));
      }
      InitAtrIfNeeded(key);
      var pending := SetAtrPendingIfFirstMutation();
      if pending.Failed? {
        return Failed(pending.error);
      }
      r := CreateStagedInsert(key, content);
    }

    /** CreateStagedInsert: the insert loop, then the new ledger entry. */
    method CreateStagedInsert(key: DocKey, content: Content) returns (r: Reply<Doc>)
      modifies this
      ensures OpResult(Fields(), r) == Protocol.CreateStagedInsert(env, old(Fields()), key, content)
    {
      var init := InsertCtx(Ctx(state, overtime, tick), None, true);
      var outcome, _ := RepeatUntilSuccessOrThrow(InsertBody(env.world, env.classify, env.transactionId), init, DefaultRetryLimit);
      var s := outcome.state;
      state, overtime, tick := s.ctx.state, s.ctx.overtime, s.ctx.tick;
      match outcome {
        case Thrown(x, _) =>
          SaveErrorWrapper(x);
          r := Failed(x);
        case Returned(cas, _) =>
          if cas.None? {
            r := Failed(NoInsertResult);
          } else {
            var d := Doc(key, cas.value, s.tombstone, None);
            staged := StageInsert(staged, d, content);
            r := Done(d);
          }
      }
    }

    // ---------------------------------------------------------------- replace and remove

    /** ReplaceAsync, through ReplaceWithKv. */
    method Replace(doc: Doc, content: Content) returns (r: Reply<Doc>)
      modifies this
      ensures OpResult(Fields(), r) == ReplaceSpec(env, old(Fields()), doc, content)
    {
      var refusal := Entry(env, Fields());
      if refusal.Some? {
        overtime := refusal.value.view.overtime;
        return Failed(refusal.value.error);
      }
      var conflict := CheckWriteWriteConflict(doc);
      if conflict.Failed? {
        return Failed(conflict.error);
      }
      InitAtrIfNeeded(doc.key);
      var pending := SetAtrPendingIfFirstMutation();
      if pending.Failed? {
        return Failed(pending.error);
      }
      r := CreateStagedReplace(doc, content);
    }

    /** A failed staging write of a replace or remove, triaged and saved. */
    method StagingFailed<T>(ex: Cause) returns (r: Reply<T>)
      modifies this
      ensures OpResult(Fields(), r) == Protocol.StagingFailed(env, old(Fields()), ex)
    {
      var t := Triage.TriageCreateStagedRemoveOrReplaceError(env.classify(ex), ex);
      var thrown := TriagedThrow(t, ex);
      if t.ec == FailExpiry {
        overtime := true;
      }
      SaveErrorWrapper(thrown);
      r := Failed(thrown);
    }

    /** CreateStagedReplace. */
    method CreateStagedReplace(doc: Doc, content: Content) returns (r: Reply<Doc>)
      modifies this
      ensures OpResult(Fields(), r) == Protocol.CreateStagedReplace(env, old(Fields()), doc, content)
    {
      var reply := env.world.write(tick);
      tick := tick + 1;
      if reply.WriteFailed? {
        CreateStagedReplaceFails(env, old(Fields()), doc, content);
        r := StagingFailed(reply.c);
        return;
      }
      CreateStagedReplaceWrites(env, old(Fields()), doc, content);
      var d := doc.(cas := reply.cas);
      staged := StageReplace(staged, d, content);
      r := Done(d);
    }

    /** RemoveAsync, through RemoveWithKv. */
    method Remove(doc: Doc) returns (r: Reply<()>)
      modifies this
      ensures OpResult(Fields(), r) == RemoveSpec(env, old(Fields()), doc)
    {
      var refusal := Entry(env, Fields());
      if refusal.Some? {
        overtime := refusal.value.view.overtime;
        return Failed(refusal.value.error);
      }
      if StagedAsInsert(staged, doc.key) {
        return Failed(OperationFailed(CreateError(FailOther, AlreadyStagedForInsert).Build()));
      }
      var conflict := CheckWriteWriteConflict(doc);
      if conflict.Failed? {
        return Failed(conflict.error);
      }
      InitAtrIfNeeded(doc.key);
      var pending := SetAtrPendingIfFirstMutation();
      if pending.Failed? {
        return Failed(pending.error);
      }
      r := CreateStagedRemove(doc);
    }

    /** CreateStagedRemove. */
    method CreateStagedRemove(doc: Doc) returns (r: Reply<()>)
      modifies this
      ensures OpResult(Fields(), r) == Protocol.CreateStagedRemove(env, old(Fields()), doc)
    {
      var reply := env.world.write(tick);
      tick := tick + 1;
      var caught: Option<Cause> := None;
      match reply {
        case Wrote(cas) =>
          if StagedAsInsert(staged, doc.key) {
            caught := Some(RemovedAfterInsert);
          } else {
            staged := StageRemove(staged, doc.(cas := cas));
          }
        case WriteFailed(x) =>
          caught := Some(x);
      }
      if caught.Some? {
        r := StagingFailed(caught.value);
      } else {
        r := Done(());
      }
    }

    // ---------------------------------------------------------------- commit

    /** CommitAsync, through CommitWithKv. */
    method Commit() returns (r: Reply<()>)
      modifies this
      ensures OpResult(Fields(), r) == CommitSpec(env, old(Fields()))
    {
      if previousErrors != [] {
        return Failed(OperationFailed(Triage.ThrowIfCommitWithPreviousErrors(previousErrors)));
      }
      if env.world.expired(tick) {
        overtime := true;
        return Failed(OperationFailed(ExpiredError()));
      }
      var done := DoneCheck(Fields());
      if done.Some? {
        return Failed(OperationFailed(done.value));
      }
      isDone := true;
      if staged == [] {
        return Done(());
      }
      r := RunSteps(CommitBody(env.world, env.classify));
      if r.Failed? {
        return;
      }
      r := UnstageDocs();
      if r.Failed? {
        return;
      }
      r := SetAtrComplete();
    }

    /** UnstageRemove or UnstageInsertOrReplace for entry `i`. */
    method UnstageEntry(i: nat) returns (r: Reply<()>)
      requires i < |staged|
      modifies this
      ensures OpResult(Fields(), r) == UnstageOne(env, old(Fields()), i)
    {
      if staged[i].kind.Remove? {
        r := RunSteps(UnstageRemoveBody(env.world, env.classify));
      } else {
        r := UnstageInsertOrReplace(i);
      }
    }

    /** UnstageInsertOrReplace: the staged content becomes the body, at the CAS of the staging write. */
    method UnstageInsertOrReplace(i: nat) returns (r: Reply<()>)
      requires i < |staged| && !staged[i].kind.Remove?
      modifies this
      ensures OpResult(Fields(), r) == UnstageOne(env, old(Fields()), i)
    {
      ghost var v := Fields();
      UnstageOneNotRemove(env, v, i);
      var sm := staged[i];
      var init := UnstageCtx(Ctx(state, overtime, tick), sm.doc.cas, sm.kind.Insert?, false);
      assert init == UnstageCtx(CtxOf(v), sm.doc.cas, sm.kind == MutationType.Insert, false);
      var outcome, _ := RepeatUntilSuccessOrThrow(UnstageBody(env.world, env.classify), init, DefaultRetryLimit);
      var s := outcome.state.ctx;
      state, overtime, tick := s.state, s.overtime, s.tick;
      match outcome {
        case Returned(cas, _) =>
          staged := staged[i := sm.(doc := sm.doc.(cas := cas))];
          r := Done(());
        case Thrown(x, _) =>
          r := Failed(x);
      }
    }

    /** UnstageDocs: every entry in ledger order, stopping at the first failure. */
    method UnstageDocs() returns (r: Reply<()>)
      modifies this
      ensures OpResult(Fields(), r) == UnstageFrom(env, old(Fields()), 0)
    {
      ghost var target := UnstageFrom(env, Fields(), 0);
      var i := 0;
      while i < |staged|
        invariant i <= |staged|
        invariant target == UnstageFrom(env, Fields(), i)
        decreases |staged| - i
      {
        ghost var before := Fields();
        r := UnstageEntry(i);
        UnstageFromStep(env, before, i, Fields(), r);
        if r.Failed? {
          return;
        }
        i := i + 1;
      }
      assert target == OpResult(Fields(), Done(()));
      r := Done(());
    }

    /** SetAtrComplete. */
    method SetAtrComplete() returns (r: Reply<()>)
      modifies this
      ensures OpResult(Fields(), r) == Protocol.SetAtrComplete(env, old(Fields()))
    {
      if env.world.expired(tick) && !overtime {
        return Done(());
      }
      var reply := env.world.write(tick);
      tick := tick + 1;
      match reply {
        case Wrote(_) =>
          state := COMPLETED;
          unstagingComplete := true;
          r := Done(());
        case WriteFailed(x) =>
          var t := Triage.TriageSetAtrCompleteErrors(env.classify(x), x);
          r := if t.toThrow.Some? then Failed(OperationFailed(t.toThrow.value)) else Done(());
      }
    }

    // ---------------------------------------------------------------- rollback

    /** RollbackWithKv's loop: every staged entry in ledger order, stopping at the first failure. */
    method RollbackDocs() returns (r: Reply<()>)
      modifies this
      ensures OpResult(Fields(), r) == RollbackFrom(env, old(Fields()), 0)
    {
      ghost var target := RollbackFrom(env, Fields(), 0);
      var i := 0;
      while i < |staged|
        invariant i <= |staged| && staged == old(staged)
        invariant target == RollbackFrom(env, Fields(), i)
        decreases |staged| - i
      {
        ghost var before := Fields();
        r := RollbackEntry(i);
        RollbackFromStep(env, before, i, Fields(), r);
        if r.Failed? {
          return;
        }
        i := i + 1;
      }
      assert target == OpResult(Fields(), Done(()));
      r := Done(());
    }

    /** RollbackStagedInsert or RollbackStagedReplaceOrRemove for entry `i`. */
    method RollbackEntry(i: nat) returns (r: Reply<()>)
      requires i < |staged|
      modifies this
      ensures staged == old(staged)
      ensures OpResult(Fields(), r) == RollbackOne(env, old(Fields()), i)
    {
      if staged[i].kind.Insert? {
        r := RunSteps(RollbackInsertBody(env.world, env.classify));
      } else {
        r := RunSteps(RollbackReplaceOrRemoveBody(env.world, env.classify));
      }
    }

    /** RollbackAsync (`isAppRollback`) and the automatic rollback, through RollbackWithKv. */
    method Rollback(isAppRollback: bool) returns (r: Reply<()>)
      modifies this
      ensures OpResult(Fields(), r) == RollbackSpec(env, old(Fields()), isAppRollback)
    {
      if !overtime && env.world.expired(tick) {
        overtime := true;
      }
      if state == NOTHING_WRITTEN {
        isDone := true;
        return Done(());
      }
      if isAppRollback {
        var done := DoneCheck(Fields());
        if done.Some? {
          return Failed(OperationFailed(done.value));
        }
      }
      isDone := true;
      r := RunSteps(AbortedBody(env.world, env.classify));
      if r.Failed? {
        return;
      }
      r := RollbackDocs();
      if r.Failed? {
        return;
      }
      r := RunSteps(RolledBackBody(env.world, env.classify));
    }
  }
}

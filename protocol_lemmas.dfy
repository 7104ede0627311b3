/**
 * What the attempt's operations promise: read-your-writes, the staging
 * rules and the one-entry-per-document invariant, the guards, the states
 * each operation can move to, and that overtime is never left.
 */
module ProtocolLemmas {
  import opened Errors
  import opened States
  import opened Triage
  import opened Ledger
  import opened Repeat
  import opened Steps
  import opened Protocol
  import opened Mav

  // ---------------------------------------------------------------- read-your-writes

  /**
   * A get of a document the attempt has staged answers from the ledger
   * without a storage lookup (the tick does not move): the staged content
   * for an insert or replace, nothing for a remove.
   */
  lemma GetReadsOwnWrites(e: Env, v: View, key: DocKey)
    requires Entry(e, v).None?
    ensures var staged := FindStaged(v.staged, key);
      staged.Some? && staged.value.kind != Remove ==>
        GetSpec(e, v, key) == OpResult(v, Done(OwnContent(staged.value.doc, staged.value.content)))
    ensures var staged := FindStaged(v.staged, key);
      staged.Some? && staged.value.kind == Remove ==> GetSpec(e, v, key) == OpResult(v, Done(Absent))
  {
  }

  /**
   * Any other document costs exactly one lookup, and the reply is the MAV
   * read's verdict: a pre- or post-transaction body, nothing for an empty
   * or unreadable-by-absence result, and a triaged, saved error otherwise.
   * Only the failed read changes anything but the tick.
   */
  lemma GetLooksUp(e: Env, v: View, key: DocKey)
    requires Entry(e, v).None?
    ensures !IsStaged(v.staged, key) ==> GetSpec(e, v, key).view.tick == v.tick + 1
    ensures var m := GetWithMav(e.attemptId, e.world.mavReads(v.tick), None, e.mavTriage);
      var r := GetSpec(e, v, key);
      var n := v.(tick := v.tick + 1);
      !IsStaged(v.staged, key) ==>
        && (m.Empty? ==> r == OpResult(n, Done(EmptyResult)))
        && (m.PreTransaction? ==> r == OpResult(n, Done(Fetched(m.doc, false))))
        && (m.PostTransaction? ==> r == OpResult(n, Done(Fetched(m.doc, true))))
        && (m.NoMoreReplies? ==> r == OpResult(n, Done(Unresolved)))
        && (m.MavFailed? ==>
              var ex := OperationFailed(m.error);
              var t := TriageGetErrors(e.classify(ex), ex);
              && (t.ec == FailDocNotFound ==> r == OpResult(n, Done(EmptyResult)))
              && (t.ec != FailDocNotFound ==>
                    && r.reply == Failed(TriagedThrow(t, ex)) && r.view.tick == n.tick
                    && r.view.staged == v.staged && r.view.state == v.state
                    && TriagedThrow(t, ex).Classified? && TriagedThrow(t, ex).error in r.view.previousErrors))
  {
  }

  /**
   * Every operation refuses to start once the attempt is done or has left
   * NOTHING_WRITTEN and PENDING, and (the attempt not being done) once an
   * earlier operation failed, leaving the attempt as it was.
   */
  lemma GuardsRefuse(e: Env, v: View, key: DocKey, doc: Doc, content: Content)
    ensures DoneCheck(v).Some? ==>
      && GetSpec(e, v, key) == OpResult(v, Failed(OperationFailed(DoneCheck(v).value)))
      && InsertSpec(e, v, key, content) == OpResult(v, Failed(OperationFailed(DoneCheck(v).value)))
      && ReplaceSpec(e, v, doc, content) == OpResult(v, Failed(OperationFailed(DoneCheck(v).value)))
      && RemoveSpec(e, v, doc) == OpResult(v, Failed(OperationFailed(DoneCheck(v).value)))
    ensures DoneCheck(v).None? && CheckErrors(v).Some? ==>
      && GetSpec(e, v, key) == OpResult(v, Failed(OperationFailed(CheckErrors(v).value)))
      && InsertSpec(e, v, key, content) == OpResult(v, Failed(OperationFailed(CheckErrors(v).value)))
      && ReplaceSpec(e, v, doc, content) == OpResult(v, Failed(OperationFailed(CheckErrors(v).value)))
      && RemoveSpec(e, v, doc) == OpResult(v, Failed(OperationFailed(CheckErrors(v).value)))
    ensures v.previousErrors != [] ==>
      CommitSpec(e, v) == OpResult(v, Failed(OperationFailed(ThrowIfCommitWithPreviousErrors(v.previousErrors))))
  {
  }

  /**
   * Insert of a document already staged, and remove of a document staged
   * as an insert, fail with FailOther before the expiry check, the ATR
   * and any write: the attempt is left exactly as it was.
   */
  lemma DuplicateStagingRefused(e: Env, v: View, key: DocKey, doc: Doc, content: Content)
    requires DoneCheck(v).None? && CheckErrors(v).None?
    ensures IsStaged(v.staged, key) ==>
      var r := InsertSpec(e, v, key, content);
      r.view == v && r.reply.Failed? && r.reply.error.Classified?
      && r.reply.error.error.causingErrorClass == FailOther && r.reply.error.error.cause == AlreadyStaged
    ensures !e.world.expired(v.tick) && StagedAsInsert(v.staged, doc.key) ==>
      var r := RemoveSpec(e, v, doc);
      r.view == v && r.reply.Failed? && r.reply.error.Classified?
      && r.reply.error.error.causingErrorClass == FailOther && r.reply.error.error.cause == AlreadyStagedForInsert
  {
  }

  // ---------------------------------------------------------------- saved failures

  /**
   * A classified failure of SetAtrPending or of a staging write of a
   * replace or remove is saved (SaveErrorWrapper), so the saved errors are
   * not empty afterwards.
   */
  lemma FailedStagingIsSaved(e: Env, v: View, doc: Doc, content: Content)
    ensures var r := CreateStagedReplace(e, v, doc, content);
      r.reply.Failed? ==> r.reply.error.Classified? && r.reply.error.error in r.view.previousErrors
    ensures var r := CreateStagedRemove(e, v, doc);
      r.reply.Failed? ==> r.reply.error.Classified? && r.reply.error.error in r.view.previousErrors
    ensures var r := SetAtrPendingIfFirst(e, v);
      r.reply.Failed? && r.reply.error.Classified? ==> r.reply.error.error in r.view.previousErrors
  {
    var n := v.(tick := v.tick + 1);
    match e.world.write(v.tick)
    case Wrote(cas) =>
      if StagedAsInsert(v.staged, doc.key) {
        var f: OpResult<()> := StagingFailed(e, n, RemovedAfterInsert);
      }
    case WriteFailed(x) =>
      var f: OpResult<Doc> := StagingFailed(e, n, x);
      var g: OpResult<()> := StagingFailed(e, n, x);
  }

  /**
   * Once a failure is saved, every later get, insert, replace and remove
   * is refused without changing the attempt (by DoneCheck when the attempt
   * is done, otherwise by CheckErrors), and commit raises the compound
   * error of ThrowIfCommitWithPreviousErrors.
   */
  lemma SavedErrorRefusesLater(e: Env, v: View, key: DocKey, doc: Doc, content: Content)
    requires v.previousErrors != []
    ensures GetSpec(e, v, key).view == v && GetSpec(e, v, key).reply.Failed?
    ensures InsertSpec(e, v, key, content).view == v && InsertSpec(e, v, key, content).reply.Failed?
    ensures ReplaceSpec(e, v, doc, content).view == v && ReplaceSpec(e, v, doc, content).reply.Failed?
    ensures RemoveSpec(e, v, doc).view == v && RemoveSpec(e, v, doc).reply.Failed?
    ensures CommitSpec(e, v) == OpResult(v, Failed(OperationFailed(ThrowIfCommitWithPreviousErrors(v.previousErrors))))
  {
    GuardsRefuse(e, v, key, doc, content);
  }

  /**
   * The refusals before any write, and a raise of the write-write-conflict
   * check, are not saved: the saved errors stay as they were.
   */
  lemma UnsavedFailures(e: Env, v: View, key: DocKey, doc: Doc, content: Content)
    requires DoneCheck(v).None? && CheckErrors(v).None?
    ensures IsStaged(v.staged, key) ==> InsertSpec(e, v, key, content).view.previousErrors == v.previousErrors
    ensures StagedAsInsert(v.staged, doc.key) ==> RemoveSpec(e, v, doc).view.previousErrors == v.previousErrors
    ensures CheckWriteWriteConflict(e, v, doc).view.previousErrors == v.previousErrors
    ensures !e.world.expired(v.tick) && CheckWriteWriteConflict(e, v, doc).reply.Failed? ==>
      && ReplaceSpec(e, v, doc, content) == OpResult(CheckWriteWriteConflict(e, v, doc).view, Failed(CheckWriteWriteConflict(e, v, doc).reply.error))
      && ReplaceSpec(e, v, doc, content).view.previousErrors == v.previousErrors
    ensures !e.world.expired(v.tick) && !StagedAsInsert(v.staged, doc.key) && CheckWriteWriteConflict(e, v, doc).reply.Failed? ==>
      RemoveSpec(e, v, doc).view.previousErrors == v.previousErrors
  {
  }

  // ---------------------------------------------------------------- the ledger invariant

  /**
   * A successful insert stages exactly one entry, an Insert, for a
   * document not staged before; the ledger keeps one entry per document.
   */
  lemma InsertStages(e: Env, v: View, key: DocKey, content: Content)
    requires OnePerDoc(v.staged)
    ensures OnePerDoc(InsertSpec(e, v, key, content).view.staged)
    ensures var r := InsertSpec(e, v, key, content);
      r.reply.Done? ==>
        !IsStaged(v.staged, key) && r.view.staged == v.staged + [StagedMutation(r.reply.value, content, Insert)]
        && r.reply.value.key == key
        && FindStaged(r.view.staged, key) == Some(StagedMutation(r.reply.value, content, Insert))
  {
    var r := InsertSpec(e, v, key, content);
    if r.view.staged != v.staged {
      var p := SetAtrPendingIfFirst(e, InitAtr(e, v, key));
      var t := RunFromStart(InsertBody(e.world, e.classify, e.transactionId), InsertCtx(CtxOf(p.view), None, true), DefaultRetryLimit).outcome;
      var d := Doc(key, t.value.value, t.state.tombstone, None);
      StageInsertEffect(v.staged, d, content);
    }
  }

  /** The staging write of a replace, and the ledger update after it. */
  lemma CreateStagedReplaceEffect(e: Env, v: View, doc: Doc, content: Content)
    requires OnePerDoc(v.staged)
    ensures OnePerDoc(CreateStagedReplace(e, v, doc, content).view.staged)
    ensures var r := CreateStagedReplace(e, v, doc, content);
      r.reply.Done? ==>
        && r.reply.value == doc.(cas := r.reply.value.cas)
        && FindStaged(r.view.staged, doc.key)
             == Some(StagedMutation(r.reply.value, content, if StagedAsInsert(v.staged, doc.key) then Insert else Replace))
        && (forall k | k != doc.key :: FindStaged(r.view.staged, k) == FindStaged(v.staged, k))
        && |r.view.staged| == |v.staged| + (if IsStaged(v.staged, doc.key) then 0 else 1)
    ensures e.world.write(v.tick).WriteFailed? ==>
      var r := CreateStagedReplace(e, v, doc, content);
      var ex := e.world.write(v.tick).c;
      var t := TriageCreateStagedRemoveOrReplaceError(e.classify(ex), ex);
      && r.reply == Failed(TriagedThrow(t, ex))
      && r.view.staged == v.staged && r.view.state == v.state
      && r.view.overtime == (v.overtime || t.ec == FailExpiry)
      && r.reply.error.Classified? && r.reply.error.error in r.view.previousErrors
  {
    if e.world.write(v.tick).Wrote? {
      StageReplaceEffect(v.staged, doc.(cas := e.world.write(v.tick).cas), content);
    }
  }

  /**
   * A successful replace leaves exactly one entry for the document — an
   * Insert when it was staged as one, otherwise a Replace — with the new
   * content and CAS, leaves every other document's entry alone, and keeps
   * one entry per document.
   */
  lemma ReplaceCollapses(e: Env, v: View, doc: Doc, content: Content)
    requires OnePerDoc(v.staged)
    ensures OnePerDoc(ReplaceSpec(e, v, doc, content).view.staged)
    ensures var r := ReplaceSpec(e, v, doc, content);
      r.reply.Done? ==>
        && r.reply.value == doc.(cas := r.reply.value.cas)
        && FindStaged(r.view.staged, doc.key)
             == Some(StagedMutation(r.reply.value, content, if StagedAsInsert(v.staged, doc.key) then Insert else Replace))
        && (forall k | k != doc.key :: FindStaged(r.view.staged, k) == FindStaged(v.staged, k))
        && |r.view.staged| == |v.staged| + (if IsStaged(v.staged, doc.key) then 0 else 1)
  {
    if Entry(e, v).None? {
      var c := CheckWriteWriteConflict(e, v, doc);
      if c.reply.Done? {
        var p := SetAtrPendingIfFirst(e, InitAtr(e, c.view, doc.key));
        if p.reply.Done? {
          assert p.view.staged == v.staged;
          CreateStagedReplaceEffect(e, p.view, doc, content);
          assert ReplaceSpec(e, v, doc, content) == CreateStagedReplace(e, p.view, doc, content);
        }
      }
    }
  }

  /**
   * A successful remove leaves a single Remove entry for the document,
   * every other document's entry alone, and one entry per document.
   */
  lemma RemoveStages(e: Env, v: View, doc: Doc)
    requires OnePerDoc(v.staged)
    ensures OnePerDoc(RemoveSpec(e, v, doc).view.staged)
    ensures var r := RemoveSpec(e, v, doc);
      r.reply.Done? ==>
        && ReadOwnWrite(r.view.staged, doc.key) == StagedRemoved
        && (forall k | k != doc.key :: FindStaged(r.view.staged, k) == FindStaged(v.staged, k))
  {
    var r := RemoveSpec(e, v, doc);
    if r.view.staged != v.staged {
      var c := CheckWriteWriteConflict(e, v, doc);
      var p := SetAtrPendingIfFirst(e, InitAtr(e, c.view, doc.key));
      var cas := e.world.write(p.view.tick).cas;
      StageRemoveEffect(v.staged, doc.(cas := cas));
    }
  }

  /** A get right after a successful insert reads the inserted content back. */
  lemma ReadAfterInsert(e: Env, v: View, key: DocKey, content: Content)
    requires OnePerDoc(v.staged)
    ensures var r := InsertSpec(e, v, key, content);
      r.reply.Done? && Entry(e, r.view).None? ==>
        GetSpec(e, r.view, key) == OpResult(r.view, Done(OwnContent(r.reply.value, content)))
  {
    InsertStages(e, v, key, content);
  }

  /** A get right after a successful replace reads the new content back. */
  lemma ReadAfterReplace(e: Env, v: View, doc: Doc, content: Content)
    requires OnePerDoc(v.staged)
    ensures var r := ReplaceSpec(e, v, doc, content);
      r.reply.Done? && Entry(e, r.view).None? ==>
        GetSpec(e, r.view, doc.key) == OpResult(r.view, Done(OwnContent(r.reply.value, content)))
  {
    ReplaceCollapses(e, v, doc, content);
  }

  /** A get right after a successful remove finds nothing. */
  lemma ReadAfterRemove(e: Env, v: View, doc: Doc)
    requires OnePerDoc(v.staged)
    ensures var r := RemoveSpec(e, v, doc);
      r.reply.Done? && Entry(e, r.view).None? ==> GetSpec(e, r.view, doc.key) == OpResult(r.view, Done(Absent))
  {
    RemoveStages(e, v, doc);
  }

  // ---------------------------------------------------------------- commit

  /**
   * A commit that passes its checks with nothing staged succeeds at once:
   * the attempt is done, and its state (NOTHING_WRITTEN when nothing was
   * ever written) and tick are left alone.
   */
  lemma CommitNothingStaged(e: Env, v: View)
    requires v.previousErrors == [] && !e.world.expired(v.tick) && DoneCheck(v).None? && v.staged == []
    ensures CommitSpec(e, v) == OpResult(v.(isDone := true), Done(()))
  {
  }

  /**
   * Commit checks, in order, the saved errors, then expiry, then
   * DoneCheck; an expired attempt enters overtime.
   */
  lemma CommitChecks(e: Env, v: View)
    requires v.previousErrors == []
    ensures e.world.expired(v.tick) ==>
      CommitSpec(e, v) == OpResult(v.(overtime := true), Failed(OperationFailed(ExpiredError())))
    ensures !e.world.expired(v.tick) && DoneCheck(v).Some? ==>
      CommitSpec(e, v) == OpResult(v, Failed(OperationFailed(DoneCheck(v).value)))
  {
  }

  /** Once a commit has passed its checks the attempt is done: every later operation is refused by DoneCheck. */
  lemma CommitMarksDone(e: Env, v: View)
    requires v.previousErrors == [] && !e.world.expired(v.tick) && DoneCheck(v).None?
    ensures DoneCheck(CommitSpec(e, v).view).Some?
  {
    var v1 := v.(isDone := true);
    if v1.staged == [] {
      assert CommitSpec(e, v) == OpResult(v1, Done(()));
    } else {
      var c := RunStep(CommitBody(e.world, e.classify), v1);
      if c.reply.Failed? {
        assert CommitSpec(e, v) == c;
      } else {
        var u := UnstageFrom(e, c.view, 0);
        if u.reply.Failed? {
          assert CommitSpec(e, v) == u;
        } else {
          assert CommitSpec(e, v) == Protocol.SetAtrComplete(e, u.view);
        }
      }
    }
  }

  /** A rollback that succeeds leaves the attempt done: every later operation is refused by DoneCheck. */
  lemma RollbackMarksDone(e: Env, v: View, isAppRollback: bool)
    ensures var r := RollbackSpec(e, v, isAppRollback);
      r.reply.Done? ==> DoneCheck(r.view).Some?
  {
    var v1 := if !v.overtime && e.world.expired(v.tick) then v.(overtime := true) else v;
    if v1.state != NOTHING_WRITTEN && !(isAppRollback && DoneCheck(v1).Some?) {
      var a := RunStep(AbortedBody(e.world, e.classify), v1.(isDone := true));
      if a.reply.Done? {
        var r := RollbackFrom(e, a.view, 0);
        assert r.view.isDone;
        if r.reply.Done? {
          assert RunStep(RolledBackBody(e.world, e.classify), r.view).view.isDone;
        }
      }
    }
  }

  // ---------------------------------------------------------------- the states an operation can reach

  /** The second view has the first's state, and is in overtime once the first was. */
  predicate Kept(a: View, b: View)
  {
    b.state == a.state && (a.overtime ==> b.overtime)
  }

  /** The second view has the first's state or `s`, and is in overtime once the first was. */
  predicate MovedTo(a: View, b: View, s: AttemptState)
  {
    b.state in {a.state, s} && (a.overtime ==> b.overtime)
  }

  /**
   * A step whose every call keeps the state or sets `s`, and never leaves
   * overtime, leaves the attempt's state as it was or `s`, and does not
   * leave overtime.
   */
  lemma RunStepMoves(body: Ctx -> Turn<Ctx, ()>, v: View, s: AttemptState)
    requires forall x :: body(x).next.state in {x.state, s} && (x.overtime ==> body(x).next.overtime)
    ensures MovedTo(v, RunStep(body, v).view, s)
  {
    var s0 := v.state;
    var o0 := v.overtime;
    var inv := (x: Ctx) => x.state in {s0, s} && (o0 ==> x.overtime);
    RunPreserves(body, inv, CtxOf(v), DefaultRetryLimit, -1, InitialBackoffMs);
  }

  /** SetAtrPendingIfFirstMutation can only move the state to PENDING, and keeps overtime. */
  lemma PendingMoves(e: Env, v: View)
    ensures MovedTo(v, SetAtrPendingIfFirst(e, v).view, PENDING)
  {
    RunStepMoves(PendingBody(e.world, e.classify), v, PENDING);
  }

  /** CheckWriteWriteConflict keeps the state and overtime. */
  lemma ConflictMoves(e: Env, v: View, gr: Doc)
    ensures Kept(v, CheckWriteWriteConflict(e, v, gr).view)
  {
    var c := RunFromStart(ConflictBody(e.world, e.transactionId, gr), CtxOf(v), DefaultRetryLimit).outcome.state;
    ConflictKeeps(e.world, e.transactionId, gr, CtxOf(v));
    assert CheckWriteWriteConflict(e, v, gr).view == Resume(v, c);
  }

  /** Get keeps the state and overtime. */
  lemma GetMoves(e: Env, v: View, key: DocKey)
    ensures Kept(v, GetSpec(e, v, key).view)
  {
  }

  /** The staging write of an insert keeps the state and overtime. */
  lemma CreateStagedInsertMoves(e: Env, v: View, key: DocKey, content: Content)
    ensures Kept(v, Protocol.CreateStagedInsert(e, v, key, content).view)
  {
    InsertKeeps(e.world, e.classify, e.transactionId, InsertCtx(CtxOf(v), None, true));
  }

  /** Insert can only move the state to PENDING, and keeps overtime. */
  lemma InsertMoves(e: Env, v: View, key: DocKey, content: Content)
    ensures MovedTo(v, InsertSpec(e, v, key, content).view, PENDING)
  {
    if DoneCheck(v).None? && CheckErrors(v).None? && !IsStaged(v.staged, key) && CheckExpiry(e, v).None? {
      var p := SetAtrPendingIfFirst(e, InitAtr(e, v, key));
      PendingMoves(e, InitAtr(e, v, key));
      if p.reply.Done? {
        CreateStagedInsertMoves(e, p.view, key, content);
        assert InsertSpec(e, v, key, content) == Protocol.CreateStagedInsert(e, p.view, key, content);
      }
    }
  }

  /** Replace can only move the state to PENDING, and keeps overtime. */
  lemma ReplaceMoves(e: Env, v: View, doc: Doc, content: Content)
    ensures MovedTo(v, ReplaceSpec(e, v, doc, content).view, PENDING)
  {
    if Entry(e, v).None? {
      var c := CheckWriteWriteConflict(e, v, doc);
      ConflictMoves(e, v, doc);
      if c.reply.Done? {
        PendingMoves(e, InitAtr(e, c.view, doc.key));
      }
    }
  }

  /** Remove can only move the state to PENDING, and keeps overtime. */
  lemma RemoveMoves(e: Env, v: View, doc: Doc)
    ensures MovedTo(v, RemoveSpec(e, v, doc).view, PENDING)
  {
    if Entry(e, v).None? && !StagedAsInsert(v.staged, doc.key) {
      var c := CheckWriteWriteConflict(e, v, doc);
      ConflictMoves(e, v, doc);
      if c.reply.Done? {
        PendingMoves(e, InitAtr(e, c.view, doc.key));
      }
    }
  }

  /** Unstaging one entry keeps the state and overtime. */
  lemma UnstageOneMoves(e: Env, v: View, i: nat)
    requires i < |v.staged|
    ensures Kept(v, UnstageOne(e, v, i).view)
  {
    var sm := v.staged[i];
    if sm.kind == Remove {
      RunStepMoves(UnstageRemoveBody(e.world, e.classify), v, v.state);
    } else {
      var u := UnstageCtx(CtxOf(v), sm.doc.cas, sm.kind == Insert, false);
      var s0 := v.state;
      var o0 := v.overtime;
      var inv := (x: UnstageCtx) => x.ctx.state == s0 && (o0 ==> x.ctx.overtime);
      RunPreserves(UnstageBody(e.world, e.classify), inv, u, DefaultRetryLimit, -1, InitialBackoffMs);
    }
  }

  /** Unstaging keeps the state and overtime. */
  lemma {:induction false} UnstageMoves(e: Env, v: View, i: nat)
    requires i <= |v.staged|
    ensures Kept(v, UnstageFrom(e, v, i).view)
    decreases |v.staged| - i
  {
    if i < |v.staged| {
      var r := UnstageOne(e, v, i);
      UnstageOneMoves(e, v, i);
      if r.reply.Done? {
        var w := UnstageFrom(e, r.view, i + 1);
        UnstageMoves(e, r.view, i + 1);
        assert UnstageFrom(e, v, i) == w;
      }
    }
  }

  /** SetAtrCommit's step keeps the state or sets COMMITTED, and keeps overtime. */
  lemma CommitStepMoves(e: Env, v: View)
    ensures MovedTo(v, RunStep(CommitBody(e.world, e.classify), v).view, COMMITTED)
  {
    forall x ensures CommitBody(e.world, e.classify)(x).next.state in {x.state, COMMITTED}
      && (x.overtime ==> CommitBody(e.world, e.classify)(x).next.overtime)
    {
      CommitTurnState(e.world, e.classify, x);
    }
    RunStepMoves(CommitBody(e.world, e.classify), v, COMMITTED);
  }

  /** The two ledgers have the same entries in the same order, but for their CAS values. */
  predicate SameButCas(a: Mutations, b: Mutations)
  {
    |a| == |b| && forall j | 0 <= j < |a| :: b[j] == a[j].(doc := a[j].doc.(cas := b[j].doc.cas))
  }

  /** Differing only in CAS values is transitive. */
  lemma SameButCasTrans(a: Mutations, b: Mutations, c: Mutations)
    requires SameButCas(a, b) && SameButCas(b, c)
    ensures SameButCas(a, c)
  {
    forall j | 0 <= j < |a| ensures c[j] == a[j].(doc := a[j].doc.(cas := c[j].doc.cas)) {
      assert b[j] == a[j].(doc := a[j].doc.(cas := b[j].doc.cas));
    }
  }

  /**
   * Unstaging one entry rewrites at most that entry, and only its CAS:
   * every entry keeps its document, kind and content.
   */
  lemma UnstageOneKeepsEntries(e: Env, v: View, i: nat)
    requires i < |v.staged|
    ensures var r := UnstageOne(e, v, i);
      SameButCas(v.staged, r.view.staged) && forall j | 0 <= j < |v.staged| && j != i :: r.view.staged[j] == v.staged[j]
  {
  }

  /**
   * Unstaging keeps the ledger's documents, kinds and contents, so a
   * cleanup request made afterwards names the same documents.
   */
  lemma {:induction false} UnstageKeepsEntries(e: Env, v: View, i: nat)
    requires i <= |v.staged|
    ensures SameButCas(v.staged, UnstageFrom(e, v, i).view.staged)
    decreases |v.staged| - i
  {
    if i < |v.staged| {
      var r := UnstageOne(e, v, i);
      UnstageOneKeepsEntries(e, v, i);
      if r.reply.Done? {
        UnstageKeepsEntries(e, r.view, i + 1);
        SameButCasTrans(v.staged, r.view.staged, UnstageFrom(e, r.view, i + 1).view.staged);
        assert UnstageFrom(e, v, i) == UnstageFrom(e, r.view, i + 1);
      } else {
        assert UnstageFrom(e, v, i) == r;
      }
    } else {
      assert UnstageFrom(e, v, i).view == v;
    }
  }

  /** Commit can only move the state to COMMITTED or COMPLETED, and keeps overtime. */
  lemma CommitMoves(e: Env, v: View)
    ensures CommitSpec(e, v).view.state in {v.state, COMMITTED, COMPLETED}
    ensures v.overtime ==> CommitSpec(e, v).view.overtime
  {
    if v.previousErrors == [] && CheckExpiry(e, v).None? && DoneCheck(v).None? && v.staged != [] {
      var v1 := v.(isDone := true);
      CommitStepMoves(e, v1);
      var c := RunStep(CommitBody(e.world, e.classify), v1);
      if c.reply.Done? {
        UnstageMoves(e, c.view, 0);
        var u := UnstageFrom(e, c.view, 0);
        if u.reply.Done? {
          var f := Protocol.SetAtrComplete(e, u.view);
          assert MovedTo(u.view, f.view, COMPLETED);
          assert CommitSpec(e, v) == f;
        } else {
          assert CommitSpec(e, v) == u;
        }
      } else {
        assert CommitSpec(e, v) == c;
      }
    }
  }

  /** Rolling back one entry keeps the state and overtime. */
  lemma RollbackOneMoves(e: Env, v: View, i: nat)
    requires i < |v.staged|
    ensures Kept(v, RollbackOne(e, v, i).view)
  {
    if v.staged[i].kind == Insert {
      RunStepMoves(RollbackInsertBody(e.world, e.classify), v, v.state);
    } else {
      RunStepMoves(RollbackReplaceOrRemoveBody(e.world, e.classify), v, v.state);
    }
  }

  /** Rolling back the entries keeps the state and overtime. */
  lemma {:induction false} RollbackFromMoves(e: Env, v: View, i: nat)
    requires i <= |v.staged|
    ensures Kept(v, RollbackFrom(e, v, i).view)
    decreases |v.staged| - i
  {
    if i < |v.staged| {
      var r := RollbackOne(e, v, i);
      RollbackOneMoves(e, v, i);
      if r.reply.Done? {
        var w := RollbackFrom(e, r.view, i + 1);
        RollbackFromMoves(e, r.view, i + 1);
        assert RollbackFrom(e, v, i) == w;
      }
    }
  }

  /** After ABORTED is written, rolling back can only move the state to ROLLED_BACK, and keeps overtime. */
  lemma RollbackAfterAbortMoves(e: Env, a: View)
    ensures var r := RollbackFrom(e, a, 0);
      MovedTo(a, (if r.reply.Failed? then r else RunStep(RolledBackBody(e.world, e.classify), r.view)).view, ROLLED_BACK)
  {
    RollbackFromMoves(e, a, 0);
    var r := RollbackFrom(e, a, 0);
    RunStepMoves(RolledBackBody(e.world, e.classify), r.view, ROLLED_BACK);
  }

  /** Rollback can only move the state to ABORTED or ROLLED_BACK, and keeps overtime. */
  lemma RollbackMoves(e: Env, v: View, isAppRollback: bool)
    ensures RollbackSpec(e, v, isAppRollback).view.state in {v.state, ABORTED, ROLLED_BACK}
    ensures v.overtime ==> RollbackSpec(e, v, isAppRollback).view.overtime
  {
    var v1 := if !v.overtime && e.world.expired(v.tick) then v.(overtime := true) else v;
    if v1.state != NOTHING_WRITTEN && !(isAppRollback && DoneCheck(v1).Some?) {
      var v2 := v1.(isDone := true);
      RunStepMoves(AbortedBody(e.world, e.classify), v2, ABORTED);
      var a := RunStep(AbortedBody(e.world, e.classify), v2);
      if a.reply.Done? {
        RollbackAfterAbortMoves(e, a.view);
        var r := RollbackFrom(e, a.view, 0);
        assert RollbackSpec(e, v, isAppRollback) == if r.reply.Failed? then r else RunStep(RolledBackBody(e.world, e.classify), r.view);
      } else {
        assert RollbackSpec(e, v, isAppRollback) == a;
      }
    }
  }

  // ---------------------------------------------------------------- the cleanup request

  lemma KeysAppend(a: Mutations, b: Mutations)
    ensures Keys(a + b) == Keys(a) + Keys(b)
  {
    assert forall i | 0 <= i < |a + b| :: Keys(a + b)[i] == (Keys(a) + Keys(b))[i];
  }

  /** The ids of one kind after one more entry is staged. */
  lemma KeysOfKindAppend(l: Mutations, m: StagedMutation, kind: MutationType)
    ensures Keys(OfKind(l + [m], kind)) == Keys(OfKind(l, kind)) + (if m.kind == kind then [m.doc.key] else [])
  {
    OfKindAppend(l, [m], kind);
    KeysAppend(OfKind(l, kind), OfKind([m], kind));
    assert Keys([m]) == [m.doc.key];
  }

  /** A document's id is listed under a kind exactly when an entry of that kind is staged for it. */
  lemma KeysOfKindMembers(l: Mutations, kind: MutationType, k: DocKey)
    ensures k in Keys(OfKind(l, kind)) <==> exists i | 0 <= i < |l| :: l[i].doc.key == k && l[i].kind == kind
  {
    var view := OfKind(l, kind);
    var ks := Keys(view);
    if k in ks {
      var j :| 0 <= j < |ks| && ks[j] == k;
      assert view[j] in view;
      var i :| 0 <= i < |l| && l[i] == view[j];
    }
    if exists i | 0 <= i < |l| :: l[i].doc.key == k && l[i].kind == kind {
      var i :| 0 <= i < |l| && l[i].doc.key == k && l[i].kind == kind;
      assert l[i] in view;
      var j :| 0 <= j < |view| && view[j] == l[i];
      assert ks[j] == k;
    }
  }

  /**
   * The cleanup request lists the documents in ledger order: staging one
   * more entry appends its id to the list of its kind and leaves the other
   * two lists, the attempt, the ATR and the state as they were.
   */
  lemma CleanupRequestInLedgerOrder(e: Env, v: View, m: StagedMutation)
    requires GetCleanupRequest(e, v).Some?
    ensures var r0 := GetCleanupRequest(e, v).value;
      var r := GetCleanupRequest(e, v.(staged := v.staged + [m]));
      && r.Some?
      && r.value.insertedIds == r0.insertedIds + (if m.kind == Insert then [m.doc.key] else [])
      && r.value.replacedIds == r0.replacedIds + (if m.kind == Replace then [m.doc.key] else [])
      && r.value.removedIds == r0.removedIds + (if m.kind == Remove then [m.doc.key] else [])
      && r.value.attemptId == r0.attemptId && r.value.atrId == r0.atrId && r.value.state == r0.state
  {
    KeysOfKindAppend(v.staged, m, Insert);
    KeysOfKindAppend(v.staged, m, Replace);
    KeysOfKindAppend(v.staged, m, Remove);
  }

  /**
   * Every staged entry is listed under its own kind: a document is in the
   * inserted, replaced or removed list exactly when some entry of that kind
   * is staged for it, and the three lists together are as long as the ledger.
   */
  lemma CleanupRequestLists(e: Env, v: View, k: DocKey)
    requires GetCleanupRequest(e, v).Some?
    ensures var r := GetCleanupRequest(e, v).value;
      && (k in r.insertedIds <==> exists i | 0 <= i < |v.staged| :: v.staged[i].doc.key == k && v.staged[i].kind == Insert)
      && (k in r.replacedIds <==> exists i | 0 <= i < |v.staged| :: v.staged[i].doc.key == k && v.staged[i].kind == Replace)
      && (k in r.removedIds <==> exists i | 0 <= i < |v.staged| :: v.staged[i].doc.key == k && v.staged[i].kind == Remove)
      && |r.insertedIds| + |r.replacedIds| + |r.removedIds| == |v.staged|
  {
    ViewsPartition(v.staged);
    KeysOfKindMembers(v.staged, Insert, k);
    KeysOfKindMembers(v.staged, Replace, k);
    KeysOfKindMembers(v.staged, Remove, k);
  }
}

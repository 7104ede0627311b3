/**
 * The operations of one transaction attempt, as functions from the
 * attempt's fields before the call to its fields after the call and what
 * the call returns or raises. AttemptContext's methods are proved to do
 * exactly this.
 */
module Protocol {
  import opened Errors
  import opened States
  import opened Triage
  import opened Ledger
  import opened Mav
  import opened Repeat
  import opened Steps

  /** What an attempt is given when it is made, and the collaborators it calls. */
  datatype Env = Env(
    attemptId: string,
    transactionId: string,
    world: World,
    classify: Cause -> ErrorClass,       // ErrorClass Classify(this Exception)
    mavTriage: Cause -> Triaged,         // TriageAtrLookupInMavErrors
    atrIdFor: DocKey -> string)          // AtrIds.GetAtrId, for the first document written

  /** The attempt's mutable fields. `atr` is the id of the ATR once it is chosen. */
  datatype View = View(
    state: AttemptState,
    isDone: bool,
    overtime: bool,
    tick: nat,
    staged: Mutations,
    previousErrors: seq<TransactionError>,
    atr: Option<string>,
    unstagingComplete: bool)

  /** A new attempt: nothing written, nothing staged, no errors, the ATR only if one was supplied. */
  function Initial(atr: Option<string>): (v: View)
    ensures v.state == NOTHING_WRITTEN && !v.isDone && !v.overtime && v.staged == [] && v.previousErrors == []
    ensures v.atr == atr && !v.unstagingComplete
  {
    View(NOTHING_WRITTEN, false, false, 0, [], [], atr, false)
  }

  /** What an operation returns, or what it raises. */
  datatype Reply<T> = Done(value: T) | Failed(error: Cause)

  /** The fields after an operation, and its reply. */
  datatype OpResult<T> = OpResult(view: View, reply: Reply<T>)

  /** A failed step, as the failure of the operation it is part of. */
  function Failing<T, U>(r: OpResult<T>): OpResult<U>
    requires r.reply.Failed?
  {
    OpResult(r.view, Failed(r.reply.error))
  }

  function CtxOf(v: View): Ctx
  {
    Ctx(v.state, v.overtime, v.tick)
  }

  /** The fields after a step that worked on `c`. */
  function Resume(v: View, c: Ctx): View
  {
    v.(state := c.state, overtime := c.overtime, tick := c.tick)
  }

  // ---------------------------------------------------------------- guards

  const AfterDone := Described("Cannot perform operations after a transaction has been committed or rolled back.")
  const AlreadyStaged := Described("Document is already staged for a mutation.")
  const AlreadyStagedForInsert := Described("Document is already staged for insert.")
  const RemovedAfterInsert := Described("doc is being removed after being inserted in the same txn.")
  const NoInsertResult := Described("Final result should not be null")

  /** DoneCheck: no operation once the attempt is done or has left NOTHING_WRITTEN and PENDING. */
  function DoneCheck(v: View): (r: Option<TransactionError>)
    ensures r.Some? <==> v.isDone || !(v.state == NOTHING_WRITTEN || v.state == PENDING)
    ensures r.Some? ==> r.value.causingErrorClass == FailOther && r.value.cause == AfterDone
    ensures r.Some? ==> !r.value.autoRollbackAttempt && !r.value.retryTransaction
  {
    if v.isDone || !(v.state == NOTHING_WRITTEN || v.state == PENDING) then
      Some(WithoutRollback(FailOther, AfterDone))
    else None
  }

  /** CheckErrors: no operation once an earlier one has failed. */
  function CheckErrors(v: View): (r: Option<TransactionError>)
    ensures r.Some? <==> v.previousErrors != []
    ensures r.Some? ==> r.value.causingErrorClass == FailOther && r.value.cause == PreviousOperationFailed(v.previousErrors)
    ensures r.Some? ==> !r.value.retryTransaction && r.value.finalErrorToRaise == TransactionFailed
  {
    if v.previousErrors != [] then Some(CreateError(FailOther, PreviousOperationFailed(v.previousErrors)).Build())
    else None
  }

  /** An operation refused before it does anything, with the fields it leaves. */
  datatype Refusal = Refusal(view: View, error: Cause)

  /** CheckExpiryAndThrow: an expired attempt enters overtime and raises an expiry. */
  function CheckExpiry(e: Env, v: View): (r: Option<Refusal>)
    ensures r.Some? <==> e.world.expired(v.tick)
    ensures r.Some? ==> r.value == Refusal(v.(overtime := true), OperationFailed(ExpiredError()))
  {
    if e.world.expired(v.tick) then Some(Refusal(v.(overtime := true), OperationFailed(ExpiredError()))) else None
  }

  /** DoneCheck, CheckErrors and CheckExpiryAndThrow in turn, as Get, Replace and Remove start. */
  function Entry(e: Env, v: View): (r: Option<Refusal>)
    ensures r.None? <==> DoneCheck(v).None? && CheckErrors(v).None? && !e.world.expired(v.tick)
    ensures r.Some? && DoneCheck(v).Some? ==> r.value == Refusal(v, OperationFailed(DoneCheck(v).value))
    ensures r.Some? && DoneCheck(v).None? && CheckErrors(v).Some? ==> r.value == Refusal(v, OperationFailed(CheckErrors(v).value))
    ensures r.Some? && DoneCheck(v).None? && CheckErrors(v).None? ==> r == CheckExpiry(e, v)
  {
    if DoneCheck(v).Some? then Some(Refusal(v, OperationFailed(DoneCheck(v).value)))
    else if CheckErrors(v).Some? then Some(Refusal(v, OperationFailed(CheckErrors(v).value)))
    else CheckExpiry(e, v)
  }

  function Refused<T>(r: Refusal): OpResult<T>
  {
    OpResult(r.view, Failed(r.error))
  }

  /**
   * SaveErrorWrapper: a classified error raised by a saving operation is
   * kept, once, for later CheckErrors calls.
   */
  function SaveError(v: View, c: Cause): (r: View)
    ensures r.state == v.state && r.isDone == v.isDone && r.overtime == v.overtime && r.tick == v.tick
    ensures r.staged == v.staged && r.atr == v.atr && r.unstagingComplete == v.unstagingComplete
    ensures c.Classified? ==> c.error in r.previousErrors
    ensures r.previousErrors == v.previousErrors
      || (c.Classified? && c.error !in v.previousErrors && r.previousErrors == v.previousErrors + [c.error])
  {
    if c.Classified? && c.error !in v.previousErrors then v.(previousErrors := v.previousErrors + [c.error]) else v
  }

  /** InitAtrIfNeeded: the ATR is chosen from the first document written and then kept. */
  function InitAtr(e: Env, v: View, key: DocKey): (r: View)
    ensures r.atr.Some? && (v.atr.Some? ==> r == v)
    ensures r == v.(atr := r.atr)
  {
    if v.atr.None? then v.(atr := Some(e.atrIdFor(key))) else v
  }

  // ---------------------------------------------------------------- steps as parts of operations

  /** A step run by RepeatUntilSuccessOrThrow on the attempt's state, overtime flag and tick. */
  function RunStep(body: Ctx -> Turn<Ctx, ()>, v: View): (r: OpResult<()>)
    ensures r.view == Resume(v, CtxOf(r.view))
  {
    match RunFromStart(body, CtxOf(v), DefaultRetryLimit).outcome
    case Returned(_, c) => OpResult(Resume(v, c), Done(()))
    case Thrown(x, c) => OpResult(Resume(v, c), Failed(x))
  }

  /** SetAtrPendingIfFirstMutation; SetAtrPending saves what it raises. */
  function SetAtrPendingIfFirst(e: Env, v: View): (r: OpResult<()>)
    ensures r.view.staged == v.staged && r.view.atr == v.atr && r.view.isDone == v.isDone
    ensures r.view.unstagingComplete == v.unstagingComplete
    ensures v.staged != [] ==> r == OpResult(v, Done(()))
  {
    if v.staged != [] then OpResult(v, Done(()))
    else
      var r := RunStep(PendingBody(e.world, e.classify), v);
      if r.reply.Failed? then OpResult(SaveError(r.view, r.reply.error), r.reply) else r
  }

  function CheckWriteWriteConflict(e: Env, v: View, gr: Doc): OpResult<()>
  {
    RunStep(ConflictBody(e.world, e.transactionId, gr), v)
  }

  // ---------------------------------------------------------------- get

  /** What a get finds: nothing (null), the empty result, the attempt's own write, or a stored version. */
  datatype GetResult =
    | Absent
    | EmptyResult                            // TransactionGetResult.Empty
    | OwnContent(doc: Doc, content: Content)
    | Fetched(doc: Doc, postTransaction: bool)
    | Unresolved                             // the lookups given ran out before the read settled

  /** GetWithKv. */
  function GetSpec(e: Env, v: View, key: DocKey): OpResult<GetResult>
  {
    var g := Entry(e, v);
    if g.Some? then Refused(g.value)
    else match ReadOwnWrite(v.staged, key)
      case StagedContent(d, content) => OpResult(v, Done(OwnContent(d, content)))
      case StagedRemoved => OpResult(v, Done(Absent))
      case NotStaged =>
        var n := v.(tick := v.tick + 1);
        match GetWithMav(e.attemptId, e.world.mavReads(v.tick), None, e.mavTriage)
        case Empty => OpResult(n, Done(EmptyResult))
        case PreTransaction(d) => OpResult(n, Done(Fetched(d, false)))
        case PostTransaction(d) => OpResult(n, Done(Fetched(d, true)))
        case NoMoreReplies => OpResult(n, Done(Unresolved))
        case MavFailed(err) =>
          var ex := OperationFailed(err);
          var t := TriageGetErrors(e.classify(ex), ex);
          if t.ec == FailDocNotFound then OpResult(n, Done(EmptyResult))
          else
            var thrown := TriagedThrow(t, ex);
            OpResult(SaveError(n, thrown), Failed(thrown))
  }

  // ---------------------------------------------------------------- insert

  /** InsertWithKv: a document already staged is refused before the expiry check and any ATR work. */
  function InsertSpec(e: Env, v: View, key: DocKey, content: Content): OpResult<Doc>
  {
    if DoneCheck(v).Some? then OpResult(v, Failed(OperationFailed(DoneCheck(v).value)))
    else if CheckErrors(v).Some? then OpResult(v, Failed(OperationFailed(CheckErrors(v).value)))
    else if IsStaged(v.staged, key) then OpResult(v, Failed(OperationFailed(CreateError(FailOther, AlreadyStaged).Build())))
    else if CheckExpiry(e, v).Some? then Refused(CheckExpiry(e, v).value)
    else
      var p := SetAtrPendingIfFirst(e, InitAtr(e, v, key));
      if p.reply.Failed? then Failing(p)
      else CreateStagedInsert(e, p.view, key, content)
  }

  /** CreateStagedInsert: the insert loop, then the new entry; what it raises is saved. */
  function CreateStagedInsert(e: Env, v: View, key: DocKey, content: Content): OpResult<Doc>
  {
    match RunFromStart(InsertBody(e.world, e.classify, e.transactionId), InsertCtx(CtxOf(v), None, true), DefaultRetryLimit).outcome
    case Thrown(x, s) => OpResult(SaveError(Resume(v, s.ctx), x), Failed(x))
    case Returned(cas, s) =>
      if cas.None? then OpResult(Resume(v, s.ctx), Failed(NoInsertResult))
      else
        var d := Doc(key, cas.value, s.tombstone, None);
        OpResult(Resume(v, s.ctx).(staged := StageInsert(v.staged, d, content)), Done(d))
  }

  // ---------------------------------------------------------------- replace and remove

  /** ReplaceWithKv. */
  function ReplaceSpec(e: Env, v: View, doc: Doc, content: Content): OpResult<Doc>
  {
    var g := Entry(e, v);
    if g.Some? then Refused(g.value)
    else
      var c := CheckWriteWriteConflict(e, v, doc);
      if c.reply.Failed? then Failing(c)
      else
        var p := SetAtrPendingIfFirst(e, InitAtr(e, c.view, doc.key));
        if p.reply.Failed? then Failing(p)
        else CreateStagedReplace(e, p.view, doc, content)
  }

  /** A failed staging write of a replace or remove: triaged, maybe into overtime, and saved. */
  function StagingFailed<T>(e: Env, v: View, ex: Cause): (r: OpResult<T>)
    ensures r.reply.Failed? && r.view.state == v.state && (v.overtime ==> r.view.overtime)
    ensures r.view.staged == v.staged && r.view.isDone == v.isDone && r.view.atr == v.atr
    ensures r.view.tick == v.tick && r.view.unstagingComplete == v.unstagingComplete
    // the error raised is the one the replace/remove table gives, or the wrapper of its class
    ensures var t := TriageCreateStagedRemoveOrReplaceError(e.classify(ex), ex);
      r.reply.error == TriagedThrow(t, ex) && r.view.overtime == (v.overtime || t.ec == FailExpiry)
    // and it is saved for later CheckErrors and commit
    ensures r.reply.error.Classified? && r.reply.error.error in r.view.previousErrors
    ensures r.view.previousErrors == v.previousErrors
      || (r.reply.error.error !in v.previousErrors && r.view.previousErrors == v.previousErrors + [r.reply.error.error])
  {
    var t := TriageCreateStagedRemoveOrReplaceError(e.classify(ex), ex);
    var thrown := TriagedThrow(t, ex);
    var n := if t.ec == FailExpiry then v.(overtime := true) else v;
    OpResult(SaveError(n, thrown), Failed(thrown))
  }

  /** CreateStagedReplace: one staging write, then the ledger update. */
  function CreateStagedReplace(e: Env, v: View, doc: Doc, content: Content): (r: OpResult<Doc>)
    ensures r.view.state == v.state && (v.overtime ==> r.view.overtime)
  {
    var n := v.(tick := v.tick + 1);
    match e.world.write(v.tick)
    case Wrote(cas) =>
      var d := doc.(cas := cas);
      OpResult(n.(staged := StageReplace(v.staged, d, content)), Done(d))
    case WriteFailed(x) => StagingFailed(e, n, x)
  }

  /** A failed staging write of a replace leaves the ledger as it was. */
  lemma CreateStagedReplaceFails(e: Env, v: View, doc: Doc, content: Content)
    requires e.world.write(v.tick).WriteFailed?
    ensures CreateStagedReplace(e, v, doc, content) == StagingFailed(e, v.(tick := v.tick + 1), e.world.write(v.tick).c)
  {
  }

  /** A staging write of a replace that succeeds stages the document with its new CAS. */
  lemma CreateStagedReplaceWrites(e: Env, v: View, doc: Doc, content: Content)
    requires e.world.write(v.tick).Wrote?
    ensures var d := doc.(cas := e.world.write(v.tick).cas);
      CreateStagedReplace(e, v, doc, content) == OpResult(v.(tick := v.tick + 1, staged := StageReplace(v.staged, d, content)), Done(d))
  {
  }

  /** RemoveWithKv: a staged insert of the document is refused before any ATR work. */
  function RemoveSpec(e: Env, v: View, doc: Doc): OpResult<()>
  {
    var g := Entry(e, v);
    if g.Some? then Refused(g.value)
    else if StagedAsInsert(v.staged, doc.key) then
      OpResult(v, Failed(OperationFailed(CreateError(FailOther, AlreadyStagedForInsert).Build())))
    else
      var c := CheckWriteWriteConflict(e, v, doc);
      if c.reply.Failed? then Failing(c)
      else
        var p := SetAtrPendingIfFirst(e, InitAtr(e, c.view, doc.key));
        if p.reply.Failed? then Failing(p)
        else CreateStagedRemove(e, p.view, doc)
  }

  /**
   * CreateStagedRemove: one staging write; a staged insert of the same
   * document is refused after it, and the remove replaces the document's
   * entry.
   */
  function CreateStagedRemove(e: Env, v: View, doc: Doc): (r: OpResult<()>)
    ensures r.view.state == v.state && (v.overtime ==> r.view.overtime)
  {
    var n := v.(tick := v.tick + 1);
    match e.world.write(v.tick)
    case Wrote(cas) =>
      if StagedAsInsert(v.staged, doc.key) then StagingFailed(e, n, RemovedAfterInsert)
      else OpResult(n.(staged := StageRemove(v.staged, doc.(cas := cas))), Done(()))
    case WriteFailed(x) => StagingFailed(e, n, x)
  }

  // ---------------------------------------------------------------- commit

  /** CommitWithKv. */
  function CommitSpec(e: Env, v: View): OpResult<()>
  {
    if v.previousErrors != [] then OpResult(v, Failed(OperationFailed(ThrowIfCommitWithPreviousErrors(v.previousErrors))))
    else if CheckExpiry(e, v).Some? then Refused(CheckExpiry(e, v).value)
    else if DoneCheck(v).Some? then OpResult(v, Failed(OperationFailed(DoneCheck(v).value)))
    else
      var v1 := v.(isDone := true);
      if v1.staged == [] then OpResult(v1, Done(()))
      else
        var c := RunStep(CommitBody(e.world, e.classify), v1);
        if c.reply.Failed? then c
        else
          var u := UnstageFrom(e, c.view, 0);
          if u.reply.Failed? then u
          else SetAtrComplete(e, u.view)
  }

  /** Unstaging one entry: a remove, or an insert or replace written at the entry's CAS. */
  function UnstageOne(e: Env, v: View, i: nat): (r: OpResult<()>)
    requires i < |v.staged|
    ensures |r.view.staged| == |v.staged|
    ensures r.view.previousErrors == v.previousErrors && r.view.isDone == v.isDone && r.view.atr == v.atr
    ensures r.view.unstagingComplete == v.unstagingComplete
  {
    var sm := v.staged[i];
    if sm.kind == Remove then RunStep(UnstageRemoveBody(e.world, e.classify), v)
    else
      var u := UnstageCtx(CtxOf(v), sm.doc.cas, sm.kind == Insert, false);
      match RunFromStart(UnstageBody(e.world, e.classify), u, DefaultRetryLimit).outcome
      case Returned(cas, s) => OpResult(Resume(v, s.ctx).(staged := v.staged[i := sm.(doc := sm.doc.(cas := cas))]), Done(()))
      case Thrown(x, s) => OpResult(Resume(v, s.ctx), Failed(x))
  }

  /** Unstaging an insert or replace runs the commit-document loop and, on success, records the new CAS. */
  lemma UnstageOneNotRemove(e: Env, v: View, i: nat)
    requires i < |v.staged| && v.staged[i].kind != Remove
    ensures var sm := v.staged[i];
      var o := RunFromStart(UnstageBody(e.world, e.classify), UnstageCtx(CtxOf(v), sm.doc.cas, sm.kind == Insert, false), DefaultRetryLimit).outcome;
      UnstageOne(e, v, i) ==
        if o.Returned? then OpResult(Resume(v, o.state.ctx).(staged := v.staged[i := sm.(doc := sm.doc.(cas := o.value))]), Done(()))
        else OpResult(Resume(v, o.state.ctx), Failed(o.error))
  {
  }

  /** UnstageDocs from entry `i` on, in ledger order, stopping at the first failure. */
  function UnstageFrom(e: Env, v: View, i: nat): (r: OpResult<()>)
    requires i <= |v.staged|
    ensures |r.view.staged| == |v.staged|
    ensures r.view.previousErrors == v.previousErrors && r.view.isDone == v.isDone && r.view.atr == v.atr
    ensures r.view.unstagingComplete == v.unstagingComplete
    decreases |v.staged| - i
  {
    if i == |v.staged| then OpResult(v, Done(()))
    else
      var r := UnstageOne(e, v, i);
      if r.reply.Failed? then r else UnstageFrom(e, r.view, i + 1)
  }

  /** UnstageDocs takes one entry, then goes on after it unless that entry failed. */
  lemma UnstageFromStep(e: Env, v: View, i: nat, w: View, reply: Reply<()>)
    requires i < |v.staged| && OpResult(w, reply) == UnstageOne(e, v, i)
    ensures |w.staged| == |v.staged|
    ensures UnstageFrom(e, v, i) == if reply.Failed? then OpResult(w, reply) else UnstageFrom(e, w, i + 1)
  {
  }

  /**
   * SetAtrComplete: skipped once expired outside overtime; a passed write
   * marks the entry COMPLETED and unstaging complete; only FailHard is
   * raised, and any other failure is passed over with the state kept.
   */
  function SetAtrComplete(e: Env, v: View): (r: OpResult<()>)
    ensures r.view.isDone == v.isDone && r.view.staged == v.staged && r.view.previousErrors == v.previousErrors
    ensures r.reply.Failed? ==> r.reply.error.Classified? && r.reply.error.error.causingErrorClass == FailHard
    ensures e.world.expired(v.tick) && !v.overtime ==> r == OpResult(v, Done(()))
    ensures !(e.world.expired(v.tick) && !v.overtime) && e.world.write(v.tick).Wrote? ==>
      r.reply.Done? && r.view.state == COMPLETED && r.view.unstagingComplete
    ensures !(e.world.expired(v.tick) && !v.overtime) && e.world.write(v.tick).WriteFailed? ==>
      (r.reply.Done? <==> e.classify(e.world.write(v.tick).c) != FailHard)
      && r.view.state == v.state && r.view.unstagingComplete == v.unstagingComplete
  {
    if e.world.expired(v.tick) && !v.overtime then OpResult(v, Done(()))
    else
      var n := v.(tick := v.tick + 1);
      match e.world.write(v.tick)
      case Wrote(_) => OpResult(n.(state := COMPLETED, unstagingComplete := true), Done(()))
      case WriteFailed(x) =>
        var t := TriageSetAtrCompleteErrors(e.classify(x), x);
        if t.toThrow.Some? then OpResult(n, Failed(OperationFailed(t.toThrow.value))) else OpResult(n, Done(()))
  }

  // ---------------------------------------------------------------- rollback

  /** RollbackWithKv. */
  function RollbackSpec(e: Env, v: View, isAppRollback: bool): OpResult<()>
  {
    var v1 := if !v.overtime && e.world.expired(v.tick) then v.(overtime := true) else v;
    if v1.state == NOTHING_WRITTEN then OpResult(v1.(isDone := true), Done(()))
    else if isAppRollback && DoneCheck(v1).Some? then OpResult(v1, Failed(OperationFailed(DoneCheck(v1).value)))
    else
      var a := RunStep(AbortedBody(e.world, e.classify), v1.(isDone := true));
      if a.reply.Failed? then a
      else
        var r := RollbackFrom(e, a.view, 0);
        if r.reply.Failed? then r
        else RunStep(RolledBackBody(e.world, e.classify), r.view)
  }

  /** Rolling back one entry. */
  function RollbackOne(e: Env, v: View, i: nat): (r: OpResult<()>)
    requires i < |v.staged|
    ensures r.view == Resume(v, CtxOf(r.view))
  {
    if v.staged[i].kind == Insert then RunStep(RollbackInsertBody(e.world, e.classify), v)
    else RunStep(RollbackReplaceOrRemoveBody(e.world, e.classify), v)
  }

  /** The rollback of every entry from `i` on, in ledger order, stopping at the first failure. */
  function RollbackFrom(e: Env, v: View, i: nat): (r: OpResult<()>)
    requires i <= |v.staged|
    ensures r.view == Resume(v, CtxOf(r.view))
    decreases |v.staged| - i
  {
    if i == |v.staged| then OpResult(v, Done(()))
    else
      var r := RollbackOne(e, v, i);
      if r.reply.Failed? then r else RollbackFrom(e, r.view, i + 1)
  }

  // ---------------------------------------------------------------- cleanup

  /** What the cleanup of a lost attempt needs to know. */
  datatype CleanupRequest = CleanupRequest(
    attemptId: string,
    atrId: string,
    insertedIds: seq<DocKey>,
    replacedIds: seq<DocKey>,
    removedIds: seq<DocKey>,
    state: AttemptState)

  /** RollbackDocs takes one entry, then goes on after it unless that entry failed. */
  lemma RollbackFromStep(e: Env, v: View, i: nat, w: View, reply: Reply<()>)
    requires i < |v.staged| && OpResult(w, reply) == RollbackOne(e, v, i)
    ensures w.staged == v.staged
    ensures RollbackFrom(e, v, i) == if reply.Failed? then OpResult(w, reply) else RollbackFrom(e, w, i + 1)
  {
  }

  function Keys(ms: Mutations): (r: seq<DocKey>)
    ensures |r| == |ms| && forall i | 0 <= i < |ms| :: r[i] == ms[i].doc.key
  {
    if ms == [] then [] else [ms[0].doc.key] + Keys(ms[1..])
  }

  /**
   * GetCleanupRequest: nothing to clean up without an ATR or in
   * NOTHING_WRITTEN, COMPLETED or ROLLED_BACK; otherwise the staged
   * documents by kind, and the state.
   */
  function GetCleanupRequest(e: Env, v: View): (r: Option<CleanupRequest>)
    ensures r.None? <==> v.atr.None? || v.state in {NOTHING_WRITTEN, COMPLETED, ROLLED_BACK}
    ensures r.Some? ==> r.value.attemptId == e.attemptId && r.value.atrId == v.atr.value && r.value.state == v.state
    ensures r.Some? ==>
      && r.value.insertedIds == Keys(StagedInserts(v.staged))
      && r.value.replacedIds == Keys(StagedReplaces(v.staged))
      && r.value.removedIds == Keys(StagedRemoves(v.staged))
  {
    if v.atr.None? || v.state == NOTHING_WRITTEN || v.state == COMPLETED || v.state == ROLLED_BACK then None
    else Some(CleanupRequest(e.attemptId, v.atr.value, Keys(StagedInserts(v.staged)), Keys(StagedReplaces(v.staged)),
                             Keys(StagedRemoves(v.staged)), v.state))
  }
}

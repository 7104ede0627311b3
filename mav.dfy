/**
 * GetWithMav: the Monotonic Atomic View read of a document that another
 * attempt may have staged. The document's transaction metadata names the
 * attempt that wrote it; the state of that attempt's ATR entry decides
 * whether the reader sees the staged (post-transaction) or the committed
 * (pre-transaction) content.
 */
module Mav {
  import opened Errors
  import opened Xattrs
  import opened States
  import opened Ledger
  import opened Triage

  /** The document lookup's answer: null, a document, or an exception. */
  datatype DocReply = DocAbsent | DocFound(doc: Doc) | DocFailed(c: Cause)

  /**
   * Resolving a writer's ATR entry: the collection or the entry may be
   * missing or fail; a found entry has a state and may have expired.
   */
  datatype AtrReply =
    | CollectionMissing
    | CollectionFailed(c: Cause)
    | EntryMissing
    | EntryFailed(c: Cause)
    | EntryFound(state: AttemptState, isExpired: bool)

  /** What one pass of GetWithMav is told by its collaborators. */
  datatype MavRound = MavRound(doc: DocReply, atr: AtrReply)

  /**
   * The read's result. `NoMoreReplies` stands for a pass the caller's
   * replies do not cover.
   */
  datatype MavResult =
    | Empty
    | PreTransaction(doc: Doc)
    | PostTransaction(doc: Doc)
    | MavFailed(error: TransactionError)
    | NoMoreReplies

  /** The metadata names the writer's attempt and transaction and the ATR's bucket and collection. */
  predicate HasWriter(d: Doc)
  {
    d.txn.Some? && AttemptIdOf(d.txn.value).Some? && TransactionIdOf(d.txn.value).Some?
    && AtrBucketOf(d.txn.value).Some? && AtrCollectionOf(d.txn.value).Some?
  }

  /** The id of the attempt that staged the document. */
  function WriterOf(d: Doc): string
    requires HasWriter(d)
  {
    AttemptIdOf(d.txn.value).value
  }

  /** The staged operation's type, if the metadata has one. */
  function OpTypeOf(d: Doc): Option<string>
  {
    if d.txn.Some? && d.txn.value.operation.Some? then d.txn.value.operation.value.opType else None
  }

  /** An exception of the pass, through TriageAtrLookupInMavErrors and AssertNotNull. */
  function Failure(mavTriage: Cause -> Triaged, c: Cause): (r: MavResult)
    ensures r.MavFailed?
    ensures mavTriage(c).toThrow.Some? ==> r.error == mavTriage(c).toThrow.value
  {
    var t := mavTriage(c);
    MavFailed(AssertNotNull(t.toThrow, t.ec, c))
  }

  /** A pass ends with a result, or finds the writer's entry missing and looks again. */
  datatype Verdict = Settled(result: MavResult) | LookAgain(writer: string)

  /** The decision for a found document, given the entry resolution and the remembered writer. */
  function Decide(ownAttemptId: string, d: Doc, resolve: Option<string>, atr: AtrReply, mavTriage: Cause -> Triaged): Verdict
  {
    if !HasWriter(d) then
      Settled(if d.isDeleted then Empty else PreTransaction(d))
    else if resolve == Some(WriterOf(d)) then
      Settled(if d.isDeleted then Empty else PostTransaction(d))
    else match atr
      case CollectionMissing => Settled(Failure(mavTriage, AtrNotFound))
      case CollectionFailed(c) => Settled(Failure(mavTriage, c))
      case EntryMissing => LookAgain(WriterOf(d))
      case EntryFailed(c) => Settled(Failure(mavTriage, c))
      case EntryFound(state, _) =>
        if WriterOf(d) == ownAttemptId || state == COMMITTED || state == COMPLETED then
          Settled(if OpTypeOf(d) == Some("remove") then Empty else PostTransaction(d))
        else
          Settled(if d.isDeleted || OpTypeOf(d) == Some("insert") then Empty else PreTransaction(d))
  }

  /** One pass with a null lookup meaning "no document". */
  function RoundVerdict(ownAttemptId: string, round: MavRound, resolve: Option<string>, mavTriage: Cause -> Triaged): (v: Verdict)
    ensures round.doc.DocAbsent? ==> v == Settled(Empty)
    ensures round.doc.DocFailed? ==> v == Settled(Failure(mavTriage, round.doc.c))
    ensures v.LookAgain? ==>
      (round.doc.DocFound? && round.atr.EntryMissing? && HasWriter(round.doc.doc)
       && v.writer == WriterOf(round.doc.doc) && resolve != Some(v.writer))
  {
    match round.doc
    case DocAbsent => Settled(Empty)
    case DocFailed(c) => Settled(Failure(mavTriage, c))
    case DocFound(d) => Decide(ownAttemptId, d, resolve, round.atr, mavTriage)
  }

  /**
   * One pass as written: the lookup result's CAS is read for the debug log
   * before the null check, so a null lookup raises a NullReferenceException,
   * which the catch-all turns into a classified error.
   */
  function RoundVerdictAsWritten(ownAttemptId: string, round: MavRound, resolve: Option<string>, mavTriage: Cause -> Triaged): (v: Verdict)
    ensures round.doc.DocAbsent? ==> v == Settled(Failure(mavTriage, NullReference))
    ensures !round.doc.DocAbsent? ==> v == RoundVerdict(ownAttemptId, round, resolve, mavTriage)
  {
    if round.doc.DocAbsent? then Settled(Failure(mavTriage, NullReference))
    else RoundVerdict(ownAttemptId, round, resolve, mavTriage)
  }

  /** As written, a null lookup never reads as "no document", whatever the triage answers. */
  lemma AsWrittenNullLookupFails(ownAttemptId: string, atr: AtrReply, resolve: Option<string>, mavTriage: Cause -> Triaged)
    ensures RoundVerdictAsWritten(ownAttemptId, MavRound(DocAbsent, atr), resolve, mavTriage).result.MavFailed?
    ensures RoundVerdict(ownAttemptId, MavRound(DocAbsent, atr), resolve, mavTriage) == Settled(Empty)
  {
  }

  /**
   * The read: each pass that finds the writer's ATR entry missing is
   * followed by another with that writer remembered (`resolveMissingAtrEntry`).
   */
  function GetWithMav(ownAttemptId: string, rounds: seq<MavRound>, resolve: Option<string>, mavTriage: Cause -> Triaged): (r: MavResult)
    ensures rounds == [] ==> r == NoMoreReplies
    ensures rounds != [] && RoundVerdict(ownAttemptId, rounds[0], resolve, mavTriage).Settled? ==>
      r == RoundVerdict(ownAttemptId, rounds[0], resolve, mavTriage).result
    ensures rounds != [] && RoundVerdict(ownAttemptId, rounds[0], resolve, mavTriage).LookAgain? ==>
      r == GetWithMav(ownAttemptId, rounds[1..], Some(RoundVerdict(ownAttemptId, rounds[0], resolve, mavTriage).writer), mavTriage)
    decreases |rounds|
  {
    if rounds == [] then NoMoreReplies
    else match RoundVerdict(ownAttemptId, rounds[0], resolve, mavTriage)
      case Settled(result) => result
      case LookAgain(writer) => GetWithMav(ownAttemptId, rounds[1..], Some(writer), mavTriage)
  }

  /** A document outside any transaction reads as its committed content, or as nothing for a tombstone. */
  lemma NoWriterReadsCommitted(ownAttemptId: string, d: Doc, atr: AtrReply, rest: seq<MavRound>,
                               resolve: Option<string>, mavTriage: Cause -> Triaged)
    requires !HasWriter(d)
    ensures GetWithMav(ownAttemptId, [MavRound(DocFound(d), atr)] + rest, resolve, mavTriage)
      == if d.isDeleted then Empty else PreTransaction(d)
  {
  }

  /**
   * A document staged by another attempt whose entry is COMMITTED or
   * COMPLETED reads as its staged content, or as nothing for a staged remove.
   */
  lemma CommittedWriterReadsStaged(ownAttemptId: string, d: Doc, state: AttemptState, expired: bool, rest: seq<MavRound>,
                                   resolve: Option<string>, mavTriage: Cause -> Triaged)
    requires HasWriter(d) && resolve != Some(WriterOf(d))
    requires state == COMMITTED || state == COMPLETED
    ensures GetWithMav(ownAttemptId, [MavRound(DocFound(d), EntryFound(state, expired))] + rest, resolve, mavTriage)
      == if OpTypeOf(d) == Some("remove") then Empty else PostTransaction(d)
  {
  }

  /**
   * A document staged by another attempt that has not committed reads as
   * its committed content, or as nothing for a tombstone or a staged insert.
   */
  lemma UncommittedWriterReadsCommitted(ownAttemptId: string, d: Doc, state: AttemptState, expired: bool, rest: seq<MavRound>,
                                        resolve: Option<string>, mavTriage: Cause -> Triaged)
    requires HasWriter(d) && resolve != Some(WriterOf(d)) && WriterOf(d) != ownAttemptId
    requires state != COMMITTED && state != COMPLETED
    ensures GetWithMav(ownAttemptId, [MavRound(DocFound(d), EntryFound(state, expired))] + rest, resolve, mavTriage)
      == if d.isDeleted || OpTypeOf(d) == Some("insert") then Empty else PreTransaction(d)
  {
  }

  /** The attempt's own staged write reads as staged, whatever its entry's state. */
  lemma OwnWriteReadsStaged(ownAttemptId: string, d: Doc, state: AttemptState, expired: bool, rest: seq<MavRound>,
                            resolve: Option<string>, mavTriage: Cause -> Triaged)
    requires HasWriter(d) && resolve != Some(WriterOf(d)) && WriterOf(d) == ownAttemptId
    ensures GetWithMav(ownAttemptId, [MavRound(DocFound(d), EntryFound(state, expired))] + rest, resolve, mavTriage)
      == if OpTypeOf(d) == Some("remove") then Empty else PostTransaction(d)
  {
  }

  /**
   * A missing entry is looked up once more; when the second lookup finds the
   * same writer, the read returns the staged content (nothing for a tombstone)
   * without resolving the ATR again.
   */
  lemma MissingEntrySecondSightingReadsStaged(ownAttemptId: string, d: Doc, d2: Doc, atr2: AtrReply,
                                              rest: seq<MavRound>, resolve: Option<string>, mavTriage: Cause -> Triaged)
    requires HasWriter(d) && resolve != Some(WriterOf(d))
    requires HasWriter(d2) && WriterOf(d2) == WriterOf(d)
    ensures GetWithMav(ownAttemptId, [MavRound(DocFound(d), EntryMissing), MavRound(DocFound(d2), atr2)] + rest, resolve, mavTriage)
      == if d2.isDeleted then Empty else PostTransaction(d2)
  {
    var rounds := [MavRound(DocFound(d), EntryMissing), MavRound(DocFound(d2), atr2)] + rest;
    assert rounds[1..] == [MavRound(DocFound(d2), atr2)] + rest;
  }

  /** The read stays unresolved only when every pass found a writer whose entry was missing. */
  lemma {:induction false} UnresolvedOnlyByMissingEntries(ownAttemptId: string, rounds: seq<MavRound>,
                                                          resolve: Option<string>, mavTriage: Cause -> Triaged)
    requires GetWithMav(ownAttemptId, rounds, resolve, mavTriage) == NoMoreReplies
    ensures forall i | 0 <= i < |rounds| :: rounds[i].doc.DocFound? && rounds[i].atr == EntryMissing
    decreases |rounds|
  {
    if rounds != [] {
      var v := RoundVerdict(ownAttemptId, rounds[0], resolve, mavTriage);
      assert v.LookAgain?;
      UnresolvedOnlyByMissingEntries(ownAttemptId, rounds[1..], Some(v.writer), mavTriage);
      assert forall i | 1 <= i < |rounds| :: rounds[i] == rounds[1..][i - 1];
    }
  }

  /** A read that returns content returns a document one of the passes found. */
  lemma {:induction false} ResultFromSomePass(ownAttemptId: string, rounds: seq<MavRound>,
                                              resolve: Option<string>, mavTriage: Cause -> Triaged)
    requires GetWithMav(ownAttemptId, rounds, resolve, mavTriage).PreTransaction?
      || GetWithMav(ownAttemptId, rounds, resolve, mavTriage).PostTransaction?
    ensures exists i | 0 <= i < |rounds| :: rounds[i].doc == DocFound(GetWithMav(ownAttemptId, rounds, resolve, mavTriage).doc)
    decreases |rounds|
  {
    var r := GetWithMav(ownAttemptId, rounds, resolve, mavTriage);
    var v := RoundVerdict(ownAttemptId, rounds[0], resolve, mavTriage);
    if v.Settled? {
      assert rounds[0].doc == DocFound(r.doc);
    } else {
      ResultFromSomePass(ownAttemptId, rounds[1..], Some(v.writer), mavTriage);
      var i :| 0 <= i < |rounds[1..]| && rounds[1..][i].doc == DocFound(r.doc);
      assert rounds[i + 1] == rounds[1..][i];
    }
  }
}

/** TransactionXattrs: the transaction metadata staged on a document. */
module Xattrs {
  import opened Errors

  datatype CompositeId = CompositeId(transactionId: Option<string>, attemptId: Option<string>)

  /** Where the attempt's ATR entry lives. */
  datatype AtrRef = AtrRef(
    id: Option<string>,
    bucketName: Option<string>,
    scopeName: Option<string>,
    collectionName: Option<string>)

  /** The staged operation; its type is "insert", "replace" or "remove". */
  datatype StagedOperation = StagedOperation(opType: Option<string>)

  /** The pre-transaction metadata kept for restoring a document; opaque here. */
  datatype DocumentMetadata = DocumentMetadata(raw: string)

  datatype TransactionXattrs = TransactionXattrs(
    id: Option<CompositeId>,
    atrRef: Option<AtrRef>,
    operation: Option<StagedOperation>,
    restoreMetadata: Option<DocumentMetadata>,
    forwardCompatibility: Option<string>)

  function AttemptIdOf(x: TransactionXattrs): Option<string>
  {
    if x.id.Some? then x.id.value.attemptId else None
  }

  function TransactionIdOf(x: TransactionXattrs): Option<string>
  {
    if x.id.Some? then x.id.value.transactionId else None
  }

  function AtrIdOf(x: TransactionXattrs): Option<string>
  {
    if x.atrRef.Some? then x.atrRef.value.id else None
  }

  function AtrBucketOf(x: TransactionXattrs): Option<string>
  {
    if x.atrRef.Some? then x.atrRef.value.bucketName else None
  }

  function AtrCollectionOf(x: TransactionXattrs): Option<string>
  {
    if x.atrRef.Some? then x.atrRef.value.collectionName else None
  }

  const InvalidMetadata := Described("Transaction metadata was in invalid state.")

  /**
   * ValidateMinimum: the exception thrown, or None when the metadata names
   * its attempt, its transaction and its ATR entry.
   */
  function ValidateMinimum(x: TransactionXattrs): (thrown: Option<Cause>)
    ensures x.id.None? || x.id.value.attemptId.None? ==> thrown == Some(InvalidMetadata)
    ensures x.id.Some? && x.id.value.transactionId.None? ==> thrown == Some(InvalidMetadata)
    ensures x.atrRef.None? || x.atrRef.value.id.None? ==> thrown == Some(InvalidMetadata)
    ensures x.atrRef.Some? && (x.atrRef.value.bucketName.None? || x.atrRef.value.collectionName.None?) ==>
      thrown == Some(InvalidMetadata)
    ensures thrown.None? <==>
      x.id.Some? && x.id.value.attemptId.Some? && x.id.value.transactionId.Some?
      && x.atrRef.Some? && x.atrRef.value.id.Some? && x.atrRef.value.bucketName.Some?
      && x.atrRef.value.collectionName.Some?
    ensures thrown.Some? ==> thrown.value == InvalidMetadata
  {
    if AttemptIdOf(x).None?
      || TransactionIdOf(x).None?
      || AtrIdOf(x).None?
      || AtrBucketOf(x).None?
      || AtrCollectionOf(x).None?
    then Some(InvalidMetadata)
    else None
  }

  /** The verdict ignores the staged operation, restore data, forward compatibility and ATR scope. */
  lemma ValidateMinimumIgnoresOtherFields(x: TransactionXattrs, op: Option<StagedOperation>,
                                          restore: Option<DocumentMetadata>, fc: Option<string>, scope: Option<string>)
    ensures ValidateMinimum(x.(operation := op, restoreMetadata := restore, forwardCompatibility := fc))
         == ValidateMinimum(x)
    ensures x.atrRef.Some? ==> ValidateMinimum(x.(atrRef := Some(x.atrRef.value.(scopeName := scope)))) == ValidateMinimum(x)
  {
  }
}

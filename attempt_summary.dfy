/** TransactionAttempt: the record of one finished attempt handed to the application. */
module AttemptSummary {
  import opened Errors
  import opened States
  import opened Text

  datatype Bucket = Bucket(name: string)
  datatype Scope = Scope(name: string, bucket: Option<Bucket>)
  datatype Collection = Collection(name: string, scope: Option<Scope>)

  /** A mutation token of the storage layer; opaque here. */
  datatype MutationToken = MutationToken(id: nat)

  /** How many characters of the attempt id the text shows. */
  const LogDeferCharsToLog := 5

  function OrNone(o: Option<string>): string
  {
    if o.Some? then o.value else "<none>"
  }

  class TransactionAttempt {
    var atrCollection: Option<Collection>
    var atrId: Option<string>
    var finalState: AttemptState
    var attemptId: string
    var stagedInsertedIds: seq<string>
    var stagedReplaceIds: seq<string>
    var stagedRemoveIds: seq<string>
    var terminatedByException: Option<Cause>
    var mutationTokens: seq<MutationToken>

    /** The property defaults; the default FinalState is supplied by the caller. */
    constructor (state: AttemptState)
      ensures attemptId == "" && atrCollection.None? && atrId.None? && finalState == state
      ensures stagedInsertedIds == [] && stagedReplaceIds == [] && stagedRemoveIds == []
      ensures terminatedByException.None? && mutationTokens == []
    {
      atrCollection := None;
      atrId := None;
      finalState := state;
      attemptId := "";
      stagedInsertedIds := [];
      stagedReplaceIds := [];
      stagedRemoveIds := [];
      terminatedByException := None;
      mutationTokens := [];
    }

    function AtrCollectionName(): (name: Option<string>)
      reads this
      ensures name.Some? <==> atrCollection.Some?
      ensures name.Some? ==> name.value == atrCollection.value.name
    {
      if atrCollection.Some? then Some(atrCollection.value.name) else None
    }

    function AtrScopeName(): (name: Option<string>)
      reads this
      ensures name.Some? <==> atrCollection.Some? && atrCollection.value.scope.Some?
      ensures name.Some? ==> name.value == atrCollection.value.scope.value.name
    {
      if atrCollection.Some? && atrCollection.value.scope.Some?
      then Some(atrCollection.value.scope.value.name)
      else None
    }

    function AtrBucketName(): (name: Option<string>)
      reads this
      ensures name.Some? <==>
        atrCollection.Some? && atrCollection.value.scope.Some? && atrCollection.value.scope.value.bucket.Some?
      ensures name.Some? ==> name.value == atrCollection.value.scope.value.bucket.value.name
    {
      if atrCollection.Some? && atrCollection.value.scope.Some? && atrCollection.value.scope.value.bucket.Some?
      then Some(atrCollection.value.scope.value.bucket.value.name)
      else None
    }

    /**
     * The one-line description, appended piece by piece. `safeSubstring` is
     * the string helper that shortens the attempt id; it is not modelled.
     */
    method ToString(safeSubstring: (string, int) -> string) returns (text: string)
      ensures text == Describe(safeSubstring(attemptId, LogDeferCharsToLog), finalState, AtrCollectionName(), atrId)
    {
      var idPart := "TransactionAttempt" + "{id=" + safeSubstring(attemptId, LogDeferCharsToLog);
      var statePart := ",state=" + StateName(finalState);
      var collPart := ",atrColl=" + (if atrCollection.Some? then atrCollection.value.name else "<none>");
      var atrIdPart := "/atrId=" + (if atrId.Some? then atrId.value else "<none>");
      var sb := idPart;
      sb := sb + statePart;
      sb := sb + collPart;
      sb := sb + atrIdPart;
      sb := sb + "}";
      text := sb;
    }
  }

  /** The text of a TransactionAttempt, from its shortened id and its other properties. */
  function Describe(shortId: string, state: AttemptState, atrCollectionName: Option<string>, atrId: Option<string>): string
  {
    "TransactionAttempt" + "{id=" + shortId
      + ",state=" + StateName(state)
      + ",atrColl=" + OrNone(atrCollectionName)
      + "/atrId=" + OrNone(atrId)
      + "}"
  }

  const Opening := "TransactionAttempt" + "{id="

  /** The ten pieces Describe joins, in order. */
  function Parts(shortId: string, state: AttemptState, coll: Option<string>, atrId: Option<string>): (ps: seq<string>)
    ensures |ps| == 10
    ensures Describe(shortId, state, coll, atrId) == ps[0] + ps[1] + ps[2] + ps[3] + ps[4] + ps[5] + ps[6] + ps[7] + ps[8] + ps[9]
  {
    ["TransactionAttempt", "{id=", shortId, ",state=", StateName(state), ",atrColl=", OrNone(coll), "/atrId=", OrNone(atrId), "}"]
  }

  /** Ten joined pieces, grouped as the lemmas below need them. */
  lemma Regroup(a: string, b: string, c: string, d: string, e: string, f: string, g: string, h: string, i: string, j: string)
    ensures a + b + c + d + e + f + g + h + i + j == (a + b) + (c + d + e + f + g + h + i) + j
    ensures a + b + c + d + e + f + g + h + i + j == (a + b + c) + (d + e + f) + (g + h + i + j)
    ensures a + b + c + d + e + f + g + h + i + j == (a + b + c + d + e) + (f + g + h) + (i + j)
    ensures a + b + c + d + e + f + g + h + i + j == (a + b + c + d + e + f + g) + (h + i + j) + []
  {
  }

  /** The text is framed by "TransactionAttempt{id=" and "}". */
  lemma DescribeFrame(shortId: string, state: AttemptState, coll: Option<string>, atrId: Option<string>)
    ensures |Describe(shortId, state, coll, atrId)| > |Opening|
    ensures Describe(shortId, state, coll, atrId)[..|Opening|] == Opening
    ensures Describe(shortId, state, coll, atrId)[|Describe(shortId, state, coll, atrId)| - 1] == '}'
  {
    var ps := Parts(shortId, state, coll, atrId);
    Regroup(ps[0], ps[1], ps[2], ps[3], ps[4], ps[5], ps[6], ps[7], ps[8], ps[9]);
  }

  /** The final state is named right after ",state=". */
  lemma DescribeNamesState(shortId: string, state: AttemptState, coll: Option<string>, atrId: Option<string>)
    ensures Occurs(Describe(shortId, state, coll, atrId), ",state=" + StateName(state) + ",atrColl=")
  {
    var ps := Parts(shortId, state, coll, atrId);
    Regroup(ps[0], ps[1], ps[2], ps[3], ps[4], ps[5], ps[6], ps[7], ps[8], ps[9]);
    OccursIn(ps[0] + ps[1] + ps[2], ps[3] + ps[4] + ps[5], ps[6] + ps[7] + ps[8] + ps[9]);
  }

  /** A missing ATR collection is shown as "<none>". */
  lemma DescribeNoCollection(shortId: string, state: AttemptState, atrId: Option<string>)
    ensures Occurs(Describe(shortId, state, None, atrId), ",atrColl=" + "<none>" + "/atrId=")
  {
    var ps := Parts(shortId, state, None, atrId);
    Regroup(ps[0], ps[1], ps[2], ps[3], ps[4], ps[5], ps[6], ps[7], ps[8], ps[9]);
    OccursIn(ps[0] + ps[1] + ps[2] + ps[3] + ps[4], ps[5] + ps[6] + ps[7], ps[8] + ps[9]);
  }

  /** A missing ATR id is shown as "<none>". */
  lemma DescribeNoAtrId(shortId: string, state: AttemptState, coll: Option<string>)
    ensures Occurs(Describe(shortId, state, coll, None), "/atrId=" + "<none>" + "}")
  {
    var ps := Parts(shortId, state, coll, None);
    Regroup(ps[0], ps[1], ps[2], ps[3], ps[4], ps[5], ps[6], ps[7], ps[8], ps[9]);
    OccursIn(ps[0] + ps[1] + ps[2] + ps[3] + ps[4] + ps[5] + ps[6], ps[7] + ps[8] + ps[9], []);
  }
}

/**
 * The attempt's staged-mutation ledger (`_stagedMutations`) and the pure
 * reads over it: FindStaged, the Insert/Replace/Remove views, and the ledger
 * each staging step leaves.
 */
module Ledger {
  import opened Errors
  import opened Xattrs

  /** A document's fully qualified identity: bucket, scope, collection and key. */
  datatype DocKey = DocKey(bucket: string, scope: string, collection: string, id: string)

  /** TransactionGetResult, as far as the coordinator reads it. */
  datatype Doc = Doc(key: DocKey, cas: nat, isDeleted: bool, txn: Option<TransactionXattrs>)

  datatype MutationType = Insert | Replace | Remove

  /** A staged body; a staged remove carries the remove keyword instead of a body. */
  datatype Content = Body(json: string) | RemoveKeyword

  datatype StagedMutation = StagedMutation(doc: Doc, content: Content, kind: MutationType)

  type Mutations = seq<StagedMutation>

  /** `List.Find`: the first entry staged for the document. */
  function FindStaged(ledger: Mutations, key: DocKey): (r: Option<StagedMutation>)
    ensures r.None? <==> forall i | 0 <= i < |ledger| :: ledger[i].doc.key != key
    ensures r.Some? ==> exists i | 0 <= i < |ledger| ::
      (ledger[i] == r.value && forall j | 0 <= j < i :: ledger[j].doc.key != key)
    ensures r.Some? ==> r.value.doc.key == key
    decreases |ledger|
  {
    if ledger == [] then None
    else if ledger[0].doc.key == key then Some(ledger[0])
    else
      var rest := FindStaged(ledger[1..], key);
      assert forall i | 1 <= i < |ledger| :: ledger[i] == ledger[1..][i - 1];
      rest
  }

  /** `_stagedMutations.Where(sm => sm.Type == kind)`: the entries of one kind, in order. */
  function OfKind(ledger: Mutations, kind: MutationType): (r: Mutations)
    ensures |r| <= |ledger|
    ensures forall m :: m in r <==> m in ledger && m.kind == kind
    decreases |ledger|
  {
    if ledger == [] then []
    else if ledger[0].kind == kind then [ledger[0]] + OfKind(ledger[1..], kind)
    else OfKind(ledger[1..], kind)
  }

  function StagedInserts(ledger: Mutations): Mutations { OfKind(ledger, Insert) }
  function StagedReplaces(ledger: Mutations): Mutations { OfKind(ledger, Replace) }
  function StagedRemoves(ledger: Mutations): Mutations { OfKind(ledger, Remove) }

  /**
   * `Where` is an order-preserving filter: the entries of one kind of a
   * joined ledger are those of the first part followed by those of the
   * second, and a single entry is kept exactly when it has that kind.
   */
  lemma {:induction false} OfKindAppend(a: Mutations, b: Mutations, kind: MutationType)
    ensures OfKind(a + b, kind) == OfKind(a, kind) + OfKind(b, kind)
    ensures forall m: StagedMutation :: OfKind([m], kind) == (if m.kind == kind then [m] else [])
    decreases |a|
  {
    forall m: StagedMutation
      ensures OfKind([m], kind) == (if m.kind == kind then [m] else [])
    {
      assert [m][1..] == [];
    }
    if a == [] {
      assert a + b == b;
    } else {
      assert (a + b)[0] == a[0];
      assert (a + b)[1..] == a[1..] + b;
      OfKindAppend(a[1..], b, kind);
    }
  }

  /**
   * The three views split the ledger: together they hold every entry
   * exactly as often as the ledger does, and their lengths add up.
   */
  lemma {:induction false} ViewsPartition(ledger: Mutations)
    ensures multiset(StagedInserts(ledger)) + multiset(StagedReplaces(ledger)) + multiset(StagedRemoves(ledger))
      == multiset(ledger)
    ensures |StagedInserts(ledger)| + |StagedReplaces(ledger)| + |StagedRemoves(ledger)| == |ledger|
    decreases |ledger|
  {
    if ledger != [] {
      ViewsPartition(ledger[1..]);
      assert ledger == [ledger[0]] + ledger[1..];
      assert multiset(ledger) == multiset([ledger[0]]) + multiset(ledger[1..]);
    }
  }

  /** The invariant the staging rules keep: at most one entry per document. */
  predicate OnePerDoc(ledger: Mutations)
  {
    forall i, j | 0 <= i < |ledger| && 0 <= j < |ledger| :: ledger[i].doc.key == ledger[j].doc.key ==> i == j
  }

  /** Some entry is staged for the document (`Any(sm => sm.Doc.FullyQualifiedId == ...)`). */
  predicate IsStaged(ledger: Mutations, key: DocKey)
  {
    exists i | 0 <= i < |ledger| :: ledger[i].doc.key == key
  }

  /** The document is staged as an insert (the guard of RemoveWithKv). */
  predicate StagedAsInsert(ledger: Mutations, key: DocKey)
  {
    exists i | 0 <= i < |ledger| :: ledger[i].doc.key == key && ledger[i].kind == Insert
  }

  /** `List.Remove`: drops the first entry equal to `m`. */
  function RemoveFirst(ledger: Mutations, m: StagedMutation): (r: Mutations)
    ensures m in ledger ==> |r| == |ledger| - 1
    ensures m !in ledger ==> r == ledger
    ensures forall x :: x in r ==> x in ledger
    decreases |ledger|
  {
    if ledger == [] then []
    else if ledger[0] == m then ledger[1..]
    else [ledger[0]] + RemoveFirst(ledger[1..], m)
  }

  /** Dropping the one entry of a document keeps every other entry, in order. */
  lemma {:induction false} RemoveFirstOthers(ledger: Mutations, m: StagedMutation)
    requires OnePerDoc(ledger)
    ensures OnePerDoc(RemoveFirst(ledger, m))
    ensures m in ledger ==> forall x :: x in RemoveFirst(ledger, m) <==> x in ledger && x.doc.key != m.doc.key
    ensures m in ledger ==> forall x :: x in RemoveFirst(ledger, m) ==> x.doc.key != m.doc.key
    decreases |ledger|
  {
    if ledger != [] && ledger[0] != m {
      var tail := ledger[1..];
      assert forall i | 0 <= i < |tail| :: tail[i] == ledger[i + 1];
      assert OnePerDoc(tail);
      RemoveFirstOthers(tail, m);
      var r := RemoveFirst(ledger, m);
      assert r == [ledger[0]] + RemoveFirst(tail, m);
      forall x | x in RemoveFirst(tail, m)
        ensures x.doc.key != ledger[0].doc.key
      {
        var i :| 0 <= i < |tail| && tail[i] == x;
        assert ledger[i + 1] == x;
      }
      forall i, j | 0 <= i < |r| && 0 <= j < |r| && r[i].doc.key == r[j].doc.key
        ensures i == j
      {
        if i > 0 && j > 0 {
          assert r[i] == RemoveFirst(tail, m)[i - 1];
          assert r[j] == RemoveFirst(tail, m)[j - 1];
        }
      }
      if m in ledger {
        assert m in tail;
      }
    } else if ledger != [] {
      var tail := ledger[1..];
      forall x | x in tail
        ensures x.doc.key != m.doc.key
      {
        var i :| 0 <= i < |tail| && tail[i] == x;
        assert ledger[i + 1] == x;
      }
      forall i, j | 0 <= i < |tail| && 0 <= j < |tail| && tail[i].doc.key == tail[j].doc.key
        ensures i == j
      {
        assert ledger[i + 1] == tail[i] && ledger[j + 1] == tail[j];
      }
    }
  }

  /**
   * CreateStagedReplace's ledger update: drop the entry already staged for
   * the document, if any, and add one for this replace — an Insert when the
   * dropped entry was an Insert, otherwise a Replace.
   */
  function StageReplace(ledger: Mutations, doc: Doc, content: Content): (r: Mutations)
    ensures |r| > 0 && r[|r| - 1].doc == doc && r[|r| - 1].content == content
    ensures !IsStaged(ledger, doc.key) ==> r == ledger + [StagedMutation(doc, content, Replace)]
  {
    var stagedOld := FindStaged(ledger, doc.key);
    var without := if stagedOld.Some? then RemoveFirst(ledger, stagedOld.value) else ledger;
    if stagedOld.Some? && stagedOld.value.kind == Insert then
      without + [StagedMutation(doc, content, Insert)]
    else
      without + [StagedMutation(doc, content, Replace)]
  }

  /** Under the invariant, the entry staged for a document is its only one. */
  lemma FindStagedUnique(ledger: Mutations, key: DocKey, i: int)
    requires OnePerDoc(ledger)
    requires 0 <= i < |ledger| && ledger[i].doc.key == key
    ensures FindStaged(ledger, key) == Some(ledger[i])
  {
  }

  /**
   * A staged replace keeps the invariant, leaves exactly one entry for the
   * document (Insert when it was staged as Insert, otherwise Replace),
   * leaves every other document's entry alone and grows the ledger by one
   * only when the document was not staged before.
   */
  lemma StageReplaceEffect(ledger: Mutations, doc: Doc, content: Content)
    requires OnePerDoc(ledger)
    ensures OnePerDoc(StageReplace(ledger, doc, content))
    ensures FindStaged(StageReplace(ledger, doc, content), doc.key)
      == Some(StagedMutation(doc, content, if StagedAsInsert(ledger, doc.key) then Insert else Replace))
    ensures forall k | k != doc.key :: FindStaged(StageReplace(ledger, doc, content), k) == FindStaged(ledger, k)
    ensures |StageReplace(ledger, doc, content)| == |ledger| + (if IsStaged(ledger, doc.key) then 0 else 1)
  {
    var r := StageReplace(ledger, doc, content);
    var stagedOld := FindStaged(ledger, doc.key);
    var without := if stagedOld.Some? then RemoveFirst(ledger, stagedOld.value) else ledger;
    var entry := r[|r| - 1];
    assert r == without + [entry];
    if stagedOld.Some? {
      RemoveFirstOthers(ledger, stagedOld.value);
      var i :| 0 <= i < |ledger| && ledger[i] == stagedOld.value;
      assert StagedAsInsert(ledger, doc.key) <==> stagedOld.value.kind == Insert by {
        if StagedAsInsert(ledger, doc.key) {
          var j :| 0 <= j < |ledger| && ledger[j].doc.key == doc.key && ledger[j].kind == Insert;
          assert i == j;
        }
      }
    } else {
      assert !StagedAsInsert(ledger, doc.key);
    }
    AppendFresh(without, entry);
    forall k | k != doc.key
      ensures FindStaged(r, k) == FindStaged(ledger, k)
    {
      KeysKept(ledger, without, entry, k);
    }
  }

  /** Appending an entry for a document the ledger does not hold keeps the invariant and finds it. */
  lemma AppendFresh(ledger: Mutations, m: StagedMutation)
    requires OnePerDoc(ledger)
    requires forall x :: x in ledger ==> x.doc.key != m.doc.key
    ensures OnePerDoc(ledger + [m])
    ensures FindStaged(ledger + [m], m.doc.key) == Some(m)
  {
    var r := ledger + [m];
    forall i, j | 0 <= i < |r| && 0 <= j < |r| && r[i].doc.key == r[j].doc.key
      ensures i == j
    {
      if i < |ledger| && j < |ledger| {
        assert ledger[i].doc.key == ledger[j].doc.key;
      }
    }
    assert r[|ledger|] == m;
    FindStagedUnique(r, m.doc.key, |ledger|);
  }

  /** A document untouched by the update is found as before. */
  lemma KeysKept(ledger: Mutations, without: Mutations, entry: StagedMutation, k: DocKey)
    requires OnePerDoc(ledger) && OnePerDoc(without + [entry])
    requires k != entry.doc.key
    requires forall x :: x in without <==> x in ledger && x.doc.key != entry.doc.key
    ensures FindStaged(without + [entry], k) == FindStaged(ledger, k)
  {
    var r := without + [entry];
    if IsStaged(ledger, k) {
      var i :| 0 <= i < |ledger| && ledger[i].doc.key == k;
      assert ledger[i] in without;
      var j :| 0 <= j < |without| && without[j] == ledger[i];
      assert r[j] == ledger[i];
      FindStagedUnique(ledger, k, i);
      FindStagedUnique(r, k, j);
    } else {
      forall i | 0 <= i < |r|
        ensures r[i].doc.key != k
      {
        if i < |without| {
          assert without[i] in without;
        }
      }
    }
  }

  /** CreateStagedInsert's ledger update: the insert entry is appended (AttemptContext.cs:640). */
  function StageInsert(ledger: Mutations, doc: Doc, content: Content): Mutations
  {
    ledger + [StagedMutation(doc, content, Insert)]
  }

  /** A staged insert of a document not yet staged keeps the invariant and is found. */
  lemma StageInsertEffect(ledger: Mutations, doc: Doc, content: Content)
    requires OnePerDoc(ledger) && !IsStaged(ledger, doc.key)
    ensures OnePerDoc(StageInsert(ledger, doc, content))
    ensures FindStaged(StageInsert(ledger, doc, content), doc.key) == Some(StagedMutation(doc, content, Insert))
  {
    forall x | x in ledger
      ensures x.doc.key != doc.key
    {
      var i :| 0 <= i < |ledger| && ledger[i] == x;
    }
    AppendFresh(ledger, StagedMutation(doc, content, Insert));
  }

  /**
   * The guard of CreateStagedRemove as written: some entry with the same
   * document key (`sm.Doc.Id`), in any collection, is an Insert.
   */
  predicate InsertBlocksRemoveAsWritten(ledger: Mutations, doc: Doc)
  {
    exists i | 0 <= i < |ledger| :: ledger[i].doc.key.id == doc.key.id && ledger[i].kind == Insert
  }

  /** CreateStagedRemove's ledger update as written: the remove entry is appended. */
  function StageRemoveAsWritten(ledger: Mutations, doc: Doc): Mutations
  {
    ledger + [StagedMutation(doc, RemoveKeyword, Remove)]
  }

  /** The entries for other documents. */
  function WithoutDoc(ledger: Mutations, key: DocKey): (r: Mutations)
    ensures forall x :: x in r <==> x in ledger && x.doc.key != key
    decreases |ledger|
  {
    if ledger == [] then []
    else if ledger[0].doc.key == key then WithoutDoc(ledger[1..], key)
    else [ledger[0]] + WithoutDoc(ledger[1..], key)
  }

  /**
   * CreateStagedRemove's ledger update as intended: like a replace, the
   * remove overwrites the entry already staged for the document.
   */
  function StageRemove(ledger: Mutations, doc: Doc): (r: Mutations)
    ensures |r| > 0 && r[|r| - 1] == StagedMutation(doc, RemoveKeyword, Remove)
  {
    WithoutDoc(ledger, doc.key) + [StagedMutation(doc, RemoveKeyword, Remove)]
  }

  lemma {:induction false} WithoutDocKeeps(ledger: Mutations, key: DocKey)
    requires OnePerDoc(ledger)
    ensures OnePerDoc(WithoutDoc(ledger, key))
    decreases |ledger|
  {
    if ledger != [] {
      var tail := ledger[1..];
      assert forall i | 0 <= i < |tail| :: tail[i] == ledger[i + 1];
      WithoutDocKeeps(tail, key);
      if ledger[0].doc.key != key {
        var r := WithoutDoc(ledger, key);
        var rt := WithoutDoc(tail, key);
        assert r == [ledger[0]] + rt;
        forall x | x in rt
          ensures x.doc.key != ledger[0].doc.key
        {
          var i :| 0 <= i < |tail| && tail[i] == x;
          assert ledger[i + 1] == x;
        }
        forall i, j | 0 <= i < |r| && 0 <= j < |r| && r[i].doc.key == r[j].doc.key
          ensures i == j
        {
          if i > 0 && j > 0 {
            assert r[i] == rt[i - 1] && r[j] == rt[j - 1];
          }
        }
      }
    }
  }

  /**
   * The intended remove keeps the invariant, and a later lookup of the
   * document finds the remove.
   */
  lemma StageRemoveEffect(ledger: Mutations, doc: Doc)
    requires OnePerDoc(ledger)
    ensures OnePerDoc(StageRemove(ledger, doc))
    ensures FindStaged(StageRemove(ledger, doc), doc.key) == Some(StagedMutation(doc, RemoveKeyword, Remove))
    ensures forall k | k != doc.key :: FindStaged(StageRemove(ledger, doc), k) == FindStaged(ledger, k)
  {
    var entry := StagedMutation(doc, RemoveKeyword, Remove);
    var without := WithoutDoc(ledger, doc.key);
    WithoutDocKeeps(ledger, doc.key);
    AppendFresh(without, entry);
    forall k | k != doc.key
      ensures FindStaged(StageRemove(ledger, doc), k) == FindStaged(ledger, k)
    {
      KeysKept(ledger, without, entry, k);
    }
  }

  /** What a read of a staged document returns without asking storage. */
  datatype OwnWrite = NotStaged | StagedContent(doc: Doc, content: Content) | StagedRemoved

  /** Read-your-writes: the content of a staged insert or replace, nothing for a staged remove. */
  function ReadOwnWrite(ledger: Mutations, key: DocKey): (r: OwnWrite)
    ensures r.NotStaged? <==> !IsStaged(ledger, key)
    ensures r.StagedContent? ==>
      (FindStaged(ledger, key).Some? && FindStaged(ledger, key).value.kind != Remove
       && r.doc == FindStaged(ledger, key).value.doc && r.content == FindStaged(ledger, key).value.content)
    ensures r.StagedRemoved? <==> FindStaged(ledger, key).Some? && FindStaged(ledger, key).value.kind == Remove
  {
    var staged := FindStaged(ledger, key);
    if staged.None? then NotStaged
    else match staged.value.kind
      case Insert => StagedContent(staged.value.doc, staged.value.content)
      case Replace => StagedContent(staged.value.doc, staged.value.content)
      case Remove => StagedRemoved
  }

  /** A sample document in a given collection. */
  function SampleDoc(collection: string): Doc
  {
    Doc(DocKey("b", "s", collection, "k"), 1, false, None)
  }

  /**
   * As written, replace-then-remove of one document leaves both entries,
   * and a later read finds the replace's content instead of the remove.
   */
  lemma AsWrittenRemoveKeepsReplace()
    ensures var d := SampleDoc("c");
      var ledger := StageRemoveAsWritten(StageReplace([], d, Body("v")), d);
      |ledger| == 2 && !OnePerDoc(ledger) && ReadOwnWrite(ledger, d.key) == StagedContent(d, Body("v"))
  {
    var d := SampleDoc("c");
    var l1 := StageReplace([], d, Body("v"));
    assert l1 == [StagedMutation(d, Body("v"), Replace)];
    var ledger := StageRemoveAsWritten(l1, d);
    assert ledger[0].doc.key == ledger[1].doc.key;
  }

  /** With the intended update the same sequence reads the document as removed. */
  lemma RemoveAfterReplaceReadsRemoved(ledger: Mutations, d: Doc, content: Content)
    requires OnePerDoc(ledger)
    ensures OnePerDoc(StageRemove(StageReplace(ledger, d, content), d))
    ensures ReadOwnWrite(StageRemove(StageReplace(ledger, d, content), d), d.key) == StagedRemoved
  {
    StageReplaceEffect(ledger, d, content);
    StageRemoveEffect(StageReplace(ledger, d, content), d);
  }

  /**
   * As written, an insert of key "k" in one collection blocks the removal
   * of key "k" in another collection.
   */
  lemma AsWrittenGuardIgnoresCollection()
    ensures var ledger := StageInsert([], SampleDoc("c1"), Body("v"));
      InsertBlocksRemoveAsWritten(ledger, SampleDoc("c2")) && !StagedAsInsert(ledger, SampleDoc("c2").key)
  {
    var ledger := StageInsert([], SampleDoc("c1"), Body("v"));
    assert ledger[0].doc.key.id == SampleDoc("c2").key.id;
  }

  /** The intended guard looks at the fully qualified id: it blocks exactly a remove of a staged insert. */
  lemma GuardIsPerDocument(ledger: Mutations, key: DocKey)
    requires OnePerDoc(ledger)
    ensures StagedAsInsert(ledger, key) <==> FindStaged(ledger, key).Some? && FindStaged(ledger, key).value.kind == Insert
  {
    if StagedAsInsert(ledger, key) {
      var i :| 0 <= i < |ledger| && ledger[i].doc.key == key && ledger[i].kind == Insert;
      FindStagedUnique(ledger, key, i);
    }
  }
}

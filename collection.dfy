/**
 * The "friends" document collection as the facade uses it: a sequence of
 * documents in the store's natural (insertion) order.  Every filter the facade
 * passes is `{ email: e }`, so each operation is written for that filter and
 * acts on the first document whose `email` key equals `e`.
 */
module Collection {
  import opened Wrappers
  import opened Friends

  /** The identifier the store assigns to a new document (`_id`). */
  type ObjectId = nat

  /** A stored document: its `_id` and its keys. */
  datatype Document = Document(oid: ObjectId, body: Friend)

  /** The filter `{ email: e }` selects `d`. */
  predicate HasEmail(d: Document, e: string)
  {
    d.body.email == Some(e)
  }

  /** Some document matches `{ email: e }`. */
  predicate Contains(docs: seq<Document>, e: string)
  {
    exists j :: 0 <= j < |docs| && HasEmail(docs[j], e)
  }

  /** The position of the document `findOne({ email: e })` returns. */
  function FirstMatch(docs: seq<Document>, e: string): (r: Option<nat>)
    ensures r.None? <==> !Contains(docs, e)
    ensures r.Some? ==> r.value < |docs| && HasEmail(docs[r.value], e)
    ensures r.Some? ==> forall j :: 0 <= j < r.value ==> !HasEmail(docs[j], e)
  {
    if docs == [] then None
    else if HasEmail(docs[0], e) then Some(0)
    else
      match FirstMatch(docs[1..], e)
      case None =>
        assert forall j :: 1 <= j < |docs| ==> docs[j] == docs[1..][j - 1];
        None
      case Some(i) => Some(i + 1)
  }

  /** The number of documents that match `{ email: e }`. */
  function Count(docs: seq<Document>, e: string): nat
  {
    if docs == [] then 0
    else (if HasEmail(docs[0], e) then 1 else 0) + Count(docs[1..], e)
  }

  /** The `_id`s of a collection are pairwise distinct. */
  predicate DistinctIds(docs: seq<Document>)
  {
    forall i, j :: 0 <= i < j < |docs| ==> docs[i].oid != docs[j].oid
  }

  /** An `_id` above every `_id` in the collection. */
  function IdAbove(docs: seq<Document>): (r: ObjectId)
    ensures forall j :: 0 <= j < |docs| ==> docs[j].oid < r
  {
    if docs == [] then 0
    else
      var rest := IdAbove(docs[1..]);
      assert forall j :: 1 <= j < |docs| ==> docs[j] == docs[1..][j - 1];
      if docs[0].oid < rest then rest else docs[0].oid + 1
  }

  /**
   * The `$set` operator: every key present in `patch` overwrites the key of
   * `target`, and every other key of `target` is kept.
   */
  function SetFields(target: Friend, patch: Friend): (r: Friend)
    ensures forall k: Key :: r.Get(k) == if patch.Get(k).Some? then patch.Get(k) else target.Get(k)
  {
    Friend(
      if patch.id.Some? then patch.id else target.id,
      if patch.firstName.Some? then patch.firstName else target.firstName,
      if patch.lastName.Some? then patch.lastName else target.lastName,
      if patch.email.Some? then patch.email else target.email,
      if patch.password.Some? then patch.password else target.password,
      if patch.role.Some? then patch.role else target.role)
  }

  /** What `updateOne` reports. */
  datatype UpdateResult = UpdateResult(docs: seq<Document>, modifiedCount: nat, upsertedCount: nat)

  /**
   * `updateOne({ email: e }, { $set: patch }, { upsert: true })`.  When a
   * document matches, the first one has `patch` applied in place, keeps its
   * `_id` and position, and counts as modified only if its keys changed.
   * Otherwise one document is appended, built from the filter's equality
   * (`email: e`) with `patch` applied and carrying `freshId`; it counts as
   * upserted, not modified.
   */
  function UpdateOneUpsert(docs: seq<Document>, e: string, patch: Friend, freshId: ObjectId): (r: UpdateResult)
    ensures r.modifiedCount + r.upsertedCount <= 1
    ensures r.upsertedCount == 1 <==> !Contains(docs, e)
    ensures Contains(docs, e) ==>
      var i := FirstMatch(docs, e).value;
      && |r.docs| == |docs|
      && r.docs[i] == Document(docs[i].oid, SetFields(docs[i].body, patch))
      && (forall j :: 0 <= j < |docs| && j != i ==> r.docs[j] == docs[j])
      && (r.modifiedCount == 1 <==> r.docs[i] != docs[i])
    ensures !Contains(docs, e) ==>
      && r.modifiedCount == 0
      && r.docs == docs + [Document(freshId, SetFields(NoKeys.(email := Some(e)), patch))]
  {
    match FirstMatch(docs, e)
    case Some(i) =>
      var updated := Document(docs[i].oid, SetFields(docs[i].body, patch));
      UpdateResult(docs[i := updated], if updated != docs[i] then 1 else 0, 0)
    case None =>
      UpdateResult(docs + [Document(freshId, SetFields(NoKeys.(email := Some(e)), patch))], 0, 1)
  }

  /** What `deleteOne` reports. */
  datatype DeleteResult = DeleteResult(docs: seq<Document>, deletedCount: nat)

  /**
   * `deleteOne({ email: e })`: removes the first matching document, keeping the
   * order of the rest, and reports one deletion; with no match nothing changes.
   */
  function DeleteOne(docs: seq<Document>, e: string): (r: DeleteResult)
    ensures r.deletedCount == if Contains(docs, e) then 1 else 0
    ensures |r.docs| == |docs| - r.deletedCount
    ensures !Contains(docs, e) ==> r.docs == docs
    ensures Contains(docs, e) ==>
      var i := FirstMatch(docs, e).value;
      && (forall j :: 0 <= j < i ==> r.docs[j] == docs[j])
      && (forall j :: i <= j < |r.docs| ==> r.docs[j] == docs[j + 1])
  {
    match FirstMatch(docs, e)
    case Some(i) => DeleteResult(docs[..i] + docs[i + 1..], 1)
    case None => DeleteResult(docs, 0)
  }

  /** No document matches exactly when none is counted. */
  lemma {:induction false} CountZero(docs: seq<Document>, e: string)
    ensures Count(docs, e) == 0 <==> !Contains(docs, e)
  {
    if docs != [] {
      CountZero(docs[1..], e);
      if !HasEmail(docs[0], e) && Contains(docs, e) {
        var j :| 0 <= j < |docs| && HasEmail(docs[j], e);
        assert HasEmail(docs[1..][j - 1], e);
      }
    }
  }

  /** Counting distributes over concatenation. */
  lemma {:induction false} CountAppend(a: seq<Document>, b: seq<Document>, e: string)
    ensures Count(a + b, e) == Count(a, e) + Count(b, e)
  {
    if a == [] {
      assert a + b == b;
    } else {
      assert (a + b)[1..] == a[1..] + b;
      CountAppend(a[1..], b, e);
    }
  }

  /**
   * `deleteOne({ email: e })` removes exactly one document with email `e` when
   * there is one, and no document with any other email.
   */
  lemma DeleteOneCount(docs: seq<Document>, e: string, other: string)
    ensures Count(DeleteOne(docs, e).docs, other)
         == Count(docs, other) - (if Contains(docs, e) && other == e then 1 else 0)
  {
    if Contains(docs, e) {
      var i := FirstMatch(docs, e).value;
      assert docs == docs[..i] + ([docs[i]] + docs[i + 1..]);
      CountAppend(docs[..i], [docs[i]] + docs[i + 1..], other);
      CountAppend([docs[i]], docs[i + 1..], other);
      CountAppend(docs[..i], docs[i + 1..], other);
      assert Count([docs[i]], other) == if other == e then 1 else 0 by {
        assert [docs[i]][1..] == [];
      }
    }
  }

  /**
   * With exactly one document for `e`, a first `deleteOne` removes it and a
   * second one finds nothing: deleting reports true once per record.
   */
  lemma DeleteTwice(docs: seq<Document>, e: string)
    requires Count(docs, e) == 1
    ensures DeleteOne(docs, e).deletedCount == 1
    ensures DeleteOne(DeleteOne(docs, e).docs, e).deletedCount == 0
  {
    CountZero(docs, e);
    DeleteOneCount(docs, e, e);
    CountZero(DeleteOne(docs, e).docs, e);
  }

  /**
   * `findOne` after appending a document: an earlier match still wins, so a
   * document appended for an email already present is not the one found.
   */
  lemma FirstMatchAppend(docs: seq<Document>, d: Document, e: string)
    ensures FirstMatch(docs + [d], e) ==
      if Contains(docs, e) then FirstMatch(docs, e)
      else if HasEmail(d, e) then Some(|docs|)
      else None
  {
    var all := docs + [d];
    assert forall j :: 0 <= j < |docs| ==> all[j] == docs[j];
    if !Contains(docs, e) && HasEmail(d, e) {
      assert all[|docs|] == d;
    }
  }

  /**
   * After the upsert of a patch that keeps the lookup email, `findOne` for that
   * email returns a document carrying every key of the patch: the updated
   * document in its old position, or the inserted one at the end.
   */
  lemma UpsertThenFind(docs: seq<Document>, e: string, patch: Friend, freshId: ObjectId)
    requires patch.email == Some(e)
    ensures var u := UpdateOneUpsert(docs, e, patch, freshId);
      && FirstMatch(u.docs, e) == (if Contains(docs, e) then FirstMatch(docs, e) else Some(|docs|))
      && forall k: Key :: patch.Get(k).Some? ==> u.docs[FirstMatch(u.docs, e).value].body.Get(k) == patch.Get(k)
  {
    var u := UpdateOneUpsert(docs, e, patch, freshId);
    if Contains(docs, e) {
      var i := FirstMatch(docs, e).value;
      assert HasEmail(u.docs[i], e);
      assert forall j :: 0 <= j < i ==> !HasEmail(u.docs[j], e);
    } else {
      FirstMatchAppend(docs, Document(freshId, SetFields(NoKeys.(email := Some(e)), patch)), e);
    }
  }
}

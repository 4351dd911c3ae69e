/**
 * backend/app/services/annotation.py: saving an annotation record (one per
 * document and annotator), the document status derived from a document's
 * records, and the record queries.
 */
module AnnotationService {
  import opened Types
  import opened Strings
  import opened Store

  /** `get_document_annotations`: the records of one document, in store order. */
  function OfDocument(anns: seq<Annotation>, documentId: nat): (r: seq<Annotation>)
    ensures |r| <= |anns|
    ensures forall a :: a in r <==> a in anns && a.documentId == documentId
  {
    if anns == [] then []
    else if anns[0].documentId == documentId then [anns[0]] + OfDocument(anns[1..], documentId)
    else OfDocument(anns[1..], documentId)
  }

  /** One unfolding of `OfDocument` on a sequence with a given first element. */
  lemma OfDocumentCons(x: Annotation, s: seq<Annotation>, documentId: nat)
    ensures OfDocument([x] + s, documentId) == (if x.documentId == documentId then [x] else []) + OfDocument(s, documentId)
  {
    assert ([x] + s)[0] == x && ([x] + s)[1..] == s;
  }

  /** The records of a document keep their store order: filtering distributes over concatenation. */
  lemma {:induction false} OfDocumentInOrder(a: seq<Annotation>, b: seq<Annotation>, documentId: nat)
    ensures OfDocument(a + b, documentId) == OfDocument(a, documentId) + OfDocument(b, documentId)
    ensures |a| == 1 ==> OfDocument(a, documentId) == (if a[0].documentId == documentId then a else [])
  {
    if a == [] {
      assert a + b == b;
    } else {
      var t, h := a[1..], if a[0].documentId == documentId then [a[0]] else [];
      assert a == [a[0]] + t && a + b == [a[0]] + (t + b);
      calc {
        OfDocument(a + b, documentId);
      == { OfDocumentCons(a[0], t + b, documentId); }
        h + OfDocument(t + b, documentId);
      == { OfDocumentInOrder(t, b, documentId); }
        h + (OfDocument(t, documentId) + OfDocument(b, documentId));
      == { AppendAssoc(h, OfDocument(t, documentId), OfDocument(b, documentId)); }
        (h + OfDocument(t, documentId)) + OfDocument(b, documentId);
      == { OfDocumentCons(a[0], t, documentId); }
        OfDocument(a, documentId) + OfDocument(b, documentId);
      }
      if |a| == 1 {
        assert t == [];
      }
    }
  }

  /** `get_user_annotations`: the records of one annotator, in store order. */
  function OfAnnotator(anns: seq<Annotation>, userId: nat): (r: seq<Annotation>)
    ensures |r| <= |anns|
    ensures forall a :: a in r <==> a in anns && a.annotatorId == userId
  {
    if anns == [] then []
    else if anns[0].annotatorId == userId then [anns[0]] + OfAnnotator(anns[1..], userId)
    else OfAnnotator(anns[1..], userId)
  }

  /** One unfolding of `OfAnnotator` on a sequence with a given first element. */
  lemma OfAnnotatorCons(x: Annotation, s: seq<Annotation>, userId: nat)
    ensures OfAnnotator([x] + s, userId) == (if x.annotatorId == userId then [x] else []) + OfAnnotator(s, userId)
  {
    assert ([x] + s)[0] == x && ([x] + s)[1..] == s;
  }

  /** The records of an annotator keep their store order. */
  lemma {:induction false} OfAnnotatorInOrder(a: seq<Annotation>, b: seq<Annotation>, userId: nat)
    ensures OfAnnotator(a + b, userId) == OfAnnotator(a, userId) + OfAnnotator(b, userId)
    ensures |a| == 1 ==> OfAnnotator(a, userId) == (if a[0].annotatorId == userId then a else [])
  {
    if a == [] {
      assert a + b == b;
    } else {
      var t, h := a[1..], if a[0].annotatorId == userId then [a[0]] else [];
      assert a == [a[0]] + t && a + b == [a[0]] + (t + b);
      calc {
        OfAnnotator(a + b, userId);
      == { OfAnnotatorCons(a[0], t + b, userId); }
        h + OfAnnotator(t + b, userId);
      == { OfAnnotatorInOrder(t, b, userId); }
        h + (OfAnnotator(t, userId) + OfAnnotator(b, userId));
      == { AppendAssoc(h, OfAnnotator(t, userId), OfAnnotator(b, userId)); }
        (h + OfAnnotator(t, userId)) + OfAnnotator(b, userId);
      == { OfAnnotatorCons(a[0], t, userId); }
        OfAnnotator(a, userId) + OfAnnotator(b, userId);
      }
      if |a| == 1 {
        assert t == [];
      }
    }
  }

  /** The number of completed records. */
  function CountCompleted(anns: seq<Annotation>): nat
  {
    if anns == [] then 0
    else (if anns[0].isCompleted then 1 else 0) + CountCompleted(anns[1..])
  }

  /** Appending one record adds one to the count exactly when that record counts. */
  lemma {:induction false} CountCompletedSnoc(anns: seq<Annotation>, x: Annotation)
    ensures CountCompleted(anns + [x]) == CountCompleted(anns) + (if x.isCompleted then 1 else 0)
  {
    if anns == [] {
      assert anns + [x] == [x] && [x][1..] == [];
    } else {
      assert (anns + [x])[0] == anns[0] && (anns + [x])[1..] == anns[1..] + [x];
      CountCompletedSnoc(anns[1..], x);
    }
  }

  /** The positions of completed records in a sequence with one more record at its end. */
  lemma CompletedPositionsSnoc(anns: seq<Annotation>, x: Annotation)
    ensures (set i | 0 <= i < |anns + [x]| && (anns + [x])[i].isCompleted)
         == (set i | 0 <= i < |anns| && anns[i].isCompleted) + (if x.isCompleted then {|anns|} else {})
  {
    var longer := anns + [x];
    forall i | 0 <= i < |anns|
      ensures longer[i] == anns[i]
    {
    }
  }

  /** The completed count is the number of positions holding a completed record. */
  lemma {:induction false} CountCompletedCounts(anns: seq<Annotation>)
    ensures CountCompleted(anns) == |set i | 0 <= i < |anns| && anns[i].isCompleted|
  {
    var all := set i | 0 <= i < |anns| && anns[i].isCompleted;
    if anns == [] {
      assert all == {};
    } else {
      var init, x := anns[..|anns| - 1], anns[|anns| - 1];
      assert anns == init + [x];
      CountCompletedSnoc(init, x);
      CountCompletedCounts(init);
      CompletedPositionsSnoc(init, x);
    }
  }

  /** The completed count never exceeds the total, and equals it exactly when every record is completed. */
  lemma {:induction false} CountCompletedAll(anns: seq<Annotation>)
    ensures CountCompleted(anns) <= |anns|
    ensures CountCompleted(anns) == |anns| <==> forall a :: a in anns ==> a.isCompleted
  {
    if anns != [] {
      CountCompletedAll(anns[1..]);
      assert forall a :: a in anns <==> a == anns[0] || a in anns[1..];
    }
  }

  /** The rule of `update_document_status` applied to the two counts. */
  function StatusFromCounts(total: nat, completed: nat): DocStatus
  {
    if total == 0 then Pending
    else if completed == total && total > 0 then Completed
    else InProgress
  }

  /** The status `update_document_status` computes for a document from its records. */
  function DerivedStatus(anns: seq<Annotation>, documentId: nat): DocStatus
  {
    var mine := OfDocument(anns, documentId);
    StatusFromCounts(|mine|, CountCompleted(mine))
  }

  /**
   * The status is "pending" iff the document has no records, "completed" iff
   * it has records and all are completed, "in_progress" iff one of its
   * records is not completed.
   */
  lemma DerivedStatusMeaning(anns: seq<Annotation>, documentId: nat)
    ensures DerivedStatus(anns, documentId) == Pending <==>
      forall a :: a in anns ==> a.documentId != documentId
    ensures DerivedStatus(anns, documentId) == Completed <==>
      (exists a :: a in anns && a.documentId == documentId) &&
      (forall a :: a in anns && a.documentId == documentId ==> a.isCompleted)
    ensures DerivedStatus(anns, documentId) == InProgress <==>
      exists a :: a in anns && a.documentId == documentId && !a.isCompleted
  {
    var mine := OfDocument(anns, documentId);
    CountCompletedAll(mine);
    if mine != [] {
      assert mine[0] in mine;
    }
  }

  /** The comments a save stores: `[]` when absent or empty. */
  function CommentsToStore(comments: Option<seq<CommentItem>>): seq<CommentItem>
  {
    if comments.None? then [] else comments.value
  }

  /** The store after saving `r`: the record with r's key replaced, or `r` appended. */
  function Upsert(anns: seq<Annotation>, r: Annotation): seq<Annotation>
  {
    if anns == [] then [r]
    else if HasKey(anns[0], r.documentId, r.annotatorId) then [r] + anns[1..]
    else [anns[0]] + Upsert(anns[1..], r)
  }

  /** Upsert replaces the first record with r's key, or appends when there is none. */
  lemma {:induction false} UpsertAt(anns: seq<Annotation>, r: Annotation)
    ensures AnnotationIndex(anns, r.documentId, r.annotatorId).Some? ==>
      Upsert(anns, r) == anns[AnnotationIndex(anns, r.documentId, r.annotatorId).value := r]
    ensures AnnotationIndex(anns, r.documentId, r.annotatorId).None? ==>
      Upsert(anns, r) == anns + [r]
  {
    if anns != [] && !HasKey(anns[0], r.documentId, r.annotatorId) {
      UpsertAt(anns[1..], r);
      assert anns == [anns[0]] + anns[1..];
    }
  }

  /** Reading back the saved key gives exactly the saved record (put-then-get). */
  lemma {:induction false} UpsertThenGet(anns: seq<Annotation>, r: Annotation)
    ensures GetAnnotation(Upsert(anns, r), r.documentId, r.annotatorId) == Some(r)
  {
    if anns != [] && !HasKey(anns[0], r.documentId, r.annotatorId) {
      UpsertThenGet(anns[1..], r);
    }
  }

  /** Records under every other key are untouched by a save. */
  lemma {:induction false} UpsertOthers(anns: seq<Annotation>, r: Annotation, a: Annotation)
    requires !HasKey(a, r.documentId, r.annotatorId)
    ensures a in Upsert(anns, r) <==> a in anns
  {
    if anns != [] && !HasKey(anns[0], r.documentId, r.annotatorId) {
      UpsertOthers(anns[1..], r, a);
    }
  }

  /** The records of every other document are untouched by a save. */
  lemma {:induction false} UpsertOtherDocument(anns: seq<Annotation>, r: Annotation, documentId: nat)
    requires documentId != r.documentId
    ensures OfDocument(Upsert(anns, r), documentId) == OfDocument(anns, documentId)
  {
    if anns != [] {
      UpsertOtherDocument(anns[1..], r, documentId);
      if HasKey(anns[0], r.documentId, r.annotatorId) {
        assert ([r] + anns[1..])[1..] == anns[1..];
      } else {
        assert ([anns[0]] + Upsert(anns[1..], r))[1..] == Upsert(anns[1..], r);
      }
    }
  }

  /** A save keeps at most one record per (document, annotator) pair, and fresh ids unique. */
  lemma UpsertValid(anns: seq<Annotation>, r: Annotation, next: nat)
    requires UniqueKeys(anns) && UniqueAnnotationIds(anns)
    requires forall i :: 0 <= i < |anns| ==> anns[i].id < next
    requires match GetAnnotation(anns, r.documentId, r.annotatorId)
      case Some(prev) => r.id == prev.id
      case None => r.id == next
    ensures UniqueKeys(Upsert(anns, r)) && UniqueAnnotationIds(Upsert(anns, r))
    ensures forall i :: 0 <= i < |Upsert(anns, r)| ==> Upsert(anns, r)[i].id < next + 1
  {
    UpsertAt(anns, r);
  }

  /** Every document's stored status agrees with its records. */
  predicate StatusesAgree(docs: seq<Document>, anns: seq<Annotation>)
  {
    forall i :: 0 <= i < |docs| ==> docs[i].status == DerivedStatus(anns, docs[i].id)
  }

  /** The documents with the status of the document `id` set to `s` (no change for an unknown id). */
  function SetStatus(docs: seq<Document>, id: nat, s: DocStatus): seq<Document>
  {
    match DocumentIndex(docs, id)
    case None => docs
    case Some(i) => docs[i := docs[i].(status := s)]
  }

  /** Setting one document's status changes no other document and no other field. */
  lemma SetStatusChangesOnlyStatus(docs: seq<Document>, id: nat, s: DocStatus)
    requires UniqueDocumentIds(docs)
    ensures |SetStatus(docs, id, s)| == |docs|
    ensures forall i :: 0 <= i < |docs| && docs[i].id != id ==> SetStatus(docs, id, s)[i] == docs[i]
    ensures forall i :: 0 <= i < |docs| && docs[i].id == id ==> SetStatus(docs, id, s)[i] == docs[i].(status := s)
  {
  }

  /** `update_document_status`: writes the status derived from the document's records. */
  method UpdateDocumentStatus(db: Db, documentId: nat) returns (doc: Option<Document>)
    requires db.Valid()
    modifies db
    ensures db.Valid()
    ensures db.documents == SetStatus(old(db.documents), documentId, DerivedStatus(db.annotations, documentId))
    ensures doc == GetDocument(db.documents, documentId)
    ensures db.annotations == old(db.annotations) && db.users == old(db.users)
    ensures db.nextDocumentId == old(db.nextDocumentId) && db.nextAnnotationId == old(db.nextAnnotationId)
  {
    var mine := OfDocument(db.annotations, documentId);
    var total := |mine|;
    var completed := CountCompleted(mine);
    var index := DocumentIndex(db.documents, documentId);
    if index.Some? {
      var i := index.value;
      var status: DocStatus;
      if total == 0 {
        status := Pending;
      } else if completed == total && total > 0 {
        status := Completed;
      } else {
        status := InProgress;
      }
      db.documents := db.documents[i := db.documents[i].(status := status)];
      doc := Some(db.documents[i]);
      assert DocumentIndex(db.documents, documentId) == index;
    } else {
      doc := None;
    }
  }

  /**
   * The first half of `create_or_update_annotation`: update the caller's
   * record in place, or append a new one under the next id.
   */
  method PutAnnotation(db: Db, documentId: nat, userId: nat, evaluation: bool,
                       comments: Option<seq<CommentItem>>, timeSpent: int, isCompleted: bool)
    returns (saved: Annotation)
    requires db.Valid()
    modifies db
    ensures db.Valid()
    ensures HasKey(saved, documentId, userId)
    ensures saved.evaluation == evaluation && saved.isCompleted == isCompleted
    ensures saved.comments == Encoded(CommentsToStore(comments))
    ensures match old(GetAnnotation(db.annotations, documentId, userId))
      case Some(prev) => saved.id == prev.id && saved.timeSpent == prev.timeSpent + timeSpent
                         && db.nextAnnotationId == old(db.nextAnnotationId)
      case None => saved.id == old(db.nextAnnotationId) && saved.timeSpent == timeSpent
                   && db.nextAnnotationId == old(db.nextAnnotationId) + 1
    ensures db.annotations == Upsert(old(db.annotations), saved)
    ensures db.documents == old(db.documents) && db.users == old(db.users)
    ensures db.nextDocumentId == old(db.nextDocumentId)
  {
    var stored := Encoded(CommentsToStore(comments));
    var index := AnnotationIndex(db.annotations, documentId, userId);
    if index.Some? {
      var i := index.value;
      var prev := db.annotations[i];
      saved := prev.(evaluation := evaluation, comments := stored,
                     timeSpent := prev.timeSpent + timeSpent, isCompleted := isCompleted);
      UpsertAt(db.annotations, saved);
      UpsertValid(db.annotations, saved, db.nextAnnotationId);
      db.annotations := db.annotations[i := saved];
    } else {
      saved := Annotation(db.nextAnnotationId, documentId, userId, evaluation, stored, timeSpent, isCompleted);
      UpsertAt(db.annotations, saved);
      UpsertValid(db.annotations, saved, db.nextAnnotationId);
      db.annotations := db.annotations + [saved];
      db.nextAnnotationId := db.nextAnnotationId + 1;
    }
  }

  /**
   * `create_or_update_annotation`: update the caller's record in place, or
   * create one, then recompute the document's status. There is no check that
   * the caller is assigned to the document.
   */
  method CreateOrUpdateAnnotation(db: Db, documentId: nat, userId: nat, evaluation: bool,
                                  comments: Option<seq<CommentItem>>, timeSpent: int, isCompleted: bool)
    returns (saved: Annotation)
    requires db.Valid()
    modifies db
    ensures db.Valid()
    ensures HasKey(saved, documentId, userId)
    ensures saved.evaluation == evaluation && saved.isCompleted == isCompleted
    ensures saved.comments == Encoded(CommentsToStore(comments))
    ensures match old(GetAnnotation(db.annotations, documentId, userId))
      case Some(prev) => saved.id == prev.id && saved.timeSpent == prev.timeSpent + timeSpent
                         && db.nextAnnotationId == old(db.nextAnnotationId)
      case None => saved.id == old(db.nextAnnotationId) && saved.timeSpent == timeSpent
                   && db.nextAnnotationId == old(db.nextAnnotationId) + 1
    ensures db.annotations == Upsert(old(db.annotations), saved)
    ensures db.documents == SetStatus(old(db.documents), documentId, DerivedStatus(db.annotations, documentId))
    ensures db.users == old(db.users) && db.nextDocumentId == old(db.nextDocumentId)
  {
    saved := PutAnnotation(db, documentId, userId, evaluation, comments, timeSpent, isCompleted);
    var _ := UpdateDocumentStatus(db, documentId);
  }

  /**
   * After a save the saved document's status agrees with its records, and if
   * every status agreed before the save, every status agrees after it.
   */
  lemma SaveKeepsStatusesAgreeing(docs: seq<Document>, anns: seq<Annotation>, r: Annotation)
    requires UniqueDocumentIds(docs)
    requires StatusesAgree(docs, anns)
    ensures StatusesAgree(SetStatus(docs, r.documentId, DerivedStatus(Upsert(anns, r), r.documentId)), Upsert(anns, r))
  {
    var anns' := Upsert(anns, r);
    var docs' := SetStatus(docs, r.documentId, DerivedStatus(anns', r.documentId));
    forall i | 0 <= i < |docs'| ensures docs'[i].status == DerivedStatus(anns', docs'[i].id) {
      if docs[i].id != r.documentId {
        UpsertOtherDocument(anns, r, docs[i].id);
      }
    }
  }

  /** A saved draft leaves its document in progress; a save never leaves it pending. */
  lemma SavedDocumentStatus(anns: seq<Annotation>, r: Annotation)
    ensures DerivedStatus(Upsert(anns, r), r.documentId) != Pending
    ensures !r.isCompleted ==> DerivedStatus(Upsert(anns, r), r.documentId) == InProgress
  {
    UpsertThenGet(anns, r);
    DerivedStatusMeaning(Upsert(anns, r), r.documentId);
  }

  /**
   * A second identical save leaves the store as the first one did exactly
   * when the time it adds is zero.
   */
  lemma RepeatedSave(anns: seq<Annotation>, r: Annotation, timeSpent: int)
    requires GetAnnotation(anns, r.documentId, r.annotatorId) == Some(r)
    ensures var again := r.(timeSpent := r.timeSpent + timeSpent);
      Upsert(anns, again) == anns <==> timeSpent == 0
  {
    var again := r.(timeSpent := r.timeSpent + timeSpent);
    UpsertAt(anns, again);
    var i := AnnotationIndex(anns, r.documentId, r.annotatorId).value;
    assert Upsert(anns, again)[i] == again;
  }

  /** `update_annotation_time`: adds to the time of the record with that id; an unknown id changes nothing. */
  method UpdateAnnotationTime(db: Db, annotationId: nat, additionalTime: int) returns (updated: Option<Annotation>)
    requires db.Valid()
    modifies db
    ensures db.Valid()
    ensures match FirstIndex(old(db.annotations), (a: Annotation) => a.id == annotationId)
      case None => updated.None? && db.annotations == old(db.annotations)
      case Some(i) =>
        && updated == Some(old(db.annotations)[i].(timeSpent := old(db.annotations)[i].timeSpent + additionalTime))
        && db.annotations == old(db.annotations)[i := updated.value]
    ensures db.documents == old(db.documents) && db.users == old(db.users)
    ensures db.nextDocumentId == old(db.nextDocumentId) && db.nextAnnotationId == old(db.nextAnnotationId)
    ensures old(StatusesAgree(db.documents, db.annotations)) ==> StatusesAgree(db.documents, db.annotations)
  {
    var index := FirstIndex(db.annotations, (a: Annotation) => a.id == annotationId);
    if index.None? {
      return None;
    }
    var i := index.value;
    var a := db.annotations[i];
    var a' := a.(timeSpent := a.timeSpent + additionalTime);
    ghost var before := db.annotations;
    db.annotations := db.annotations[i := a'];
    updated := Some(a');
    forall d | 0 <= d < |db.documents| ensures DerivedStatus(db.annotations, db.documents[d].id) == DerivedStatus(before, db.documents[d].id) {
      TimeChangeKeepsCounts(before, i, a', db.documents[d].id);
    }
  }

  /** Changing a record's time leaves every document's record count and completed count unchanged. */
  lemma {:induction false} TimeChangeKeepsCounts(anns: seq<Annotation>, i: nat, a': Annotation, documentId: nat)
    requires i < |anns|
    requires a'.documentId == anns[i].documentId && a'.isCompleted == anns[i].isCompleted
    ensures |OfDocument(anns[i := a'], documentId)| == |OfDocument(anns, documentId)|
    ensures CountCompleted(OfDocument(anns[i := a'], documentId)) == CountCompleted(OfDocument(anns, documentId))
  {
    if i > 0 {
      TimeChangeKeepsCounts(anns[1..], i - 1, a', documentId);
      assert anns[i := a'][1..] == anns[1..][i - 1 := a'];
    } else {
      assert anns[i := a'][1..] == anns[1..];
    }
  }
}

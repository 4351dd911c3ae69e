/**
 * backend/app/api/documents.py: the admin gate on document creation, the
 * public listing and the single-document response that carries the caller's
 * own annotation.
 */
module DocumentsApi {
  import opened Types
  import opened Store
  import opened AnnotationService
  import opened DocumentService

  /**
   * `create_new_document`: refused with 403 for anyone but an admin; an
   * admin's request goes to `create_document` (in its intended form, see
   * `DocumentService.CreateDocument`).
   */
  method CreateNewDocument(db: Db, callerRole: Role, req: DocumentCreate) returns (r: Result<Document>)
    requires db.Valid()
    modifies db
    ensures db.Valid()
    ensures callerRole != Admin ==>
      r == Err(Forbidden) && db.documents == old(db.documents) && db.nextDocumentId == old(db.nextDocumentId)
    ensures callerRole == Admin ==>
      && r.Ok? && r.value.id == old(db.nextDocumentId)
      && r.value.title == req.title && r.value.status == Pending && r.value.assignedTo.None?
      && db.documents == old(db.documents) + [r.value]
      && db.nextDocumentId == old(db.nextDocumentId) + 1
    ensures db.annotations == old(db.annotations) && db.users == old(db.users)
    ensures db.nextAnnotationId == old(db.nextAnnotationId)
  {
    if callerRole != Admin {
      return Err(Forbidden);
    }
    var doc := CreateDocument(db, req);
    return Ok(doc);
  }

  /** `row` lists an unassigned stored document with its label. */
  ghost predicate PublicRow(docs: seq<Document>, anns: seq<Annotation>, row: DocumentListRow)
  {
    exists d :: d in docs && d.assignedTo.None? && row == ListRow(d, ListLabel(anns, d.id))
  }

  /**
   * `read_documents`: the listing is requested without the caller's id or
   * role, so it is the window of the unassigned documents, whoever asks.
   */
  method ReadDocuments(db: Db, skip: nat, limit: nat) returns (result: seq<DocumentListRow>)
    ensures |result| <= limit
    ensures forall i :: 0 <= i < |result| ==> PublicRow(db.documents, db.annotations, result[i])
    ensures skip == 0 && limit >= |db.documents| ==>
      forall d :: d in db.documents && d.assignedTo.None? ==> ListRow(d, ListLabel(db.annotations, d.id)) in result
  {
    result := GetDocuments(db, skip, limit, None, None);
    ghost var docs, anns := db.documents, db.annotations;
    ghost var listed := Listed(docs, skip, limit, None, None);
    PublicListing(docs, skip, limit);
    forall i | 0 <= i < |result| ensures PublicRow(docs, anns, result[i]) {
      var d := listed[i];
      assert d in docs && d.assignedTo.None? && result[i] == ListRow(d, ListLabel(anns, d.id));
    }
    if skip == 0 && limit >= |docs| {
      forall d | d in docs && d.assignedTo.None? ensures ListRow(d, ListLabel(anns, d.id)) in result {
        var i :| 0 <= i < |listed| && listed[i] == d;
        assert result[i] == ListRow(d, ListLabel(anns, d.id));
      }
    }
  }

  /** The caller's own annotation as `read_document` adds it to the response. */
  datatype OwnAnnotation = OwnAnnotation(evaluation: bool, comments: seq<CommentItem>, timeSpent: int)

  /** The flattened response of `read_document`. */
  datatype DocumentResponse = DocumentResponse(
    id: nat,
    title: string,
    status: DocStatus,
    wordCountSource: int,
    wordCountGenerated: int,
    sourceContent: string,
    generatedContent: string,
    annotationStatus: Label,
    annotation: Option<OwnAnnotation>)

  /** The stored comments, with an absent or undecodable text read as no comments. */
  function CommentsOrEmpty(c: StoredComments): (r: seq<CommentItem>)
    ensures DecodeComments(c).Ok? ==> r == DecodeComments(c).value
    ensures DecodeComments(c).Err? ==> r == []
  {
    match c
    case Encoded(items) => items
    case Absent => []
    case Malformed(_) => []
  }

  /**
   * `read_document`: 404 for an unknown document; otherwise the document's
   * stored fields, the caller's label and, when the caller has a record, its
   * evaluation, comments and time.
   */
  function ReadDocument(docs: seq<Document>, anns: seq<Annotation>, documentId: nat, callerId: nat): (r: Result<DocumentResponse>)
    ensures r.Err? <==> GetDocument(docs, documentId).None?
    ensures r.Err? ==> r.error == NotFound
    ensures r.Ok? ==>
      var d := GetDocument(docs, documentId).value;
      && r.value.id == d.id == documentId && r.value.title == d.title && r.value.status == d.status
      && r.value.wordCountSource == d.wordCountSource && r.value.wordCountGenerated == d.wordCountGenerated
      && r.value.sourceContent == d.sourceContent && r.value.generatedContent == d.generatedContent
    ensures r.Ok? ==> r.value.annotationStatus == OwnLabel(GetAnnotation(anns, documentId, callerId))
    ensures r.Ok? ==> (r.value.annotation.None? <==> forall a :: a in anns ==> !HasKey(a, documentId, callerId))
  {
    match GetDocumentWithAnnotation(docs, anns, documentId, callerId)
    case None => Err(NotFound)
    case Some(result) =>
      var document := result.document;
      var response := DocumentResponse(document.id, document.title, document.status,
                                       document.wordCountSource, document.wordCountGenerated,
                                       document.sourceContent, document.generatedContent,
                                       Unannotated, None);
      match result.annotation
      case None => Ok(response)
      case Some(annotation) =>
        Ok(response.(annotationStatus := if annotation.isCompleted then Annotated else Ongoing,
                     annotation := Some(OwnAnnotation(annotation.evaluation, CommentsOrEmpty(annotation.comments),
                                                      annotation.timeSpent))))
  }

  /**
   * The two ways a caller reads back their own record agree: where
   * `get_user_annotation` succeeds, `read_document` carries the same
   * evaluation, comments and time; where it fails on undecodable comments,
   * `read_document` still answers, with no comments.
   */
  lemma ReadDocumentAgreesWithUserAnnotation(docs: seq<Document>, anns: seq<Annotation>, documentId: nat, callerId: nat)
    requires GetDocument(docs, documentId).Some?
    requires GetAnnotation(anns, documentId, callerId).Some?
    ensures var a := GetAnnotation(anns, documentId, callerId).value;
      ReadDocument(docs, anns, documentId, callerId).Ok? &&
      ReadDocument(docs, anns, documentId, callerId).value.annotation ==
        Some(OwnAnnotation(a.evaluation, CommentsOrEmpty(a.comments), a.timeSpent))
    ensures var a := GetAnnotation(anns, documentId, callerId).value;
      a.comments.Malformed? ==> ReadDocument(docs, anns, documentId, callerId).value.annotation.value.comments == []
  {
  }

  /**
   * After a save, the caller's `read_document` shows the saved evaluation,
   * comments and time, labelled "已标注" or "进行中" as the save was final or a
   * draft.
   */
  lemma ReadDocumentAfterSave(docs: seq<Document>, anns: seq<Annotation>, saved: Annotation, items: seq<CommentItem>)
    requires GetDocument(docs, saved.documentId).Some?
    requires saved.comments == Encoded(items)
    ensures var r := ReadDocument(docs, Upsert(anns, saved), saved.documentId, saved.annotatorId);
      && r.Ok?
      && r.value.annotation == Some(OwnAnnotation(saved.evaluation, items, saved.timeSpent))
      && r.value.annotationStatus == (if saved.isCompleted then Annotated else Ongoing)
  {
    UpsertThenGet(anns, saved);
  }
}

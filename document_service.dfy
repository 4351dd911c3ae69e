/**
 * backend/app/services/document.py: the role-scoped document listing with
 * its per-document annotation label, the permission predicate, assignment,
 * the per-user listing, the document-with-own-annotation lookup and document
 * creation.
 */
module DocumentService {
  import opened Types
  import opened Strings
  import opened Store
  import opened AnnotationService

  /** One row of a listing (`DocumentList`; the schema has no assigned_to field, so it is dropped). */
  datatype DocumentListRow = DocumentListRow(
    id: nat,
    title: string,
    status: DocStatus,
    wordCountSource: int,
    wordCountGenerated: int,
    annotationStatus: Label)

  function ListRow(d: Document, annotationStatus: Label): DocumentListRow
  {
    DocumentListRow(d.id, d.title, d.status, d.wordCountSource, d.wordCountGenerated, annotationStatus)
  }

  /** Admins see every document; anyone else sees unassigned documents and their own. */
  predicate Visible(d: Document, userId: Option<nat>, role: Option<Role>)
  {
    role == Some(Admin) || d.assignedTo.None? || d.assignedTo == userId
  }

  /** The documents a caller may list, in store order. */
  function Filtered(docs: seq<Document>, userId: Option<nat>, role: Option<Role>): (r: seq<Document>)
    ensures |r| <= |docs|
    ensures forall d :: d in r <==> d in docs && Visible(d, userId, role)
  {
    if docs == [] then []
    else if Visible(docs[0], userId, role) then [docs[0]] + Filtered(docs[1..], userId, role)
    else Filtered(docs[1..], userId, role)
  }

  /** One unfolding of `Filtered` on a sequence with a given first element. */
  lemma FilteredCons(x: Document, s: seq<Document>, userId: Option<nat>, role: Option<Role>)
    ensures Filtered([x] + s, userId, role) == (if Visible(x, userId, role) then [x] else []) + Filtered(s, userId, role)
  {
    assert ([x] + s)[0] == x && ([x] + s)[1..] == s;
  }

  /** The visible documents keep their store order. */
  lemma {:induction false} FilteredInOrder(a: seq<Document>, b: seq<Document>, userId: Option<nat>, role: Option<Role>)
    ensures Filtered(a + b, userId, role) == Filtered(a, userId, role) + Filtered(b, userId, role)
    ensures |a| == 1 ==> Filtered(a, userId, role) == (if Visible(a[0], userId, role) then a else [])
  {
    if a == [] {
      assert a + b == b;
    } else {
      var t, h := a[1..], if Visible(a[0], userId, role) then [a[0]] else [];
      assert a == [a[0]] + t && a + b == [a[0]] + (t + b);
      calc {
        Filtered(a + b, userId, role);
      == { FilteredCons(a[0], t + b, userId, role); }
        h + Filtered(t + b, userId, role);
      == { FilteredInOrder(t, b, userId, role); }
        h + (Filtered(t, userId, role) + Filtered(b, userId, role));
      == { AppendAssoc(h, Filtered(t, userId, role), Filtered(b, userId, role)); }
        (h + Filtered(t, userId, role)) + Filtered(b, userId, role);
      == { FilteredCons(a[0], t, userId, role); }
        Filtered(a, userId, role) + Filtered(b, userId, role);
      }
      if |a| == 1 {
        assert t == [];
      }
    }
  }

  /** SQL `OFFSET skip LIMIT limit`. */
  function Window<T>(s: seq<T>, skip: nat, limit: nat): seq<T>
  {
    if skip >= |s| then []
    else if skip + limit <= |s| then s[skip..skip + limit]
    else s[skip..]
  }

  /**
   * A window has at most `limit` entries, they are the entries of `s` from
   * position `skip` on, in order, and it is cut short only by the end of `s`.
   */
  lemma WindowSpec<T>(s: seq<T>, skip: nat, limit: nat)
    ensures |Window(s, skip, limit)| <= limit
    ensures forall i :: 0 <= i < |Window(s, skip, limit)| ==> skip + i < |s| && Window(s, skip, limit)[i] == s[skip + i]
    ensures |Window(s, skip, limit)| == limit || skip + |Window(s, skip, limit)| >= |s|
  {
  }

  /** An admin's listing filter keeps every document. */
  lemma {:induction false} AdminSeesAll(docs: seq<Document>, userId: Option<nat>)
    ensures Filtered(docs, userId, Some(Admin)) == docs
  {
    if docs != [] {
      AdminSeesAll(docs[1..], userId);
      assert [docs[0]] + docs[1..] == docs;
    }
  }

  /** The documents of a listing, before labels are attached. */
  function Listed(docs: seq<Document>, skip: nat, limit: nat, userId: Option<nat>, role: Option<Role>): seq<Document>
  {
    Window(Filtered(docs, userId, role), skip, limit)
  }

  /** The label of a listed document, from its record count and completed count. */
  function ListLabel(anns: seq<Annotation>, documentId: nat): Label
  {
    var mine := OfDocument(anns, documentId);
    if |mine| == 0 then Unannotated
    else if CountCompleted(mine) == |mine| then Annotated
    else Ongoing
  }

  /**
   * The listing label is "未标注" iff the document has no records, "已标注"
   * iff all of its records are completed, "进行中" otherwise: the same rule
   * as the stored status, so the two always name the same state.
   */
  lemma ListLabelMatchesStatus(anns: seq<Annotation>, documentId: nat)
    ensures ListLabel(anns, documentId) == Unannotated <==> DerivedStatus(anns, documentId) == Pending
    ensures ListLabel(anns, documentId) == Annotated <==> DerivedStatus(anns, documentId) == Completed
    ensures ListLabel(anns, documentId) == Ongoing <==> DerivedStatus(anns, documentId) == InProgress
    ensures ListLabel(anns, documentId) == Unannotated <==> forall a :: a in anns ==> a.documentId != documentId
  {
    DerivedStatusMeaning(anns, documentId);
  }

  /** `get_documents`: the window of the visible documents, each with its label. */
  method GetDocuments(db: Db, skip: nat, limit: nat, userId: Option<nat>, role: Option<Role>)
    returns (result: seq<DocumentListRow>)
    ensures |result| == |Listed(db.documents, skip, limit, userId, role)| && |result| <= limit
    ensures forall i :: 0 <= i < |result| ==>
      var d := Listed(db.documents, skip, limit, userId, role)[i];
      result[i] == ListRow(d, ListLabel(db.annotations, d.id))
  {
    var documents := Listed(db.documents, skip, limit, userId, role);
    WindowSpec(Filtered(db.documents, userId, role), skip, limit);
    result := [];
    for k := 0 to |documents|
      invariant |result| == k
      invariant forall i :: 0 <= i < k ==> result[i] == ListRow(documents[i], ListLabel(db.annotations, documents[i].id))
    {
      var doc := documents[k];
      var mine := OfDocument(db.annotations, doc.id);
      var annotationCount := |mine|;
      var completedCount := CountCompleted(mine);
      var annotationStatus: Label;
      if annotationCount == 0 {
        annotationStatus := Unannotated;
      } else if completedCount == annotationCount {
        annotationStatus := Annotated;
      } else {
        annotationStatus := Ongoing;
      }
      result := result + [ListRow(doc, annotationStatus)];
    }
  }

  /**
   * Without the admin role a listing holds only unassigned documents and the
   * caller's own, and every such document of the store appears in the
   * unwindowed listing.
   */
  lemma NonAdminListing(docs: seq<Document>, skip: nat, limit: nat, userId: Option<nat>, role: Option<Role>)
    requires role != Some(Admin)
    ensures forall d :: d in Listed(docs, skip, limit, userId, role) ==>
      d in docs && (d.assignedTo.None? || d.assignedTo == userId)
    ensures forall d :: d in docs && (d.assignedTo.None? || d.assignedTo == userId) ==>
      d in Filtered(docs, userId, role)
  {
    var f := Filtered(docs, userId, role);
    WindowSpec(f, skip, limit);
    forall d | d in Listed(docs, skip, limit, userId, role)
      ensures d in docs && (d.assignedTo.None? || d.assignedTo == userId)
    {
      var i :| 0 <= i < |Window(f, skip, limit)| && Window(f, skip, limit)[i] == d;
      assert d == f[skip + i];
    }
  }

  /**
   * The listing requested without a caller: every listed document is an
   * unassigned stored one, and an unbounded window from the start lists
   * every unassigned document.
   */
  lemma PublicListing(docs: seq<Document>, skip: nat, limit: nat)
    ensures forall i :: 0 <= i < |Listed(docs, skip, limit, None, None)| ==>
      Listed(docs, skip, limit, None, None)[i] in docs && Listed(docs, skip, limit, None, None)[i].assignedTo.None?
    ensures skip == 0 && limit >= |docs| ==>
      forall d :: d in docs && d.assignedTo.None? ==> d in Listed(docs, skip, limit, None, None)
  {
    var f := Filtered(docs, None, None);
    var listed := Listed(docs, skip, limit, None, None);
    WindowSpec(f, skip, limit);
    forall i | 0 <= i < |listed| ensures listed[i] in docs && listed[i].assignedTo.None? {
      assert listed[i] == f[skip + i];
      assert f[skip + i] in f;
    }
    if skip == 0 && limit >= |docs| {
      assert listed == f;
    }
  }

  /**
   * `check_document_permission`: an unknown document is refused; an admin is
   * always allowed; anyone else only on an unassigned document or their own.
   */
  function CheckDocumentPermission(docs: seq<Document>, documentId: nat, userId: nat, role: Role): (r: (bool, Option<Document>))
    ensures r.1 == GetDocument(docs, documentId)
    ensures r.1.None? ==> !r.0
    ensures r.1.Some? && role == Admin ==> r.0
    ensures r.1.Some? && role != Admin ==>
      (r.0 <==> r.1.value.assignedTo.None? || r.1.value.assignedTo == Some(userId))
  {
    var document := GetDocument(docs, documentId);
    if document.None? then (false, None)
    else if role == Admin then (true, document)
    else if document.value.assignedTo.None? || document.value.assignedTo == Some(userId) then (true, document)
    else (false, document)
  }

  /**
   * The permission predicate allows exactly what the listing shows: the
   * document is allowed iff it exists and the caller's listing filter keeps it.
   */
  lemma PermissionMatchesListing(docs: seq<Document>, documentId: nat, userId: nat, role: Role)
    ensures CheckDocumentPermission(docs, documentId, userId, role).0 <==>
      GetDocument(docs, documentId).Some? &&
      GetDocument(docs, documentId).value in Filtered(docs, Some(userId), Some(role))
  {
    var g := GetDocument(docs, documentId);
    if g.Some? {
      assert g.value in docs;
    }
  }

  /** `assign_document`: sets (or, with None, clears) the assignee of one document. */
  method AssignDocument(db: Db, documentId: nat, assignedTo: Option<nat>) returns (doc: Option<Document>)
    requires db.Valid()
    modifies db
    ensures db.Valid()
    ensures match DocumentIndex(old(db.documents), documentId)
      case None => doc.None? && db.documents == old(db.documents)
      case Some(i) =>
        && db.documents == old(db.documents)[i := old(db.documents)[i].(assignedTo := assignedTo)]
        && doc == Some(db.documents[i])
    ensures db.annotations == old(db.annotations) && db.users == old(db.users)
    ensures db.nextDocumentId == old(db.nextDocumentId) && db.nextAnnotationId == old(db.nextAnnotationId)
    ensures old(StatusesAgree(db.documents, db.annotations)) ==> StatusesAgree(db.documents, db.annotations)
  {
    var index := DocumentIndex(db.documents, documentId);
    if index.None? {
      return None;
    }
    var i := index.value;
    db.documents := db.documents[i := db.documents[i].(assignedTo := assignedTo)];
    doc := Some(db.documents[i]);
  }

  /** The annotationStatus of a document for one user, from that user's own record. */
  function OwnLabel(own: Option<Annotation>): Label
  {
    if own.Some? && own.value.isCompleted then Annotated
    else if own.Some? then Ongoing
    else Unannotated
  }

  /** The caller's annotationStatus is "已标注", "进行中" or "未标注" as their own record is completed, incomplete or absent. */
  lemma OwnLabelMeaning(anns: seq<Annotation>, documentId: nat, userId: nat)
    ensures OwnLabel(GetAnnotation(anns, documentId, userId)) == Unannotated <==>
      forall a :: a in anns ==> !HasKey(a, documentId, userId)
    ensures UniqueKeys(anns) ==>
      (OwnLabel(GetAnnotation(anns, documentId, userId)) == Annotated <==>
       exists a :: a in anns && HasKey(a, documentId, userId) && a.isCompleted)
  {
    var g := GetAnnotation(anns, documentId, userId);
    if UniqueKeys(anns) && g.Some? {
      forall a | a in anns && HasKey(a, documentId, userId) ensures a == g.value {
        var i :| 0 <= i < |anns| && anns[i] == a;
        var j :| 0 <= j < |anns| && anns[j] == g.value;
        assert i == j;
      }
    }
  }

  /** The documents assigned to one user, in store order. */
  function AssignedTo(docs: seq<Document>, userId: nat): (r: seq<Document>)
    ensures forall d :: d in r <==> d in docs && d.assignedTo == Some(userId)
  {
    if docs == [] then []
    else if docs[0].assignedTo == Some(userId) then [docs[0]] + AssignedTo(docs[1..], userId)
    else AssignedTo(docs[1..], userId)
  }

  /** One unfolding of `AssignedTo` on a sequence with a given first element. */
  lemma AssignedToCons(x: Document, s: seq<Document>, userId: nat)
    ensures AssignedTo([x] + s, userId) == (if x.assignedTo == Some(userId) then [x] else []) + AssignedTo(s, userId)
  {
    assert ([x] + s)[0] == x && ([x] + s)[1..] == s;
  }

  /** The documents assigned to a user keep their store order. */
  lemma {:induction false} AssignedToInOrder(a: seq<Document>, b: seq<Document>, userId: nat)
    ensures AssignedTo(a + b, userId) == AssignedTo(a, userId) + AssignedTo(b, userId)
    ensures |a| == 1 ==> AssignedTo(a, userId) == (if a[0].assignedTo == Some(userId) then a else [])
  {
    if a == [] {
      assert a + b == b;
    } else {
      var t, h := a[1..], if a[0].assignedTo == Some(userId) then [a[0]] else [];
      assert a == [a[0]] + t && a + b == [a[0]] + (t + b);
      calc {
        AssignedTo(a + b, userId);
      == { AssignedToCons(a[0], t + b, userId); }
        h + AssignedTo(t + b, userId);
      == { AssignedToInOrder(t, b, userId); }
        h + (AssignedTo(t, userId) + AssignedTo(b, userId));
      == { AppendAssoc(h, AssignedTo(t, userId), AssignedTo(b, userId)); }
        (h + AssignedTo(t, userId)) + AssignedTo(b, userId);
      == { AssignedToCons(a[0], t, userId); }
        AssignedTo(a, userId) + AssignedTo(b, userId);
      }
      if |a| == 1 {
        assert t == [];
      }
    }
  }

  /** `get_user_documents`: the window of the documents assigned to the user, labelled by the user's own record. */
  method GetUserDocuments(db: Db, userId: nat, skip: nat, limit: nat) returns (result: seq<DocumentListRow>)
    ensures |result| == |Window(AssignedTo(db.documents, userId), skip, limit)| && |result| <= limit
    ensures forall i :: 0 <= i < |result| ==>
      var d := Window(AssignedTo(db.documents, userId), skip, limit)[i];
      d.assignedTo == Some(userId) && result[i] == ListRow(d, OwnLabel(GetAnnotation(db.annotations, d.id, userId)))
  {
    var documents := Window(AssignedTo(db.documents, userId), skip, limit);
    WindowSpec(AssignedTo(db.documents, userId), skip, limit);
    result := [];
    for k := 0 to |documents|
      invariant |result| == k
      invariant forall i :: 0 <= i < k ==>
        result[i] == ListRow(documents[i], OwnLabel(GetAnnotation(db.annotations, documents[i].id, userId)))
    {
      var doc := documents[k];
      var annotation := GetAnnotation(db.annotations, doc.id, userId);
      var annotationStatus := if annotation.Some? && annotation.value.isCompleted then Annotated
                   else if annotation.Some? then Ongoing
                   else Unannotated;
      result := result + [ListRow(doc, annotationStatus)];
    }
    forall i | 0 <= i < |result| ensures documents[i].assignedTo == Some(userId) {
      assert documents[i] == AssignedTo(db.documents, userId)[skip + i];
    }
  }

  datatype DocumentWithAnnotation = DocumentWithAnnotation(document: Document, annotation: Option<Annotation>)

  /** `get_document_with_annotation`: None for an unknown document, else the document with the caller's own record. */
  function GetDocumentWithAnnotation(docs: seq<Document>, anns: seq<Annotation>, documentId: nat, userId: nat)
    : (r: Option<DocumentWithAnnotation>)
    ensures r.None? <==> forall d :: d in docs ==> d.id != documentId
    ensures r.Some? ==> r.value.document in docs && r.value.document.id == documentId
    ensures r.Some? ==> (r.value.annotation.None? <==> forall a :: a in anns ==> !HasKey(a, documentId, userId))
    ensures r.Some? && r.value.annotation.Some? ==>
      r.value.annotation.value in anns && HasKey(r.value.annotation.value, documentId, userId)
  {
    match GetDocument(docs, documentId)
    case None => None
    case Some(document) => Some(DocumentWithAnnotation(document, GetAnnotation(anns, documentId, userId)))
  }

  /** The create request (`DocumentCreate`): title and the two texts, nothing else. */
  datatype DocumentCreate = DocumentCreate(title: string, sourceContent: string, generatedContent: string)

  /** Reading `assigned_to` off the request: `DocumentCreate` declares no such field, so the read raises. */
  function AssignedToAttribute(req: DocumentCreate): Result<Option<nat>>
  {
    Err(MissingAttribute)
  }

  /** `create_document` as written: it reads `document.assigned_to` before building the row. */
  function CreateDocumentAsWritten(req: DocumentCreate, id: nat): Result<Document>
  {
    match AssignedToAttribute(req)
    case Err(e) => Err(e)
    case Ok(assignee) =>
      Ok(Document(id, req.title, req.sourceContent, req.generatedContent, Pending, assignee,
                  |req.sourceContent|, |req.generatedContent|))
  }

  /** As written, creating a document fails for every request. */
  lemma CreateAsWrittenAlwaysFails(req: DocumentCreate, id: nat)
    ensures CreateDocumentAsWritten(req, id) == Err(MissingAttribute)
  {
  }

  /**
   * `create_document` as intended: a new unassigned, pending document whose
   * word counts are the lengths of its two texts.
   */
  method CreateDocument(db: Db, req: DocumentCreate) returns (doc: Document)
    requires db.Valid()
    modifies db
    ensures db.Valid()
    ensures doc == Document(old(db.nextDocumentId), req.title, req.sourceContent, req.generatedContent,
                            Pending, None, |req.sourceContent|, |req.generatedContent|)
    ensures db.documents == old(db.documents) + [doc]
    ensures GetDocument(db.documents, doc.id) == Some(doc)
    ensures db.nextDocumentId == old(db.nextDocumentId) + 1
    ensures db.annotations == old(db.annotations) && db.users == old(db.users)
    ensures db.nextAnnotationId == old(db.nextAnnotationId)
  {
    doc := Document(db.nextDocumentId, req.title, req.sourceContent, req.generatedContent,
                    Pending, None, |req.sourceContent|, |req.generatedContent|);
    db.documents := db.documents + [doc];
    db.nextDocumentId := db.nextDocumentId + 1;
    assert db.documents[|db.documents| - 1].id == doc.id;
  }

  /** A created document is unassigned and pending, so every caller's listing filter keeps it. */
  lemma CreatedDocumentVisible(docs: seq<Document>, req: DocumentCreate, id: nat, userId: Option<nat>, role: Option<Role>)
    ensures var doc := Document(id, req.title, req.sourceContent, req.generatedContent,
                                Pending, None, |req.sourceContent|, |req.generatedContent|);
      doc in Filtered(docs + [doc], userId, role)
  {
  }
}

/**
 * backend/app/api/annotations.py: the request-level rules around the
 * annotation service — the save request and its comment conversion, the
 * caller's own record as a response (an empty draft when there is none), and
 * the admin-only view of every record of a document.
 */
module AnnotationsApi {
  import opened Types
  import opened Store
  import opened AnnotationService

  /** The value under one key of an incoming comment object: missing, JSON null, or a string. */
  datatype Field = Missing | Null | Str(s: string)

  /** An incoming comment object, with the three keys the conversion looks at. */
  datatype IncomingComment = IncomingComment(text: Field, selection: Field, range: Field)

  /** The request body as sent; `None` is a key the client left out. */
  datatype RawSaveRequest = RawSaveRequest(
    evaluation: Option<bool>,
    comments: Option<seq<IncomingComment>>,
    timeSpent: Option<int>,
    isCompleted: Option<bool>)

  /** `AnnotationSaveRequest` after validation. */
  datatype SaveRequest = SaveRequest(evaluation: bool, comments: seq<IncomingComment>, timeSpent: int, isCompleted: bool)

  /** Request validation: evaluation is required; the other fields have defaults. */
  function ParseSaveRequest(raw: RawSaveRequest): (r: Result<SaveRequest>)
    ensures r.Err? <==> raw.evaluation.None?
    ensures r.Err? ==> r.error == InvalidField
    ensures r.Ok? ==> r.value.evaluation == raw.evaluation.value
    ensures r.Ok? ==> r.value.comments == (if raw.comments.Some? then raw.comments.value else [])
    ensures r.Ok? ==> r.value.timeSpent == (if raw.timeSpent.Some? then raw.timeSpent.value else 0)
    ensures r.Ok? ==> r.value.isCompleted == (raw.isCompleted == Some(true))
  {
    if raw.evaluation.None? then Err(InvalidField)
    else
      Ok(SaveRequest(
        raw.evaluation.value,
        match raw.comments case Some(c) => c case None => [],
        match raw.timeSpent case Some(t) => t case None => 0,
        match raw.isCompleted case Some(b) => b case None => false))
  }

  /** `str(comment.get("selection") or comment.get("range", ""))`. */
  function SelectionOf(c: IncomingComment): string
  {
    if c.selection.Str? && c.selection.s != "" then c.selection.s
    else match c.range
      case Missing => ""
      case Null => "None"
      case Str(s) => s
  }

  /** One incoming comment as a `CommentItem`; `comment["text"]` raises when the key is missing. */
  function ConvertComment(c: IncomingComment): (r: Result<CommentItem>)
    ensures r.Ok? <==> c.text.Str?
    ensures c.text.Missing? ==> r == Err(MissingKey)
    ensures r.Ok? ==> r.value.text == c.text.s
  {
    match c.text
    case Missing => Err(MissingKey)
    case Null => Err(InvalidField)
    case Str(t) => Ok(CommentItem(t, SelectionOf(c)))
  }

  /**
   * The selection kept is the "selection" value when it is a non-empty
   * string, else the "range" value, else the empty string.
   */
  lemma SelectionRule(c: IncomingComment)
    ensures c.selection.Str? && c.selection.s != "" ==> SelectionOf(c) == c.selection.s
    ensures !(c.selection.Str? && c.selection.s != "") && c.range.Str? ==> SelectionOf(c) == c.range.s
    ensures !(c.selection.Str? && c.selection.s != "") && c.range.Missing? ==> SelectionOf(c) == ""
  {
  }

  /**
   * The loop of `save_annotation` that builds `comment_items`: one item per
   * incoming comment, in order, or the error of the first comment that has
   * no string text.
   */
  method ConvertComments(comments: seq<IncomingComment>) returns (r: Result<seq<CommentItem>>)
    ensures r.Ok? <==> forall i :: 0 <= i < |comments| ==> comments[i].text.Str?
    ensures r.Ok? ==> |r.value| == |comments|
    ensures r.Ok? ==> forall i :: 0 <= i < |comments| ==>
      r.value[i] == CommentItem(comments[i].text.s, SelectionOf(comments[i]))
    ensures r.Err? ==> exists i :: 0 <= i < |comments| && ConvertComment(comments[i]) == Err(r.error)
                                   && (forall j :: 0 <= j < i ==> comments[j].text.Str?)
  {
    var items: seq<CommentItem> := [];
    for k := 0 to |comments|
      invariant |items| == k
      invariant forall i :: 0 <= i < k ==> comments[i].text.Str?
      invariant forall i :: 0 <= i < k ==> items[i] == CommentItem(comments[i].text.s, SelectionOf(comments[i]))
    {
      var comment := comments[k];
      var selection := SelectionOf(comment);
      var item := ConvertComment(comment);
      if item.Err? {
        return Err(item.error);
      }
      items := items + [CommentItem(item.value.text, selection)];
    }
    return Ok(items);
  }

  /**
   * `save_annotation`: converts the comments, then saves the caller's record
   * through `create_or_update_annotation`. Any authenticated caller may save on
   * any document id; a failed conversion changes nothing.
   */
  method SaveAnnotation(db: Db, documentId: nat, callerId: nat, request: SaveRequest) returns (r: Result<nat>)
    requires db.Valid()
    modifies db
    ensures db.Valid()
    ensures r.Err? ==>
      && db.annotations == old(db.annotations) && db.documents == old(db.documents)
      && db.nextAnnotationId == old(db.nextAnnotationId)
      && exists i :: 0 <= i < |request.comments| && ConvertComment(request.comments[i]) == Err(r.error)
                     && (forall j :: 0 <= j < i ==> request.comments[j].text.Str?)
    ensures r.Ok? <==> forall i :: 0 <= i < |request.comments| ==> request.comments[i].text.Str?
    ensures r.Ok? ==>
      var saved := GetAnnotation(db.annotations, documentId, callerId);
      && saved.Some? && saved.value.id == r.value
      && saved.value.evaluation == request.evaluation
      && saved.value.isCompleted == request.isCompleted
      && saved.value.comments.Encoded? && |saved.value.comments.items| == |request.comments|
      && (forall i :: 0 <= i < |request.comments| ==>
            saved.value.comments.items[i] == CommentItem(request.comments[i].text.s, SelectionOf(request.comments[i])))
      && db.annotations == Upsert(old(db.annotations), saved.value)
      && db.documents == SetStatus(old(db.documents), documentId, DerivedStatus(db.annotations, documentId))
    ensures r.Ok? ==> match old(GetAnnotation(db.annotations, documentId, callerId))
      case Some(prev) =>
        && r.value == prev.id && db.nextAnnotationId == old(db.nextAnnotationId)
        && GetAnnotation(db.annotations, documentId, callerId).value.timeSpent == prev.timeSpent + request.timeSpent
      case None =>
        && r.value == old(db.nextAnnotationId) && db.nextAnnotationId == old(db.nextAnnotationId) + 1
        && GetAnnotation(db.annotations, documentId, callerId).value.timeSpent == request.timeSpent
    ensures db.users == old(db.users) && db.nextDocumentId == old(db.nextDocumentId)
  {
    var items := ConvertComments(request.comments);
    if items.Err? {
      return Err(items.error);
    }
    var saved := CreateOrUpdateAnnotation(db, documentId, callerId, request.evaluation,
                                          Some(items.value), request.timeSpent, request.isCompleted);
    UpsertThenGet(old(db.annotations), saved);
    r := Ok(saved.id);
  }

  /** The response of `get_user_annotation`; the draft response has only the first two keys. */
  datatype AnnotationView = AnnotationView(
    evaluation: Option<bool>,
    comments: seq<CommentItem>,
    timeSpent: Option<int>,
    isCompleted: Option<bool>)

  /** `get_user_annotation`: the caller's own record, or an empty draft when there is none. */
  function GetUserAnnotation(anns: seq<Annotation>, documentId: nat, callerId: nat): (r: Result<AnnotationView>)
    ensures GetAnnotation(anns, documentId, callerId).None? ==> r == Ok(AnnotationView(None, [], None, None))
    ensures GetAnnotation(anns, documentId, callerId).Some? ==>
      var a := GetAnnotation(anns, documentId, callerId).value;
      && (r.Err? <==> a.comments.Malformed?)
      && (r.Ok? ==> r.value.evaluation == Some(a.evaluation) && r.value.timeSpent == Some(a.timeSpent)
                    && r.value.isCompleted == Some(a.isCompleted))
      && (a.comments.Encoded? ==> r.Ok? && r.value.comments == a.comments.items)
  {
    match GetAnnotation(anns, documentId, callerId)
    case None => Ok(AnnotationView(None, [], None, None))
    case Some(a) =>
      match DecodeComments(a.comments)
      case Err(e) => Err(e)
      case Ok(comments) => Ok(AnnotationView(Some(a.evaluation), comments, Some(a.timeSpent), Some(a.isCompleted)))
  }

  /** Reading right after a save returns exactly what was saved (put-then-get through the API). */
  lemma SaveThenRead(anns: seq<Annotation>, saved: Annotation, items: seq<CommentItem>)
    requires saved.comments == Encoded(items)
    ensures GetUserAnnotation(Upsert(anns, saved), saved.documentId, saved.annotatorId)
         == Ok(AnnotationView(Some(saved.evaluation), items, Some(saved.timeSpent), Some(saved.isCompleted)))
  {
    UpsertThenGet(anns, saved);
  }

  /** The evaluation as the admin view shows it: "好" for positive, "不好" otherwise. */
  function EvaluationText(evaluation: bool): (r: string)
    ensures r == "好" || r == "不好"
    ensures r == "好" <==> evaluation
  {
    if evaluation then "好" else "不好"
  }

  datatype AdminAnnotationRow = AdminAnnotationRow(
    annotationId: nat,
    annotatorId: nat,
    evaluation: string,
    comments: seq<CommentItem>,
    timeSpent: int,
    isCompleted: bool)

  /**
   * `get_document_all_annotations`: refused with 403 for anyone but an admin;
   * for an admin, one row per record of the document, in store order.
   */
  method GetDocumentAllAnnotations(db: Db, documentId: nat, callerRole: Role) returns (r: Result<seq<AdminAnnotationRow>>)
    ensures callerRole != Admin ==> r == Err(Forbidden)
    ensures callerRole == Admin ==>
      var mine := OfDocument(db.annotations, documentId);
      && (r.Ok? <==> (forall i :: 0 <= i < |mine| ==> !mine[i].comments.Malformed?))
      && (r.Err? ==> r.error == DecodeError)
      && (r.Ok? ==> |r.value| == |mine| && forall i :: 0 <= i < |mine| ==>
            && r.value[i].annotationId == mine[i].id
            && r.value[i].annotatorId == mine[i].annotatorId
            && r.value[i].evaluation == EvaluationText(mine[i].evaluation)
            && r.value[i].comments == DecodeComments(mine[i].comments).value
            && r.value[i].timeSpent == mine[i].timeSpent
            && r.value[i].isCompleted == mine[i].isCompleted)
  {
    if callerRole != Admin {
      return Err(Forbidden);
    }
    var annotations := OfDocument(db.annotations, documentId);
    var result: seq<AdminAnnotationRow> := [];
    for k := 0 to |annotations|
      invariant |result| == k
      invariant forall i :: 0 <= i < k ==> !annotations[i].comments.Malformed?
      invariant forall i :: 0 <= i < k ==>
        result[i] == AdminAnnotationRow(annotations[i].id, annotations[i].annotatorId,
                                        EvaluationText(annotations[i].evaluation),
                                        DecodeComments(annotations[i].comments).value,
                                        annotations[i].timeSpent, annotations[i].isCompleted)
    {
      var annotation := annotations[k];
      var comments := DecodeComments(annotation.comments);
      if comments.Err? {
        assert annotations == OfDocument(db.annotations, documentId) && annotations[k].comments.Malformed?;
        return Err(comments.error);
      }
      result := result + [AdminAnnotationRow(annotation.id, annotation.annotatorId,
                                             EvaluationText(annotation.evaluation), comments.value,
                                             annotation.timeSpent, annotation.isCompleted)];
    }
    return Ok(result);
  }
}

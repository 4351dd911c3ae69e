/**
 * The relational store the services work on, held in memory: the
 * `documents`, `annotations` and `users` tables as sequences in row order,
 * and the next values of the two auto-increment ids. Queries of the form
 * `filter(...).first()` are `FirstIndex` lookups over these sequences.
 */
module Store {
  import opened Types

  /** The index of the first element satisfying `p`, if any. */
  function FirstIndex<T>(s: seq<T>, p: T -> bool): (r: Option<nat>)
    ensures r.Some? ==> r.value < |s| && p(s[r.value])
    ensures r.Some? ==> forall j :: 0 <= j < r.value ==> !p(s[j])
    ensures r.None? <==> forall j :: 0 <= j < |s| ==> !p(s[j])
  {
    if s == [] then None
    else if p(s[0]) then Some(0)
    else match FirstIndex(s[1..], p)
      case None => None
      case Some(i) => assert forall j :: 1 <= j <= i ==> s[j] == s[1..][j - 1]; Some(i + 1)
  }

  predicate HasKey(a: Annotation, documentId: nat, userId: nat)
  {
    a.documentId == documentId && a.annotatorId == userId
  }

  function DocumentIndex(docs: seq<Document>, id: nat): Option<nat>
  {
    FirstIndex(docs, (d: Document) => d.id == id)
  }

  /** `get_document`: the document with that id, or None. */
  function GetDocument(docs: seq<Document>, id: nat): (r: Option<Document>)
    ensures r.Some? ==> r.value in docs && r.value.id == id
    ensures r.None? <==> forall j :: 0 <= j < |docs| ==> docs[j].id != id
  {
    match DocumentIndex(docs, id)
    case None => None
    case Some(i) => Some(docs[i])
  }

  function AnnotationIndex(anns: seq<Annotation>, documentId: nat, userId: nat): Option<nat>
  {
    FirstIndex(anns, (a: Annotation) => HasKey(a, documentId, userId))
  }

  /** `get_annotation`: the record of that (document, annotator) pair, or None. */
  function GetAnnotation(anns: seq<Annotation>, documentId: nat, userId: nat): (r: Option<Annotation>)
    ensures r.Some? ==> r.value in anns && HasKey(r.value, documentId, userId)
    ensures r.None? <==> forall j :: 0 <= j < |anns| ==> !HasKey(anns[j], documentId, userId)
  {
    match AnnotationIndex(anns, documentId, userId)
    case None => None
    case Some(i) => Some(anns[i])
  }

  predicate UniqueDocumentIds(docs: seq<Document>)
  {
    forall i, j :: 0 <= i < j < |docs| ==> docs[i].id != docs[j].id
  }

  /** At most one annotation record per (document, annotator) pair. */
  predicate UniqueKeys(anns: seq<Annotation>)
  {
    forall i, j :: 0 <= i < j < |anns| ==>
      !HasKey(anns[j], anns[i].documentId, anns[i].annotatorId)
  }

  predicate UniqueAnnotationIds(anns: seq<Annotation>)
  {
    forall i, j :: 0 <= i < j < |anns| ==> anns[i].id != anns[j].id
  }

  class Db {
    var documents: seq<Document>
    var annotations: seq<Annotation>
    var users: seq<User>
    var nextDocumentId: nat
    var nextAnnotationId: nat

    /** Primary keys are unique and below the next auto-increment value; one record per pair. */
    ghost predicate Valid()
      reads this
    {
      && UniqueDocumentIds(documents)
      && (forall i :: 0 <= i < |documents| ==> documents[i].id < nextDocumentId)
      && UniqueAnnotationIds(annotations)
      && (forall i :: 0 <= i < |annotations| ==> annotations[i].id < nextAnnotationId)
      && UniqueKeys(annotations)
    }

    constructor (users: seq<User>)
      ensures Valid()
      ensures documents == [] && annotations == [] && this.users == users
      ensures nextDocumentId == 1 && nextAnnotationId == 1
    {
      documents := [];
      annotations := [];
      this.users := users;
      nextDocumentId := 1;
      nextAnnotationId := 1;
    }
  }
}

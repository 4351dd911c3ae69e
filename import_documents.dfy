/**
 * backend/import_documents.py: the bulk import of documents from a parsed
 * JSON file — the word count, the per-document validation, the row built for
 * each accepted document, the import loop with its title check and optional
 * overwrite, and the file-level validation.
 */
module ImportDocuments {
  import opened Types
  import opened Strings
  import opened Store

  // ---------------------------------------------------------------- word count

  /** A character of the CJK Unified Ideographs block, U+4E00..U+9FFF. */
  predicate IsCjk(c: char)
  {
    '\U{4E00}' <= c <= '\U{9FFF}'
  }

  /** The number of CJK characters of `s`. */
  function CjkCount(s: string): (r: nat)
    ensures r <= |s|
  {
    if s == [] then 0 else (if IsCjk(s[0]) then 1 else 0) + CjkCount(s[1..])
  }

  /** The number of pieces that are not white space only. */
  function NonBlankCount(pieces: seq<string>): (r: nat)
    ensures r <= |pieces|
  {
    if pieces == [] then 0 else (if IsBlank(pieces[0]) then 0 else 1) + NonBlankCount(pieces[1..])
  }

  /**
   * `count_words`: the CJK characters plus the space-separated pieces (after
   * turning newlines into spaces) that are not white space only.
   */
  function CountWords(text: string): (r: nat)
    ensures text == [] ==> r == 0
  {
    if text == [] then 0
    else CjkCount(text) + NonBlankCount(Split(Replace(text, '\n', ' '), ' '))
  }

  lemma {:induction false} CjkCountAppend(a: string, b: string)
    ensures CjkCount(a + b) == CjkCount(a) + CjkCount(b)
  {
    if a != [] {
      assert (a + b)[0] == a[0];
      assert (a + b)[1..] == a[1..] + b;
      CjkCountAppend(a[1..], b);
    } else {
      assert a + b == b;
    }
  }

  lemma {:induction false} NonBlankCountAppend(p: seq<string>, q: seq<string>)
    ensures NonBlankCount(p + q) == NonBlankCount(p) + NonBlankCount(q)
  {
    if p != [] {
      assert (p + q)[0] == p[0];
      assert (p + q)[1..] == p[1..] + q;
      NonBlankCountAppend(p[1..], q);
    } else {
      assert p + q == q;
    }
  }

  /** The counting formula of `count_words` without its early exit for the empty text. */
  function WordFormula(text: string): nat
  {
    CjkCount(text) + NonBlankCount(Split(Replace(text, '\n', ' '), ' '))
  }

  /** The early exit changes nothing: the formula gives 0 on the empty text too. */
  lemma CountWordsIsFormula(text: string)
    ensures CountWords(text) == WordFormula(text)
  {
    if text == [] {
      assert Split("", ' ') == [""];
      assert IsBlank("");
    }
  }

  lemma ReplaceAround(a: string, b: string)
    ensures Replace(a + " " + b, '\n', ' ') == Replace(a, '\n', ' ') + [' '] + Replace(b, '\n', ' ')
  {
  }

  lemma FormulaAppend(a: string, b: string)
    ensures WordFormula(a + " " + b) == WordFormula(a) + WordFormula(b)
  {
    var ra, rb := Replace(a, '\n', ' '), Replace(b, '\n', ' ');
    ReplaceAround(a, b);
    SplitAround(ra, rb, ' ');
    NonBlankCountAppend(Split(ra, ' '), Split(rb, ' '));
    CjkCountAppend(a + " ", b);
    CjkCountAppend(a, " ");
  }

  /** Two texts joined by a space count as many words as the two texts apart. */
  lemma CountWordsAppend(a: string, b: string)
    ensures CountWords(a + " " + b) == CountWords(a) + CountWords(b)
  {
    CountWordsIsFormula(a + " " + b);
    CountWordsIsFormula(a);
    CountWordsIsFormula(b);
    FormulaAppend(a, b);
  }

  /** Every character of a piece of a split comes from the split string. */
  lemma {:induction false} SplitChars(s: string, sep: char)
    ensures forall p, c :: p in Split(s, sep) && c in p ==> c in s
  {
    if s != [] {
      SplitChars(s[1..], sep);
      var rest := Split(s[1..], sep);
      if s[0] != sep {
        forall p, c | p in Split(s, sep) && c in p ensures c in s {
          if p == [s[0]] + rest[0] && c != s[0] {
            assert c in rest[0];
          } else if p != [s[0]] + rest[0] {
            assert p in rest;
          }
        }
      }
    }
  }

  lemma {:induction false} AllBlank(pieces: seq<string>)
    requires forall p :: p in pieces ==> IsBlank(p)
    ensures NonBlankCount(pieces) == 0
  {
    if pieces != [] {
      assert pieces[0] in pieces;
      AllBlank(pieces[1..]);
    }
  }

  /** A text of white space only counts no words. */
  lemma CountWordsBlank(s: string)
    requires forall i :: 0 <= i < |s| ==> IsPySpace(s[i])
    ensures CountWords(s) == 0
  {
    if s != [] {
      var t := Replace(s, '\n', ' ');
      SplitChars(t, ' ');
      forall p | p in Split(t, ' ') ensures IsBlank(p) {
        forall i | 0 <= i < |p| ensures IsPySpace(p[i]) {
          assert p[i] in t;
        }
      }
      AllBlank(Split(t, ' '));
      NoCjkInBlank(s);
    }
  }

  lemma {:induction false} NoCjkInBlank(s: string)
    requires forall i :: 0 <= i < |s| ==> IsPySpace(s[i])
    ensures CjkCount(s) == 0
  {
    if s != [] {
      NoCjkInBlank(s[1..]);
    }
  }

  lemma {:induction false} AllCjkCount(s: string)
    requires forall i :: 0 <= i < |s| ==> IsCjk(s[i])
    ensures CjkCount(s) == |s|
  {
    if s != [] {
      AllCjkCount(s[1..]);
    }
  }

  /**
   * A run of CJK characters with no space in it is counted once per character
   * and once more as a space-separated word.
   */
  lemma CountWordsCjkRun(s: string)
    requires s != [] && forall i :: 0 <= i < |s| ==> IsCjk(s[i])
    ensures CountWords(s) == |s| + 1
  {
    assert Replace(s, '\n', ' ') == s;
    assert ' ' !in s;
    NoSeparator(s, ' ');
    assert !IsPySpace(s[0]);
    AllCjkCount(s);
  }

  // ---------------------------------------------------------------- JSON input

  /** A parsed JSON value; numbers are integers. */
  datatype JsonValue =
    | JNull
    | JBool(b: bool)
    | JNum(n: int)
    | JStr(s: string)
    | JArray(items: seq<JsonValue>)
    | JObject(fields: map<string, JsonValue>)

  /** Python truthiness of the decoded value. */
  predicate Truthy(v: JsonValue)
  {
    match v
    case JNull => false
    case JBool(b) => b
    case JNum(n) => n != 0
    case JStr(s) => s != ""
    case JArray(items) => items != []
    case JObject(fields) => fields != map[]
  }

  const RequiredFields: seq<string> := ["title", "source_content", "generated_content"]
  const ValidStatuses: seq<string> := ["pending", "in_progress", "completed"]
  const MaxTitleLength: nat := 500

  /** `doc_data.get(field)` is truthy. */
  predicate Present(obj: map<string, JsonValue>, field: string)
  {
    field in obj && Truthy(obj[field])
  }

  /** The title is a string longer than the limit. */
  predicate TitleOverLimit(obj: map<string, JsonValue>)
  {
    "title" in obj && obj["title"].JStr? && |obj["title"].s| > MaxTitleLength
  }

  /** The status is absent (read as "pending") or one of the three valid strings. */
  predicate StatusValid(obj: map<string, JsonValue>)
  {
    "status" !in obj || (obj["status"].JStr? && obj["status"].s in ValidStatuses)
  }

  /** A document object that passes validation. */
  predicate DocumentValid(obj: map<string, JsonValue>)
  {
    && (forall f :: f in RequiredFields ==> Present(obj, f) && obj[f].JStr?)
    && !TitleOverLimit(obj)
    && StatusValid(obj)
  }

  /** One validation failure, as the import prints it. */
  datatype Problem = MissingField(field: string) | NotAString(field: string) | TitleTooLong | InvalidStatus

  /**
   * The loop of `validate_document_data` over the required fields: a field
   * that is missing or falsy, or present but not a string, adds one problem.
   */
  method CheckRequiredFields(obj: map<string, JsonValue>) returns (problems: seq<Problem>)
    ensures forall p :: p in problems ==> p.MissingField? || p.NotAString?
    ensures problems == [] <==> forall f :: f in RequiredFields ==> Present(obj, f) && obj[f].JStr?
    ensures forall f :: f in RequiredFields ==> (MissingField(f) in problems <==> !Present(obj, f))
    ensures forall f :: f in RequiredFields ==> (NotAString(f) in problems <==> Present(obj, f) && !obj[f].JStr?)
  {
    problems := [];
    for k := 0 to |RequiredFields|
      invariant forall p :: p in problems ==> (p.MissingField? || p.NotAString?) && p.field in RequiredFields[..k]
      invariant problems == [] <==> forall j :: 0 <= j < k ==> Present(obj, RequiredFields[j]) && obj[RequiredFields[j]].JStr?
      invariant forall j :: 0 <= j < k ==>
        (MissingField(RequiredFields[j]) in problems <==> !Present(obj, RequiredFields[j]))
      invariant forall j :: 0 <= j < k ==>
        (NotAString(RequiredFields[j]) in problems <==> Present(obj, RequiredFields[j]) && !obj[RequiredFields[j]].JStr?)
    {
      var field := RequiredFields[k];
      assert field in RequiredFields;
      assert forall j :: 0 <= j < k ==> RequiredFields[j] != field;
      if !(field in obj && Truthy(obj[field])) {
        problems := problems + [MissingField(field)];
      } else if !obj[field].JStr? {
        problems := problems + [NotAString(field)];
      }
    }
    assert RequiredFields[..|RequiredFields|] == RequiredFields;
  }

  /**
   * `validate_document_data`: every failed rule adds a problem; the document
   * is valid iff there is none.
   */
  method ValidateDocumentData(obj: map<string, JsonValue>) returns (valid: bool, problems: seq<Problem>)
    ensures valid <==> problems == []
    ensures valid <==> DocumentValid(obj)
    ensures forall f :: f in RequiredFields ==> (MissingField(f) in problems <==> !Present(obj, f))
    ensures forall f :: f in RequiredFields ==> (NotAString(f) in problems <==> Present(obj, f) && !obj[f].JStr?)
    ensures TitleTooLong in problems <==> TitleOverLimit(obj)
    ensures InvalidStatus in problems <==> !StatusValid(obj)
  {
    problems := CheckRequiredFields(obj);
    if "title" in obj && obj["title"].JStr? && |obj["title"].s| > MaxTitleLength {
      problems := problems + [TitleTooLong];
    }
    var status := if "status" in obj then obj["status"] else JStr("pending");
    if !(status.JStr? && status.s in ValidStatuses) {
      problems := problems + [InvalidStatus];
    }
    valid := problems == [];
  }

  /** An element of the input that the import accepts: an object that passes validation. */
  predicate ElementValid(v: JsonValue)
  {
    v.JObject? && DocumentValid(v.fields)
  }

  /** `doc_data.get(field, '')` for a field that holds a string. */
  function StrField(obj: map<string, JsonValue>, field: string): string
  {
    if field in obj && obj[field].JStr? then obj[field].s else ""
  }

  /** `status=doc_data.get('status', 'pending')` of a validated document. */
  function StatusOf(obj: map<string, JsonValue>): (r: DocStatus)
    ensures "status" !in obj ==> r == Pending
    ensures "status" in obj && obj["status"] == JStr("pending") ==> r == Pending
    ensures "status" in obj && obj["status"] == JStr("in_progress") ==> r == InProgress
    ensures "status" in obj && obj["status"] == JStr("completed") ==> r == Completed
  {
    if "status" in obj && obj["status"] == JStr("in_progress") then InProgress
    else if "status" in obj && obj["status"] == JStr("completed") then Completed
    else Pending
  }

  /** `query(User).filter(User.id == id).first()`: the position of the first user with that id. */
  function UserIndex(users: seq<User>, id: int): Option<nat>
  {
    FirstIndex(users, (u: User) => u.id == id)
  }

  /** The assignee of an imported document: kept exactly when it names an existing expert user. */
  function AssigneeOf(users: seq<User>, obj: map<string, JsonValue>): (r: Option<nat>)
    ensures r.Some? ==> "assigned_to" in obj && obj["assigned_to"] == JNum(r.value)
    ensures r.Some? ==> exists u :: u in users && u.id == r.value && u.role == Expert
    ensures "assigned_to" !in obj || obj["assigned_to"] == JNull ==> r.None?
    ensures "assigned_to" in obj && obj["assigned_to"].JNum? && obj["assigned_to"].n >= 0
         && UserIndex(users, obj["assigned_to"].n).Some?
         && users[UserIndex(users, obj["assigned_to"].n).value].role == Expert
         ==> r == Some(obj["assigned_to"].n as nat)
  {
    if "assigned_to" !in obj then None
    else match obj["assigned_to"]
      case JNum(n) =>
        if n < 0 then None
        else (match UserIndex(users, n)
          case None => None
          case Some(i) => if users[i].role == Expert then Some(n as nat) else None)
      case _ => None
  }

  /** The importer's `create_document`: the row built for one validated document. */
  function CreateImportedDocument(users: seq<User>, obj: map<string, JsonValue>, id: nat): (r: Document)
    ensures r.id == id && r.title == StrField(obj, "title")
    ensures r.sourceContent == StrField(obj, "source_content") && r.generatedContent == StrField(obj, "generated_content")
    ensures r.wordCountSource == CountWords(r.sourceContent) && r.wordCountGenerated == CountWords(r.generatedContent)
    ensures r.status == StatusOf(obj) && r.assignedTo == AssigneeOf(users, obj)
  {
    var sourceWordCount := CountWords(StrField(obj, "source_content"));
    var generatedWordCount := CountWords(StrField(obj, "generated_content"));
    Document(id, StrField(obj, "title"), StrField(obj, "source_content"), StrField(obj, "generated_content"),
             StatusOf(obj), AssigneeOf(users, obj), sourceWordCount, generatedWordCount)
  }

  // ---------------------------------------------------------------- import loop

  /** The documents table, the next document id and the two counters, between elements. */
  datatype ImportState = ImportState(documents: seq<Document>, nextId: nat, imported: nat, skipped: nat)

  /** The first stored document with that title. */
  function TitleIndex(docs: seq<Document>, title: string): Option<nat>
  {
    FirstIndex(docs, (d: Document) => d.title == title)
  }

  function Append(s: ImportState, doc: Document): ImportState
  {
    ImportState(s.documents + [doc], s.nextId + 1, s.imported + 1, s.skipped)
  }

  /**
   * Some annotation record refers to the document with this id. The document
   * model declares its records without a delete cascade, so deleting such a
   * document sets each record's `document_id` to NULL, which the records
   * table refuses (backend/app/models/document.py:20,
   * backend/app/models/annotation.py:10).
   */
  predicate HasRecords(anns: seq<Annotation>, id: nat)
  {
    exists a :: a in anns && a.documentId == id
  }

  /**
   * Adding a built document whose title is `title`: added with the next id
   * when the title is free. A taken title is skipped when `overwrite` is off.
   * With `overwrite` on, the first document with that title is deleted and the
   * new one added; when that document has annotation records the delete fails,
   * the element is rolled back and counted as skipped, and the old document
   * stays.
   */
  function Place(s: ImportState, anns: seq<Annotation>, title: string, doc: Document, overwrite: bool): ImportState
  {
    match TitleIndex(s.documents, title)
    case None => Append(s, doc)
    case Some(i) =>
      if !overwrite || HasRecords(anns, s.documents[i].id) then s.(skipped := s.skipped + 1)
      else Append(s.(documents := s.documents[..i] + s.documents[i + 1..]), doc)
  }

  /**
   * With overwrite on, a taken title is refused, leaving everything but the
   * skipped count as it was, exactly when its document has annotation records.
   */
  lemma OverwriteRefusedOnRecords(s: ImportState, anns: seq<Annotation>, title: string, doc: Document)
    requires TitleIndex(s.documents, title).Some?
    ensures var taken := s.documents[TitleIndex(s.documents, title).value];
      Place(s, anns, title, doc, true) == s.(skipped := s.skipped + 1) <==> HasRecords(anns, taken.id)
  {
  }

  /** One element of the import: skipped when invalid, otherwise built and placed. */
  function Step(s: ImportState, users: seq<User>, anns: seq<Annotation>, v: JsonValue, overwrite: bool): ImportState
  {
    if !ElementValid(v) then s.(skipped := s.skipped + 1)
    else Place(s, anns, StrField(v.fields, "title"), CreateImportedDocument(users, v.fields, s.nextId), overwrite)
  }

  /** The elements in order, one step each. */
  function Fold(s: ImportState, users: seq<User>, anns: seq<Annotation>, items: seq<JsonValue>, overwrite: bool): ImportState
  {
    if items == [] then s
    else Step(Fold(s, users, anns, items[..|items| - 1], overwrite), users, anns, items[|items| - 1], overwrite)
  }

  /** Every element is either imported or skipped. */
  lemma {:induction false} FoldCounts(s: ImportState, users: seq<User>, anns: seq<Annotation>, items: seq<JsonValue>, overwrite: bool)
    ensures var t := Fold(s, users, anns, items, overwrite);
      t.imported + t.skipped == s.imported + s.skipped + |items|
  {
    if items != [] {
      FoldCounts(s, users, anns, items[..|items| - 1], overwrite);
    }
  }

  /** With overwrite off, a taken title is skipped and nothing else changes. */
  lemma TakenTitleSkipped(s: ImportState, anns: seq<Annotation>, title: string, doc: Document)
    requires TitleIndex(s.documents, title).Some?
    ensures Place(s, anns, title, doc, false) == s.(skipped := s.skipped + 1)
  {
  }

  /**
   * No record refers to a document of the state or to an id the import has
   * yet to hand out: no overwrite can then be refused.
   */
  predicate Unreferenced(anns: seq<Annotation>, s: ImportState)
  {
    && (forall i :: 0 <= i < |s.documents| ==> !HasRecords(anns, s.documents[i].id))
    && (forall a :: a in anns ==> a.documentId < s.nextId)
  }

  /** With overwrite on and no records in the way, a placed document is always imported. */
  lemma PlaceUnreferenced(s: ImportState, anns: seq<Annotation>, title: string, doc: Document)
    requires Unreferenced(anns, s) && doc.id == s.nextId
    ensures Place(s, anns, title, doc, true).imported == s.imported + 1
    ensures Place(s, anns, title, doc, true).skipped == s.skipped
    ensures Unreferenced(anns, Place(s, anns, title, doc, true))
  {
    var kept := match TitleIndex(s.documents, title)
      case None => s.documents
      case Some(i) => s.documents[..i] + s.documents[i + 1..];
    assert forall d :: d in kept ==> d in s.documents;
    var docs' := kept + [doc];
    assert Place(s, anns, title, doc, true).documents == docs';
    forall i | 0 <= i < |docs'| ensures !HasRecords(anns, docs'[i].id) {
      if i < |kept| {
        assert docs'[i] in s.documents;
      }
    }
  }

  /**
   * With overwrite on, every valid element is imported, provided no record
   * refers to a document the import could overwrite.
   */
  lemma {:induction false} FoldOverwriteImportsAll(s: ImportState, users: seq<User>, anns: seq<Annotation>, items: seq<JsonValue>)
    requires forall i :: 0 <= i < |items| ==> ElementValid(items[i])
    requires Unreferenced(anns, s)
    ensures Fold(s, users, anns, items, true).imported == s.imported + |items|
    ensures Fold(s, users, anns, items, true).skipped == s.skipped
    ensures Unreferenced(anns, Fold(s, users, anns, items, true))
  {
    if items != [] {
      var prev := Fold(s, users, anns, items[..|items| - 1], true);
      FoldOverwriteImportsAll(s, users, anns, items[..|items| - 1]);
      var v := items[|items| - 1];
      PlaceUnreferenced(prev, anns, StrField(v.fields, "title"), CreateImportedDocument(users, v.fields, prev.nextId));
    }
  }

  /** Document ids are unique and below the next id. */
  predicate IdsFresh(docs: seq<Document>, nextId: nat)
  {
    UniqueDocumentIds(docs) && forall i :: 0 <= i < |docs| ==> docs[i].id < nextId
  }

  lemma RemoveKeepsIdsFresh(docs: seq<Document>, i: nat, nextId: nat)
    requires i < |docs| && IdsFresh(docs, nextId)
    ensures IdsFresh(docs[..i] + docs[i + 1..], nextId)
  {
    var kept := docs[..i] + docs[i + 1..];
    forall a, b | 0 <= a < b < |kept| ensures kept[a].id != kept[b].id {
      var a' := if a < i then a else a + 1;
      var b' := if b < i then b else b + 1;
      assert kept[a] == docs[a'] && kept[b] == docs[b'];
    }
  }

  lemma PlaceKeepsIdsFresh(s: ImportState, anns: seq<Annotation>, title: string, doc: Document, overwrite: bool)
    requires IdsFresh(s.documents, s.nextId) && doc.id == s.nextId
    ensures IdsFresh(Place(s, anns, title, doc, overwrite).documents, Place(s, anns, title, doc, overwrite).nextId)
  {
    var i := TitleIndex(s.documents, title);
    if i.Some? && overwrite {
      RemoveKeepsIdsFresh(s.documents, i.value, s.nextId);
    }
  }

  lemma StepKeepsIdsFresh(s: ImportState, users: seq<User>, anns: seq<Annotation>, v: JsonValue, overwrite: bool)
    requires IdsFresh(s.documents, s.nextId)
    ensures IdsFresh(Step(s, users, anns, v, overwrite).documents, Step(s, users, anns, v, overwrite).nextId)
  {
    if ElementValid(v) {
      PlaceKeepsIdsFresh(s, anns, StrField(v.fields, "title"), CreateImportedDocument(users, v.fields, s.nextId), overwrite);
    }
  }

  lemma {:induction false} FoldKeepsIdsFresh(s: ImportState, users: seq<User>, anns: seq<Annotation>, items: seq<JsonValue>, overwrite: bool)
    requires IdsFresh(s.documents, s.nextId)
    ensures IdsFresh(Fold(s, users, anns, items, overwrite).documents, Fold(s, users, anns, items, overwrite).nextId)
  {
    if items != [] {
      FoldKeepsIdsFresh(s, users, anns, items[..|items| - 1], overwrite);
      StepKeepsIdsFresh(Fold(s, users, anns, items[..|items| - 1], overwrite), users, anns, items[|items| - 1], overwrite);
    }
  }

  /** No two documents share a title. */
  predicate UniqueTitles(docs: seq<Document>)
  {
    forall i, j :: 0 <= i < j < |docs| ==> docs[i].title != docs[j].title
  }

  lemma PlaceKeepsTitlesUnique(s: ImportState, anns: seq<Annotation>, title: string, doc: Document, overwrite: bool)
    requires UniqueTitles(s.documents) && doc.title == title
    ensures UniqueTitles(Place(s, anns, title, doc, overwrite).documents)
  {
    match TitleIndex(s.documents, title)
    case None =>
      var docs' := s.documents + [doc];
      forall a, b | 0 <= a < b < |docs'| ensures docs'[a].title != docs'[b].title {
        if b == |s.documents| {
          assert docs'[a] == s.documents[a];
        }
      }
    case Some(i) =>
      if overwrite {
        var docs := s.documents;
        var kept := docs[..i] + docs[i + 1..];
        var docs' := kept + [doc];
        forall a, b | 0 <= a < b < |docs'| ensures docs'[a].title != docs'[b].title {
          var a' := if a < i then a else a + 1;
          assert docs'[a] == docs[a'];
          if b < |kept| {
            var b' := if b < i then b else b + 1;
            assert docs'[b] == docs[b'];
          } else {
            assert docs[i].title == title;
            assert a' != i;
          }
        }
      }
  }

  /**
   * An import step never gives a title a second document, with or without
   * overwrite: a taken title is either skipped or has its document replaced.
   */
  lemma StepKeepsTitlesUnique(s: ImportState, users: seq<User>, anns: seq<Annotation>, v: JsonValue, overwrite: bool)
    requires UniqueTitles(s.documents)
    ensures UniqueTitles(Step(s, users, anns, v, overwrite).documents)
  {
    if ElementValid(v) {
      PlaceKeepsTitlesUnique(s, anns, StrField(v.fields, "title"), CreateImportedDocument(users, v.fields, s.nextId), overwrite);
    }
  }

  lemma {:induction false} FoldKeepsTitlesUnique(s: ImportState, users: seq<User>, anns: seq<Annotation>, items: seq<JsonValue>, overwrite: bool)
    requires UniqueTitles(s.documents)
    ensures UniqueTitles(Fold(s, users, anns, items, overwrite).documents)
  {
    if items != [] {
      FoldKeepsTitlesUnique(s, users, anns, items[..|items| - 1], overwrite);
      StepKeepsTitlesUnique(Fold(s, users, anns, items[..|items| - 1], overwrite), users, anns, items[|items| - 1], overwrite);
    }
  }

  /** A document that names an assignee names an existing expert. */
  predicate AssignedToExpert(d: Document, users: seq<User>)
  {
    d.assignedTo.Some? ==> exists u :: u in users && u.id == d.assignedTo.value && u.role == Expert
  }

  /** Placing a document adds no document but that one. */
  lemma PlaceAddsOnly(s: ImportState, anns: seq<Annotation>, title: string, doc: Document, overwrite: bool)
    ensures forall d :: d in Place(s, anns, title, doc, overwrite).documents ==> d in s.documents || d == doc
  {
    var i := TitleIndex(s.documents, title);
    if i.Some? && overwrite {
      var docs := s.documents;
      forall d | d in docs[..i.value] + docs[i.value + 1..] ensures d in docs {
        if d in docs[..i.value] { assert d in docs; } else { assert d in docs[i.value + 1..]; }
      }
    }
  }

  /** Every document an import adds is unassigned or assigned to an expert. */
  lemma {:induction false} FoldAssignsOnlyExperts(s: ImportState, users: seq<User>, anns: seq<Annotation>, items: seq<JsonValue>, overwrite: bool)
    ensures forall d :: d in Fold(s, users, anns, items, overwrite).documents ==> d in s.documents || AssignedToExpert(d, users)
  {
    if items != [] {
      var prev := Fold(s, users, anns, items[..|items| - 1], overwrite);
      FoldAssignsOnlyExperts(s, users, anns, items[..|items| - 1], overwrite);
      var v := items[|items| - 1];
      if ElementValid(v) {
        PlaceAddsOnly(prev, anns, StrField(v.fields, "title"), CreateImportedDocument(users, v.fields, prev.nextId), overwrite);
      }
    }
  }

  /** The documents of the input: an object is one document, an array its elements, anything else none. */
  function Elements(data: JsonValue): (r: seq<JsonValue>)
    ensures data.JObject? ==> r == [data]
    ensures data.JArray? ==> r == data.items
  {
    match data
    case JObject(_) => [data]
    case JArray(items) => items
    case _ => []
  }

  /**
   * The table update of one accepted element: a taken title is skipped, or
   * with overwrite its first document is deleted, unless records refer to it,
   * in which case the element is skipped; the document is then appended and
   * the next id advances.
   */
  method PlaceDocument(db: Db, title: string, doc: Document, overwrite: bool, imported: nat, skipped: nat)
    returns (imported': nat, skipped': nat)
    requires db.Valid() && doc.id == db.nextDocumentId
    modifies db
    ensures db.Valid()
    ensures ImportState(db.documents, db.nextDocumentId, imported', skipped')
         == Place(ImportState(old(db.documents), old(db.nextDocumentId), imported, skipped), db.annotations, title, doc, overwrite)
    ensures db.annotations == old(db.annotations) && db.users == old(db.users)
    ensures db.nextAnnotationId == old(db.nextAnnotationId)
  {
    ghost var before := ImportState(db.documents, db.nextDocumentId, imported, skipped);
    PlaceKeepsIdsFresh(before, db.annotations, title, doc, overwrite);
    var existing := TitleIndex(db.documents, title);
    if existing.Some? {
      var i := existing.value;
      if !overwrite || HasRecords(db.annotations, db.documents[i].id) {
        assert Place(before, db.annotations, title, doc, overwrite) == before.(skipped := skipped + 1);
        return imported, skipped + 1;
      }
      db.documents := db.documents[..i] + db.documents[i + 1..];
    }
    db.documents := db.documents + [doc];
    db.nextDocumentId := db.nextDocumentId + 1;
    return imported + 1, skipped;
  }

  /**
   * One pass of the import loop: a non-object or invalid element is skipped;
   * otherwise its row is built under the next id (a deletion for overwrite
   * does not change that id) and placed.
   */
  method ImportElement(db: Db, docData: JsonValue, overwrite: bool, imported: nat, skipped: nat)
    returns (imported': nat, skipped': nat)
    requires db.Valid()
    modifies db
    ensures db.Valid()
    ensures ImportState(db.documents, db.nextDocumentId, imported', skipped')
         == Step(ImportState(old(db.documents), old(db.nextDocumentId), imported, skipped), db.users, db.annotations, docData, overwrite)
    ensures db.annotations == old(db.annotations) && db.users == old(db.users)
    ensures db.nextAnnotationId == old(db.nextAnnotationId)
  {
    if !docData.JObject? {
      return imported, skipped + 1;
    }
    var valid, _ := ValidateDocumentData(docData.fields);
    if !valid {
      return imported, skipped + 1;
    }
    var doc := CreateImportedDocument(db.users, docData.fields, db.nextDocumentId);
    imported', skipped' := PlaceDocument(db, StrField(docData.fields, "title"), doc, overwrite, imported, skipped);
  }

  /**
   * `import_documents_from_json`, on the parsed file (None: the file could not
   * be read or parsed). Returns the number of imported documents.
   */
  method ImportDocumentsFromJson(db: Db, data: Option<JsonValue>, overwrite: bool) returns (imported: nat)
    requires db.Valid()
    modifies db
    ensures db.Valid()
    ensures data.None? ==> imported == 0 && db.documents == old(db.documents) && db.nextDocumentId == old(db.nextDocumentId)
    ensures data.Some? ==>
      var t := Fold(ImportState(old(db.documents), old(db.nextDocumentId), 0, 0), db.users, db.annotations, Elements(data.value), overwrite);
      db.documents == t.documents && db.nextDocumentId == t.nextId && imported == t.imported
    ensures db.annotations == old(db.annotations) && db.users == old(db.users)
    ensures db.nextAnnotationId == old(db.nextAnnotationId)
  {
    if data.None? {
      return 0;
    }
    var documentsData := Elements(data.value);
    ghost var init := ImportState(db.documents, db.nextDocumentId, 0, 0);
    imported := 0;
    var skipped := 0;
    for k := 0 to |documentsData|
      invariant db.Valid()
      invariant ImportState(db.documents, db.nextDocumentId, imported, skipped)
             == Fold(init, db.users, db.annotations, documentsData[..k], overwrite)
      invariant db.annotations == old(db.annotations) && db.users == old(db.users)
      invariant db.nextAnnotationId == old(db.nextAnnotationId)
    {
      assert documentsData[..k + 1][..k] == documentsData[..k];
      imported, skipped := ImportElement(db, documentsData[k], overwrite, imported, skipped);
    }
    assert documentsData[..|documentsData|] == documentsData;
  }

  /** The elements `validate_json_file` checks: an array's elements, or the root itself. */
  function FileElements(data: JsonValue): (r: seq<JsonValue>)
    ensures data.JArray? ==> r == data.items
    ensures !data.JArray? ==> r == [data]
  {
    if data.JArray? then data.items else [data]
  }

  /** `validate_json_file`: true iff the file parses and every element is a valid document object. */
  method ValidateJsonFile(data: Option<JsonValue>) returns (allValid: bool)
    ensures allValid <==> data.Some? && forall v :: v in FileElements(data.value) ==> ElementValid(v)
  {
    if data.None? {
      return false;
    }
    var documentsData := FileElements(data.value);
    allValid := true;
    for k := 0 to |documentsData|
      invariant allValid <==> forall j :: 0 <= j < k ==> ElementValid(documentsData[j])
    {
      var docData := documentsData[k];
      if !docData.JObject? {
        allValid := false;
        continue;
      }
      var valid, _ := ValidateDocumentData(docData.fields);
      if !valid {
        allValid := false;
      }
    }
  }

  /**
   * A file that passes `validate_json_file` and whose root is an array or an
   * object is imported in full when overwrite is on and no record refers to a
   * document the import could overwrite.
   */
  lemma ValidatedFileImportsAll(s: ImportState, users: seq<User>, anns: seq<Annotation>, data: JsonValue)
    requires data.JArray? || data.JObject?
    requires forall v :: v in FileElements(data) ==> ElementValid(v)
    requires Unreferenced(anns, s)
    ensures Fold(s, users, anns, Elements(data), true).imported == s.imported + |Elements(data)|
  {
    assert Elements(data) == FileElements(data);
    FoldOverwriteImportsAll(s, users, anns, Elements(data));
  }
}

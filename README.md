# Label platform core, modelled in Dafny

This project models the core of a document-annotation ("label") platform. The backend
stores documents, users and annotation records. Each record belongs to one document and
one annotator and holds:

- an evaluation: good or bad;
- a list of comments on selected passages;
- the time spent;
- a completion flag.

What the model covers:

- **Annotation service.** An annotator saves a record; a second save updates it. Every
  save recomputes the document's status: `pending`, `in_progress` or `completed`.
- **Document service.** Listings are scoped by role and labelled with an annotation
  status ("未标注", "进行中", "已标注"). Admins assign documents to experts.
- **Statistics service.** Counts and rates over the whole store and per expert.
- **HTTP layer.** It converts incoming comments, answers "no record yet" with an empty
  draft, and keeps two views for admins only. It also folds the caller's own record
  into the document response.
- **Import script.** It validates a JSON file of documents, counts words, and imports
  the documents with optional overwrite by title.
- **Front end.** The annotation page edits a local draft, posts it, and reloads it. The
  layout builds breadcrumbs from the current path.

One Dafny module per source file:

| module | file |
|---|---|
| `Types` | the shared records (`User`, `Document`, `Annotation`, `CommentItem`), `Option`/`Result` |
| `Strings` | `split`/`join` on one character, Python `strip` and JavaScript `trim` white space |
| `Store` | class `Db`: the three tables as sequences, the two auto-increment counters, key lookups |
| `AnnotationService` | backend/app/services/annotation.py |
| `DocumentService` | backend/app/services/document.py |
| `StatsService` | backend/app/services/stats.py |
| `AnnotationsApi` | backend/app/api/annotations.py |
| `DocumentsApi` | backend/app/api/documents.py |
| `ImportDocuments` | backend/import_documents.py |
| `AnnotationPage` | frontend/src/pages/AnnotationPage.tsx |
| `AppLayout` | frontend/src/components/AppLayout.tsx (breadcrumbs) |

How the model is shaped:

- **The store.** The database session is an object `Db` whose fields the service
  methods reassign. Each such method's `ensures` gives the new tables as a function of
  the old ones, for example `db.annotations == Upsert(old(db.annotations), saved)`.
  Lemmas about those functions carry the promises: one record per key, put-then-get,
  statuses agreeing with records, and nothing else changing.
- **Stored comments.** The comments column is modelled as `Encoded(items)` (what every
  write stores), `Absent`, or `Malformed(text)`. This keeps the three ways the code
  reads it apart:
  - `get_user_annotation` and the admin view raise on text that is not JSON;
  - `read_document` falls back to an empty list.
- **Loops.** Where the source loops, the model loops too, with its invariants.

Three points about the code that the model makes explicit:

- **Document status.** `update_document_status` marks a document `completed` only when
  every record of it is completed (backend/app/services/annotation.py:84-89). The
  statistics count a document as annotated once one of its records is completed
  (backend/app/services/stats.py:12-14). The two rules disagree on a document with one
  completed and one open record. `StatsService.CountedButInProgress` exhibits such a
  document: counted as annotated while its status is in progress.
- **Public listing.** `read_documents` calls the listing without the caller's id or
  role. The listing is therefore the window of unassigned documents, whoever asks
  (`DocumentsApi.ReadDocuments`).
- **Annotation writes.** `save_annotation` saves the caller's record on any existing
  or unknown document id. It does not check that the document is assigned to the
  caller (backend/app/api/annotations.py:20-45).

## Model

| member | source | states |
|---|---|---|
| `Types.DecodeComments` | backend/app/api/annotations.py:59 | decoding fails exactly on text that is not JSON; an empty column decodes to no comments, a written one to its items |
| `Store.GetDocument` | backend/app/services/document.py:73-74 | the result is a stored document with that id; None exactly when no document has it |
| `Store.GetAnnotation` | backend/app/services/annotation.py:52-56 | the result is a stored record of that (document, annotator) pair; None exactly when there is none |
| `AnnotationService.OfDocument` | backend/app/services/annotation.py:58-59 | exactly the records whose document id matches |
| `AnnotationService.OfDocumentInOrder` | backend/app/services/annotation.py:58-59 | the filter distributes over concatenation and keeps a single matching record, so the records keep their store order |
| `AnnotationService.OfAnnotator` | backend/app/services/annotation.py:61-62 | exactly the records whose annotator id matches |
| `AnnotationService.OfAnnotatorInOrder` | backend/app/services/annotation.py:61-62 | the filter distributes over concatenation and keeps a single matching record, so the records keep their store order |
| `AnnotationService.CountCompletedCounts` | backend/app/services/annotation.py:75-79 | the completed count is the number of positions holding a completed record |
| `AnnotationService.CountCompletedAll` | backend/app/services/annotation.py:75-79 | the completed count is at most the total, and equal to it iff every record is completed |
| `AnnotationService.DerivedStatusMeaning` | backend/app/services/annotation.py:84-89 | derived status is pending iff the document has no records, completed iff it has some and all are completed, in_progress iff one is not completed |
| `AnnotationService.UpsertAt` | backend/app/services/annotation.py:18-45 | a save replaces the record with the saved key in place, or appends one record when the key is new |
| `AnnotationService.UpsertThenGet` | backend/app/services/annotation.py:18-45 | after a save, looking up its key returns exactly the saved record |
| `AnnotationService.UpsertOthers` | backend/app/services/annotation.py:18-45 | records under any other key are present after a save iff they were before |
| `AnnotationService.UpsertOtherDocument` | backend/app/services/annotation.py:18-48 | the records of every other document are unchanged by a save |
| `AnnotationService.UpsertValid` | backend/app/services/annotation.py:18-45 | a save keeps at most one record per (document, annotator) and keeps record ids unique and below the next id |
| `AnnotationService.SetStatusChangesOnlyStatus` | backend/app/services/annotation.py:82-89 | writing one document's status changes no other document and no other field |
| `AnnotationService.UpdateDocumentStatus` | backend/app/services/annotation.py:72-94 | the document's status becomes the status derived from its records; an unknown id changes nothing; returns the document or None |
| `AnnotationService.PutAnnotation` | backend/app/services/annotation.py:18-45 | an existing record of the key keeps its id, takes the new evaluation, comments and completion and adds the time; otherwise a new record takes the next id and the counter advances; the store is the old one with the saved record upserted, documents and users untouched; keys stay unique |
| `AnnotationService.CreateOrUpdateAnnotation` | backend/app/services/annotation.py:8-50 | an update keeps the record id, replaces evaluation, comments and completion and adds to the time; a create takes the next id with exactly the given values; absent comments are stored as an empty list; the document's status is then recomputed; keys stay unique |
| `AnnotationService.SaveKeepsStatusesAgreeing` | backend/app/services/annotation.py:48 | if every document's status agreed with its records before a save, every status agrees after it |
| `AnnotationService.SavedDocumentStatus` | backend/app/services/annotation.py:84-89 | a save never leaves its document pending, and a draft save leaves it in progress |
| `AnnotationService.RepeatedSave` | backend/app/services/annotation.py:25-30 | repeating an identical save leaves the records unchanged iff the added time is zero |
| `AnnotationService.UpdateAnnotationTime` | backend/app/services/annotation.py:64-70 | adds to the time of the record with that id; an unknown id changes nothing and returns None; statuses keep agreeing |
| `AnnotationService.TimeChangeKeepsCounts` | backend/app/services/annotation.py:67 | changing a record's time changes no document's record count or completed count |
| `DocumentService.Filtered` | backend/app/services/document.py:34-38 | a non-admin sees exactly the unassigned documents and their own |
| `DocumentService.FilteredInOrder` | backend/app/services/document.py:31-38 | the role filter distributes over concatenation and keeps a single visible document, so the listing keeps the store order |
| `DocumentService.WindowSpec` | backend/app/services/document.py:36-38 | the window has at most `limit` entries, entry i is entry skip+i of the filtered list, and it is cut short only by the end of the list |
| `DocumentService.AdminSeesAll` | backend/app/services/document.py:31-33 | the admin filter keeps every document |
| `DocumentService.ListLabelMatchesStatus` | backend/app/services/document.py:44-56 | the listing label is "未标注" iff the document has no records, "已标注" iff all are completed, "进行中" otherwise, matching the stored status rule |
| `DocumentService.GetDocuments` | backend/app/services/document.py:25-71 | one row per document of the window, in order, each with its count-derived label; at most `limit` rows |
| `DocumentService.PublicListing` | backend/app/api/documents.py:28-35 | the listing without a user and a role lists only stored unassigned documents, and an unbounded window from the start lists every unassigned document |
| `DocumentService.NonAdminListing` | backend/app/services/document.py:34-38 | without the admin role every listed document is unassigned or the caller's, and every such document is in the filtered list |
| `DocumentService.CheckDocumentPermission` | backend/app/services/document.py:76-91 | unknown document: refused with None; admin: always allowed; others: allowed iff the document is unassigned or theirs |
| `DocumentService.PermissionMatchesListing` | backend/app/services/document.py:76-91 | the permission holds iff the document exists and the caller's listing filter keeps it |
| `DocumentService.AssignDocument` | backend/app/services/document.py:93-102 | sets (None clears) the assignee of that document and nothing else; an unknown id changes nothing and returns None |
| `DocumentService.OwnLabelMeaning` | backend/app/services/document.py:116 | the per-user label is "未标注" iff the user has no record, "已标注" iff the user's record is completed |
| `DocumentService.AssignedTo` | backend/app/services/document.py:106 | exactly the documents assigned to that user |
| `DocumentService.AssignedToInOrder` | backend/app/services/document.py:106 | the assignee filter distributes over concatenation and keeps a single assigned document, so the documents keep their store order |
| `DocumentService.GetUserDocuments` | backend/app/services/document.py:104-130 | only documents assigned to the user, windowed, each labelled from that user's own record |
| `DocumentService.GetDocumentWithAnnotation` | backend/app/services/document.py:132-146 | None for an unknown document; otherwise the document with the caller's own record, None when absent |
| `DocumentService.CreateAsWrittenAlwaysFails` | backend/app/services/document.py:16 | as written, document creation fails on every request (see Findings) |
| `DocumentService.CreateDocument` | backend/app/services/document.py:7-23 | a created document is new, unassigned and pending, takes the next id, and its word counts are the lengths of its two texts |
| `DocumentService.CreatedDocumentVisible` | backend/app/services/document.py:12-19 | a created document passes every caller's listing filter |
| `StatsService.CompletedDocumentIds` | backend/app/services/stats.py:12-14 | exactly the distinct ids of stored documents with a completed record; never more than the number of documents |
| `StatsService.PositiveCountCounts` | backend/app/services/stats.py:17 | the positive count is the number of positions holding a positive record |
| `StatsService.RateBounds` | backend/app/services/stats.py:19-22 | a guarded rate lies in [0, 100], is 0 for an empty whole and 100 for the whole itself |
| `StatsService.GetAnnotationStats` | backend/app/services/stats.py:7-29 | total is the document count; annotated is the number of distinct documents with a completed record, at most the total; the positive rate is the guarded rate of positive records among all records; the completion rate is the guarded rate of annotated among all documents |
| `StatsService.CompletedStatusIsCounted` | backend/app/services/stats.py:12-14 | every document whose derived status is completed is counted as annotated |
| `StatsService.CountedButInProgress` | backend/app/services/stats.py:12-14 | a document with one completed and one open record is counted as annotated while in progress |
| `StatsService.TotalTimeNonNegative` | backend/app/services/stats.py:49-51 | the total time of non-negative times is non-negative |
| `StatsService.GetUserStats` | backend/app/services/stats.py:31-57 | the completed count is the number of the user's completed records; the positive rate is the guarded rate of the user's positive records among theirs; minutes × 60 is the summed time of their records; all zero without records |
| `StatsService.Experts` | backend/app/services/stats.py:60 | exactly the users with the expert role |
| `StatsService.ExpertsInOrder` | backend/app/services/stats.py:60 | the role filter distributes over concatenation and keeps a single expert, so the experts keep their store order |
| `StatsService.GetAllUserStats` | backend/app/services/stats.py:59-70 | one row per expert, in order, including experts with no records, each with that expert's statistics |
| `AnnotationsApi.ParseSaveRequest` | backend/app/api/annotations.py:12-16 | a request without an evaluation is refused; missing comments, time and completion default to none, 0 and false |
| `AnnotationsApi.ConvertComment` | backend/app/api/annotations.py:32-33 | a comment converts iff its text is a string; a missing text key is a KeyError |
| `AnnotationsApi.SelectionRule` | backend/app/api/annotations.py:32 | the selection is the "selection" value if a non-empty string, else the "range" value, else "" |
| `AnnotationsApi.ConvertComments` | backend/app/api/annotations.py:28-33 | one item per incoming comment, same order, or the error of the first comment without string text |
| `AnnotationsApi.SaveAnnotation` | backend/app/api/annotations.py:20-45 | a failed conversion changes nothing and reports the error of the first comment without string text; otherwise the caller's record holds the converted comments; an existing record keeps its id, adds the request's time to its own and leaves the id counter alone; a new record takes the next id with the request's time and advances the counter; the record's id is returned |
| `AnnotationsApi.GetUserAnnotation` | backend/app/api/annotations.py:47-66 | no record: evaluation None and no comments; otherwise the stored evaluation, time, completion and decoded comments; undecodable comments fail |
| `AnnotationsApi.SaveThenRead` | backend/app/api/annotations.py:53-66 | reading right after a save returns exactly the saved values and comments |
| `AnnotationsApi.EvaluationText` | backend/app/api/annotations.py:89 | the text is "好" exactly for a positive evaluation and "不好" otherwise |
| `AnnotationsApi.GetDocumentAllAnnotations` | backend/app/api/annotations.py:68-96 | non-admins get 403; admins get one row per record of the document, in order, whose evaluation text is "好" for a positive record and "不好" for a negative one |
| `DocumentsApi.CreateNewDocument` | backend/app/api/documents.py:13-26 | non-admins get 403 and nothing changes; an admin's request runs the corrected `DocumentService.CreateDocument` (as written it always fails, see Findings) and creates one pending, unassigned document |
| `DocumentsApi.ReadDocuments` | backend/app/api/documents.py:28-35 | every listed row is an unassigned document; with an unbounded window every unassigned document is listed |
| `DocumentsApi.CommentsOrEmpty` | backend/app/api/documents.py:67-70 | decodable comments are kept; undecodable or missing ones read as an empty list |
| `DocumentsApi.ReadDocument` | backend/app/api/documents.py:37-82 | 404 exactly for an unknown id; otherwise the stored document fields, the caller's label, and the caller's record when there is one |
| `DocumentsApi.ReadDocumentAgreesWithUserAnnotation` | backend/app/api/documents.py:63-78 | the document response carries the record's evaluation, comments and time, and empty comments where the record's are undecodable |
| `DocumentsApi.ReadDocumentAfterSave` | backend/app/api/documents.py:72-78 | after a save the response shows the saved values, labelled "已标注" or "进行中" as the save was final or a draft |
| `ImportDocuments.CjkCount` | backend/import_documents.py:28 | the CJK count never exceeds the length |
| `ImportDocuments.NonBlankCount` | backend/import_documents.py:29 | the non-blank count never exceeds the number of pieces |
| `ImportDocuments.CountWords` | backend/import_documents.py:23-30 | the empty text counts 0 |
| `ImportDocuments.CountWordsIsFormula` | backend/import_documents.py:25-29 | the early exit agrees with the counting formula |
| `ImportDocuments.CountWordsAppend` | backend/import_documents.py:28-30 | two texts joined by a space count as many words as the two apart |
| `ImportDocuments.CountWordsBlank` | backend/import_documents.py:29 | a text of white space only counts 0 |
| `ImportDocuments.CountWordsCjkRun` | backend/import_documents.py:28-29 | a run of n CJK characters counts n + 1 (each character, plus once as a space-separated word) |
| `ImportDocuments.CheckRequiredFields` | backend/import_documents.py:38-43 | a required field that is missing or falsy is reported as missing, one present but not a string as not a string, and nothing is reported iff every required field is a present string |
| `ImportDocuments.ValidateDocumentData` | backend/import_documents.py:33-62 | valid iff no problem; each rule (required field missing or falsy, not a string, title over 500, bad status) is reported iff it fails |
| `ImportDocuments.StatusOf` | backend/import_documents.py:88 | an absent status is pending; a given "pending", "in_progress" or "completed" is kept |
| `ImportDocuments.AssigneeOf` | backend/import_documents.py:72-81 | an assignee is kept exactly when it names an existing expert user; null, absent, unknown or non-expert gives none |
| `ImportDocuments.CreateImportedDocument` | backend/import_documents.py:65-94 | the row takes the given id, texts and status (kept when given, pending when absent), the assignee exactly when it names an existing expert, and word counts by `count_words` |
| `ImportDocuments.FoldCounts` | backend/import_documents.py:132-166 | every element is either imported or skipped |
| `ImportDocuments.OverwriteRefusedOnRecords` | backend/import_documents.py:146-148 | with overwrite on, a taken title is refused, with only the skipped count changing, exactly when annotation records refer to its document |
| `ImportDocuments.TakenTitleSkipped` | backend/import_documents.py:149-152 | with overwrite off, a taken title is skipped: only the skipped count changes |
| `ImportDocuments.PlaceUnreferenced` | backend/import_documents.py:143-161 | with overwrite on and no record referring to a stored document or to an id still to be handed out, a placed document is imported and that condition still holds |
| `ImportDocuments.FoldOverwriteImportsAll` | backend/import_documents.py:143-161 | with overwrite on and no record referring to a document the import could overwrite, every valid element is imported and none skipped |
| `ImportDocuments.StepKeepsIdsFresh` | backend/import_documents.py:147-158 | a step keeps document ids unique and below the next id |
| `ImportDocuments.FoldKeepsIdsFresh` | backend/import_documents.py:132-166 | the whole import keeps document ids unique and below the next id |
| `ImportDocuments.StepKeepsTitlesUnique` | backend/import_documents.py:143-152 | a step never gives a title a second document: taken titles are skipped or replaced |
| `ImportDocuments.FoldKeepsTitlesUnique` | backend/import_documents.py:132-166 | an import into a store with unique titles leaves titles unique |
| `ImportDocuments.FoldAssignsOnlyExperts` | backend/import_documents.py:72-81 | every document an import adds is unassigned or assigned to an expert |
| `ImportDocuments.Elements` | backend/import_documents.py:124-130 | a root object is one document, a root array its elements |
| `ImportDocuments.PlaceDocument` | backend/import_documents.py:143-161 | a taken title is skipped; with overwrite its first document is deleted before the new row is appended under the next id, unless annotation records refer to it, in which case the element is skipped and the table unchanged; ids stay unique |
| `ImportDocuments.ImportElement` | backend/import_documents.py:136-166 | one pass of the loop performs exactly one import step: non-objects and invalid documents are skipped, the rest are placed |
| `ImportDocuments.ImportDocumentsFromJson` | backend/import_documents.py:97-169 | an unreadable file imports nothing and leaves the store and its id counter unchanged; otherwise the store and the returned count are those of the element-by-element import |
| `ImportDocuments.FileElements` | backend/import_documents.py:190 | an array's elements, or the root itself |
| `ImportDocuments.ValidateJsonFile` | backend/import_documents.py:184-215 | true iff the file parses and every element is an object that passes validation |
| `ImportDocuments.ValidatedFileImportsAll` | backend/import_documents.py:190-201 | a validated file with an object or array root is imported in full with overwrite on, when no record refers to a document the import could overwrite |
| `AnnotationPage.PayloadComments` | frontend/src/pages/AnnotationPage.tsx:105-108 | comments map in order to {text: comment, selection: selected_text} |
| `AnnotationPage.PayloadConversion` | frontend/src/pages/AnnotationPage.tsx:105-108 | the backend converts every payload comment, keeping remark and passage |
| `AnnotationPage.LoadedComments` | frontend/src/pages/AnnotationPage.tsx:48-51 | each loaded comment's passage is its selection, or its text when the selection is empty |
| `AnnotationPage.VerdictOf` | frontend/src/pages/AnnotationPage.tsx:47 | true loads as 'good', false as 'bad' |
| `AnnotationPage.AnnotationDraft.constructor` | frontend/src/pages/AnnotationPage.tsx:30-33 | an empty draft: no verdict, no comments, no selection, empty input |
| `AnnotationPage.AnnotationDraft.HandleSelection` | frontend/src/pages/AnnotationPage.tsx:73-78 | stores the trimmed selection only when it is not blank; a selection of white space only leaves the stored one unchanged |
| `AnnotationPage.AnnotationDraft.SetCommentInput` | frontend/src/pages/AnnotationPage.tsx:133 | replaces the typed input only |
| `AnnotationPage.AnnotationDraft.ClosePopover` | frontend/src/pages/AnnotationPage.tsx:215 | drops the selection only |
| `AnnotationPage.AnnotationDraft.HandleAddComment` | frontend/src/pages/AnnotationPage.tsx:80-93 | without a selection or with a blank input nothing changes; otherwise exactly one comment is appended, then selection and input are cleared |
| `AnnotationPage.AnnotationDraft.HandleSetEvaluation` | frontend/src/pages/AnnotationPage.tsx:95-98 | changes the verdict only |
| `AnnotationPage.AnnotationDraft.Payload` | frontend/src/pages/AnnotationPage.tsx:103-111 | the backend accepts it; evaluation true iff 'good' (none sent as false); comments in order; time 0 |
| `AnnotationPage.AnnotationDraft.ApplyLoadedAnnotation` | frontend/src/pages/AnnotationPage.tsx:43-54 | a record with an evaluation replaces verdict and comments; the empty draft or a failed request changes nothing |
| `AnnotationPage.DraftSurvivesSaveAndLoad` | frontend/src/pages/AnnotationPage.tsx:103-111 | comments with a selected passage and the verdict come back unchanged after save and reload |
| `AnnotationPage.EmptySelectionComesBackAsText` | frontend/src/pages/AnnotationPage.tsx:48-51 | a comment without a passage comes back with its remark as the passage |
| `AppLayout.Segments` | frontend/src/components/AppLayout.tsx:95 | the segments are exactly the non-empty pieces of the path split on '/', and none holds a '/' |
| `Strings.NonEmptyInOrder` | frontend/src/components/AppLayout.tsx:95 | `filter(i => i)` distributes over concatenation, so the kept pieces stay in their order; a single piece is kept exactly when it is non-empty |
| `AppLayout.SegmentsTrailingSlash` | frontend/src/components/AppLayout.tsx:95 | a trailing '/' adds no breadcrumb segment |
| `AppLayout.SegmentsDoubledSlash` | frontend/src/components/AppLayout.tsx:95 | a doubled '/' yields the same segments as a single one |
| `AppLayout.Breadcrumbs` | frontend/src/components/AppLayout.tsx:95-102 | one crumb per segment, in order |
| `AppLayout.CrumbsNest` | frontend/src/components/AppLayout.tsx:96-99 | the first url is "/" + first segment, each next url extends the previous by "/" + its segment, and only the last crumb is not a link |
| `AppLayout.LastCrumb` | frontend/src/components/AppLayout.tsx:96-99 | the last crumb is plain text and its url is "/" + all segments joined |
| `AppLayout.NormalisedPathSegments` | frontend/src/components/AppLayout.tsx:95 | a normalised path splits back into exactly its segments |
| `AppLayout.NormalisedPathCrumbs` | frontend/src/components/AppLayout.tsx:95-99 | on a normalised path the last crumb's url is the path itself |

## Left out

- Database session mechanics are not modelled: commit, refresh, rollback, and the
  import's catch-all exception path (backend/import_documents.py:163-166). Two
  exceptions are modelled there, and each skips its element:
  - an element that is not an object;
  - a refused delete of a document that annotation records refer to.
- Timestamps (`created_at`, `updated_at`, `annotated_at`) are server-side clock values
  and are left out of every record and response.
- JSON encoding of comments is modelled as the identity on comment lists. Text that is
  not JSON is the separate `Malformed` case.
- JSON file reading, command-line parsing, `main`, `list_existing_documents`,
  `create_sample_json_file` and all printing in the import script are I/O. The parsed
  file is a parameter (`None` when it cannot be read or parsed).
- Validation problems are returned instead of printed; the message texts are not
  modelled.
- Authentication is outside the model. The caller's id and role are parameters.
- Rendering, routing, the concurrent fetch, toasts and the loading flag of the front
  end are outside the model.
- StatsService.GetAnnotationStats: rates are exact reals. The source rounds them to two
  decimals for the response.
- StatsService.GetUserStats: rate and minutes are exact reals. The source rounds them
  to two decimals.
- DocumentService.GetDocuments: `skip` and `limit` are natural numbers. SQL's treatment
  of negative OFFSET/LIMIT is not modelled.
- DocumentService.GetUserDocuments: `skip` and `limit` are natural numbers, as above.
- Store.Db: document and record ids come from counters that never reuse a value.
  SQLite's reuse of the largest rowid after a delete is not modelled.
- Assignee column: the documents model declares no `assigned_to` column
  (backend/app/models/document.py). The services read and write one, so it is modelled
  as an optional user id.
- ImportDocuments.FoldOverwriteImportsAll: it holds only when no annotation record
  refers to a document the import could overwrite. The source refuses to overwrite a
  document that has records. The documents model has no delete cascade
  (backend/app/models/document.py:20), so the delete would null each record's
  non-nullable `document_id` (backend/app/models/annotation.py:10). The element is then
  rolled back, counted as skipped, and the old document stays, as `Place` models.
- ImportDocuments.ValidatedFileImportsAll: it holds only under the same condition, for
  the same reason.
- ImportDocuments.AssigneeOf: only a non-negative integer can name a user. SQL type
  coercion of a string or boolean `assigned_to` is not modelled; such a value gives no
  assignee.
- ImportDocuments.JsonValue: numbers are integers. JSON fractions and exponents are not
  modelled.
- AnnotationsApi.SelectionOf: comment fields are missing, null or strings. Python
  `str()` of a number or object value is not modelled.
- AnnotationsApi.ParseSaveRequest: the only request error is a missing evaluation.
  Pydantic's coercion of other value types, and its rejection of them, is not modelled.
- AnnotationsApi.ConvertComments: every incoming comment is an object. A non-object
  entry in `comments` (an AttributeError in the source) is not modelled.
- Integer width: times and counts are unbounded integers. SQLite's 64-bit integer limit
  is not modelled.

## Findings

| source | as written | input that shows it | evidently intended | confidence | as-written member | corrected member |
|---|---|---|---|---|---|---|
| backend/app/services/document.py:16 | `create_document` reads `document.assigned_to`, but `DocumentCreate` declares only title, source_content and generated_content (backend/app/schemas/document.py:5-11), so the read raises AttributeError | any admin POST to /documents/ with a title and two texts | create the document unassigned and pending | high, not executed | `DocumentService.CreateAsWrittenAlwaysFails` | `DocumentService.CreateDocument` |

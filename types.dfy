/**
 * The records of the annotation platform: users, documents, annotation
 * records and the comment items they carry, plus the small Option/Result
 * wrappers the services use for "no such row" and for request failures.
 */
module Types {

  datatype Option<T> = None | Some(value: T)

  /** The errors a request can end in (HTTP status or Python exception). */
  datatype Error =
    | Forbidden        // HTTP 403
    | NotFound         // HTTP 404
    | MissingKey       // KeyError while reading a request dict
    | InvalidField     // pydantic validation error: HTTP 422 on the request body, HTTP 500 inside a handler
    | MissingAttribute // AttributeError on a pydantic model
    | DecodeError      // json.JSONDecodeError

  datatype Result<T> = Ok(value: T) | Err(error: Error)

  /**
   * `users.role`: a free string whose two meaningful values are "admin" and
   * "expert"; `OtherRole` stands for any other string.
   */
  datatype Role = Admin | Expert | OtherRole(name: string)

  datatype User = User(id: nat, username: string, fullName: Option<string>, role: Role)

  /** `documents.status`, one of "pending", "in_progress", "completed". */
  datatype DocStatus = Pending | InProgress | Completed

  datatype Document = Document(
    id: nat,
    title: string,
    sourceContent: string,
    generatedContent: string,
    status: DocStatus,
    assignedTo: Option<nat>,
    wordCountSource: int,
    wordCountGenerated: int)

  /** One comment of an annotation: `CommentItem(text, selection)`. */
  datatype CommentItem = CommentItem(text: string, selection: string)

  /**
   * The `comments` text column. Every write stores the JSON encoding of a
   * list of comment items (modelled as `Encoded`); a NULL or empty column is
   * `Absent`, and text that is not valid JSON is `Malformed`.
   */
  datatype StoredComments = Absent | Encoded(items: seq<CommentItem>) | Malformed(raw: string)

  datatype Annotation = Annotation(
    id: nat,
    documentId: nat,
    annotatorId: nat,
    evaluation: bool,
    comments: StoredComments,
    timeSpent: int,
    isCompleted: bool)

  /** The per-document label of the listings: "未标注", "进行中", "已标注". */
  datatype Label = Unannotated | Ongoing | Annotated
  {
    function Text(): string
    {
      match this
      case Unannotated => "未标注"
      case Ongoing => "进行中"
      case Annotated => "已标注"
    }
  }

  /** `json.loads(c) if c else []` — raises on text that is not JSON. */
  function DecodeComments(c: StoredComments): (r: Result<seq<CommentItem>>)
    ensures r.Err? <==> c.Malformed?
    ensures c.Encoded? ==> r == Ok(c.items)
    ensures c.Absent? ==> r == Ok([])
  {
    match c
    case Absent => Ok([])
    case Encoded(items) => Ok(items)
    case Malformed(_) => Err(DecodeError)
  }
}

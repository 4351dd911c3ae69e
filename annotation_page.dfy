/**
 * frontend/src/pages/AnnotationPage.tsx: the annotator's working state on
 * one document — the chosen verdict, the locally added comments, the current
 * text selection and the comment being typed — with the handlers that change
 * it, the payload it posts and the conversion of a loaded annotation back
 * into this state.
 */
module AnnotationPage {
  import opened Types
  import opened Strings
  import opened Store
  import opened AnnotationService
  import opened AnnotationsApi

  /** The page's verdict: 'good' or 'bad'. */
  datatype Verdict = Good | Bad

  /** `AnnotationComment`: the selected passage and the remark on it. */
  datatype DraftComment = DraftComment(selectedText: string, comment: string)

  /** The comments as the payload sends them: `{text: comment, selection: selected_text}`. */
  function PayloadComments(cs: seq<DraftComment>): (r: seq<IncomingComment>)
    ensures |r| == |cs|
    ensures forall i :: 0 <= i < |cs| ==> r[i] == IncomingComment(Str(cs[i].comment), Str(cs[i].selectedText), Missing)
  {
    seq(|cs|, i requires 0 <= i < |cs| => IncomingComment(Str(cs[i].comment), Str(cs[i].selectedText), Missing))
  }

  /** The comment items the backend stores for a draft's comments. */
  function SentItems(cs: seq<DraftComment>): seq<CommentItem>
  {
    seq(|cs|, i requires 0 <= i < |cs| => CommentItem(cs[i].comment, cs[i].selectedText))
  }

  /**
   * The backend's conversion of the payload comments (`ConvertComments`)
   * succeeds on every draft and yields `SentItems`: the text is the remark
   * and the selection the selected passage, the empty one included.
   */
  lemma PayloadConversion(cs: seq<DraftComment>)
    ensures forall i :: 0 <= i < |cs| ==> PayloadComments(cs)[i].text.Str?
    ensures forall i :: 0 <= i < |cs| ==>
      SentItems(cs)[i] == CommentItem(PayloadComments(cs)[i].text.s, SelectionOf(PayloadComments(cs)[i]))
  {
  }

  /** Loaded comments: `selected_text: comment.selection || comment.text`, `comment: comment.text`. */
  function LoadedComments(items: seq<CommentItem>): (r: seq<DraftComment>)
    ensures |r| == |items|
    ensures forall i :: 0 <= i < |items| ==> r[i].comment == items[i].text
    ensures forall i :: 0 <= i < |items| ==>
      r[i].selectedText == (if items[i].selection != "" then items[i].selection else items[i].text)
  {
    seq(|items|, i requires 0 <= i < |items| =>
      DraftComment(if items[i].selection != "" then items[i].selection else items[i].text, items[i].text))
  }

  function VerdictOf(evaluation: bool): (r: Verdict)
    ensures r == Good <==> evaluation
  {
    if evaluation then Good else Bad
  }

  class AnnotationDraft {
    var evaluation: Option<Verdict>
    var comments: seq<DraftComment>
    var selection: Option<string>
    var commentInput: string

    /** A held selection is non-empty and already trimmed. */
    ghost predicate Valid()
      reads this
    {
      selection.Some? ==> selection.value != [] && Trim(selection.value) == selection.value
    }

    /** The initial state: no verdict, no comments, no selection, empty input. */
    constructor ()
      ensures Valid()
      ensures evaluation.None? && comments == [] && selection.None? && commentInput == ""
    {
      evaluation := None;
      comments := [];
      selection := None;
      commentInput := "";
    }

    /** `handleSelection`: keeps the trimmed selected text when it is not blank. */
    method HandleSelection(selectedText: Option<string>)
      requires Valid()
      modifies this
      ensures Valid()
      ensures selectedText.Some? && Trim(selectedText.value) != "" ==> selection == Some(Trim(selectedText.value))
      ensures !(selectedText.Some? && Trim(selectedText.value) != "") ==> selection == old(selection)
      ensures selectedText.Some? && (forall i :: 0 <= i < |selectedText.value| ==> IsJsSpace(selectedText.value[i]))
              ==> selection == old(selection)
      ensures evaluation == old(evaluation) && comments == old(comments) && commentInput == old(commentInput)
    {
      if selectedText.Some? {
        TrimEmpty(selectedText.value);
      }
      if selectedText.Some? && selectedText.value != "" && Trim(selectedText.value) != "" {
        TrimIdempotent(selectedText.value);
        selection := Some(Trim(selectedText.value));
      }
    }

    /** The comment box's `onChange`. */
    method SetCommentInput(value: string)
      requires Valid()
      modifies this
      ensures Valid()
      ensures commentInput == value
      ensures evaluation == old(evaluation) && comments == old(comments) && selection == old(selection)
    {
      commentInput := value;
    }

    /** Closing the comment popover drops the selection. */
    method ClosePopover()
      requires Valid()
      modifies this
      ensures Valid()
      ensures selection.None?
      ensures evaluation == old(evaluation) && comments == old(comments) && commentInput == old(commentInput)
    {
      selection := None;
    }

    /**
     * `handleAddComment`: with a selection and a non-blank input, appends one
     * comment (the selection and the trimmed input) and clears both; otherwise
     * changes nothing. Returns whether a comment was added.
     */
    method HandleAddComment() returns (added: bool)
      requires Valid()
      modifies this
      ensures Valid()
      ensures added <==> old(selection).Some? && Trim(old(commentInput)) != ""
      ensures added ==>
        && comments == old(comments) + [DraftComment(old(selection).value, Trim(old(commentInput)))]
        && selection.None? && commentInput == ""
      ensures !added ==> comments == old(comments) && selection == old(selection) && commentInput == old(commentInput)
      ensures added ==> comments[|comments| - 1].selectedText != "" && comments[|comments| - 1].comment != ""
      ensures evaluation == old(evaluation)
    {
      if selection.None? || selection.value == "" || Trim(commentInput) == "" {
        return false;
      }
      var newComment := DraftComment(selection.value, Trim(commentInput));
      comments := comments + [newComment];
      selection := None;
      commentInput := "";
      return true;
    }

    /** `handleSetEvaluation`: replaces the verdict. */
    method HandleSetEvaluation(verdict: Verdict)
      requires Valid()
      modifies this
      ensures Valid()
      ensures evaluation == Some(verdict)
      ensures comments == old(comments) && selection == old(selection) && commentInput == old(commentInput)
    {
      evaluation := Some(verdict);
    }

    /**
     * The body `postAnnotation` sends: evaluation true only for a 'good'
     * verdict (false when none was chosen), the comments, no time and the
     * completion flag. The backend accepts it whatever the state.
     */
    function Payload(isCompleted: bool): (r: RawSaveRequest)
      reads this
      ensures ParseSaveRequest(r).Ok?
      ensures ParseSaveRequest(r).value.evaluation <==> evaluation == Some(Good)
      ensures ParseSaveRequest(r).value.comments == PayloadComments(comments)
      ensures ParseSaveRequest(r).value.timeSpent == 0 && ParseSaveRequest(r).value.isCompleted == isCompleted
    {
      RawSaveRequest(
        Some(if evaluation.Some? then evaluation.value == Good else false),
        Some(PayloadComments(comments)),
        Some(0),
        Some(isCompleted))
    }

    /**
     * The loading step of `fetchDocumentAndAnnotation`: a stored annotation
     * (non-null evaluation) replaces the verdict and the comments; the empty
     * draft and a failed request change nothing.
     */
    method ApplyLoadedAnnotation(response: Result<AnnotationView>)
      requires Valid()
      modifies this
      ensures Valid()
      ensures response.Ok? && response.value.evaluation.Some? ==>
        && evaluation == Some(VerdictOf(response.value.evaluation.value))
        && comments == LoadedComments(response.value.comments)
      ensures !(response.Ok? && response.value.evaluation.Some?) ==>
        evaluation == old(evaluation) && comments == old(comments)
      ensures selection == old(selection) && commentInput == old(commentInput)
    {
      if response.Ok? && response.value.evaluation.Some? {
        var backendData := response.value;
        evaluation := Some(if backendData.evaluation.value then Good else Bad);
        comments := LoadedComments(backendData.comments);
      }
    }
  }

  /**
   * A draft whose comments all have a selected passage survives a save and a
   * reload: the backend returns the same verdict, and loading its comments
   * gives back exactly the draft's comments, in order.
   */
  lemma DraftSurvivesSaveAndLoad(anns: seq<Annotation>, cs: seq<DraftComment>, verdict: Verdict, saved: Annotation)
    requires forall i :: 0 <= i < |cs| ==> cs[i].selectedText != ""
    requires saved.evaluation == (verdict == Good)
    requires saved.comments == Encoded(SentItems(cs))
    ensures var r := GetUserAnnotation(Upsert(anns, saved), saved.documentId, saved.annotatorId);
      && r.Ok? && r.value.evaluation.Some?
      && VerdictOf(r.value.evaluation.value) == verdict
      && LoadedComments(r.value.comments) == cs
  {
    SaveThenRead(anns, saved, SentItems(cs));
  }

  /**
   * A comment without a selected passage does not survive: it is stored with
   * an empty selection and comes back with its remark as the passage.
   */
  lemma EmptySelectionComesBackAsText(remark: string)
    requires remark != ""
    ensures LoadedComments(SentItems([DraftComment("", remark)])) == [DraftComment(remark, remark)]
  {
  }
}

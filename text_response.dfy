/** Which text the handler answers with (`TextResponseMessage`). */
module TextResponse {
  import opened Messages

  /** A response message: a success response carries its own return text, and either kind
      may be marked as "no response". */
  datatype ResponseMessage =
    | SuccessResponse(ReturnText: Option<string>, NoResponse: bool)
    | OrdinaryResponse(NoResponse: bool)

  /** The stored text once the getter has run: a success response's return text replaces it. */
  function StoredText(response: Option<ResponseMessage>, stored: Option<string>): (t: Option<string>)
    // A success response decides the stored text whatever was stored before, even when its
    // return text is null.
    ensures response.Some? && response.value.SuccessResponse? ==> t == response.value.ReturnText
    // Any other response, or none, leaves the stored text as it was.
    ensures !(response.Some? && response.value.SuccessResponse?) ==> t == stored
  {
    if response.Some? && response.value.SuccessResponse? then response.value.ReturnText else stored
  }

  /** The text the getter returns, given the response, the stored text before the call and the
      text of the final response document (None when that document is null). */
  function ResponseText(response: Option<ResponseMessage>, stored: Option<string>,
                        finalResponseDocument: Option<string>): (text: string)
    // A stored text, once set (or replaced by a success response), is returned as it is.
    ensures StoredText(response, stored).Some? ==> text == StoredText(response, stored).value
    // A success response with a return text always answers with that text.
    ensures response.Some? && response.value.SuccessResponse? && response.value.ReturnText.Some?
            ==> text == response.value.ReturnText.value
    // Nothing stored and no response, or a "no response" message: the empty text.
    ensures StoredText(response, stored).None? && (response.None? || response.value.NoResponse) ==> text == ""
    // Nothing stored and a real response: the final document's text, or empty when it is null.
    ensures StoredText(response, stored).None? && response.Some? && !response.value.NoResponse
            ==> text == (if finalResponseDocument.Some? then finalResponseDocument.value else "")
  {
    var t := StoredText(response, stored);
    if t.None? && (response.None? || response.value.NoResponse) then ""
    else if t.None? then
      if finalResponseDocument.Some? then finalResponseDocument.value else ""
    else t.value
  }

  /** Reading the text twice gives the same answer, and the second read stores nothing new. */
  lemma ResponseTextIsStable(response: Option<ResponseMessage>, stored: Option<string>,
                             finalResponseDocument: Option<string>)
    ensures StoredText(response, StoredText(response, stored)) == StoredText(response, stored)
    ensures ResponseText(response, StoredText(response, stored), finalResponseDocument) ==
            ResponseText(response, stored, finalResponseDocument)
  {
  }

  /** The answer is always one of three things: empty, the stored text, or the final document. */
  lemma ResponseTextSources(response: Option<ResponseMessage>, stored: Option<string>,
                            finalResponseDocument: Option<string>)
    ensures var text := ResponseText(response, stored, finalResponseDocument);
      text == "" || Some(text) == StoredText(response, stored) || Some(text) == finalResponseDocument
  {
  }
}

/** components/InputBar.tsx: the text box state, the send and quick-reply
    gates, and the send button's disabled flag. Sending is the callback the
    App passes in; here it is the value a handler returns (None: nothing sent). */
module InputBar {
  import opened Types
  import opened Text

  /** `inputValue.trim() && !isLoading`: when a typed message goes out. */
  predicate AcceptsSend(input: string, isLoading: bool) {
    Trim(input) != [] && !isLoading
  }

  /** `disabled={isLoading || !inputValue.trim()}` on the send button. */
  predicate SendDisabled(input: string, isLoading: bool) {
    isLoading || Trim(input) == []
  }

  /** The button is disabled exactly when a send would be rejected, that is
      while loading or when the box holds only whitespace. */
  lemma SendDisabledIffRejected(input: string, isLoading: bool)
    ensures SendDisabled(input, isLoading) <==> !AcceptsSend(input, isLoading)
    ensures SendDisabled(input, isLoading) <==> isLoading || IsBlank(input)
  {
    TrimEmptyIffBlank(input);
  }

  class InputBar {
    var inputValue: string

    constructor()
      ensures inputValue == ""
    {
      inputValue := "";
    }

    /** The text box's onChange. The box is disabled while a reply is loading,
        so no change event reaches it and the typed text is not taken. */
    method OnChange(value: string, isLoading: bool)
      modifies this
      ensures inputValue == if isLoading then old(inputValue) else value
    {
      if !isLoading {
        inputValue := value;
      }
    }

    /** `handleSend`: sends the trimmed text and clears the box, or does nothing. */
    method HandleSend(isLoading: bool) returns (sent: Option<string>)
      modifies this
      ensures AcceptsSend(old(inputValue), isLoading) ==> sent == Some(Trim(old(inputValue))) && inputValue == ""
      ensures !AcceptsSend(old(inputValue), isLoading) ==> sent == None && inputValue == old(inputValue)
      ensures sent.Some? ==> sent.value != [] && Trim(sent.value) == sent.value
    {
      if Trim(inputValue) != [] && !isLoading {
        TrimIdempotent(inputValue);
        sent := Some(Trim(inputValue));
        inputValue := "";
      } else {
        sent := None;
      }
    }

    /** `handleQuickReplyClick`: the reply goes out verbatim unless loading; the box is not touched. */
    method HandleQuickReplyClick(reply: string, isLoading: bool) returns (sent: Option<string>)
      ensures isLoading ==> sent == None
      ensures !isLoading ==> sent == Some(reply)
    {
      if !isLoading {
        sent := Some(reply);
      } else {
        sent := None;
      }
    }
  }
}

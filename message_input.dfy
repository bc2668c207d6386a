/** The message composer under the chat: a text field whose submit handler
    sends the trimmed text and clears the field. */
module MessageInput {
  import opened Common
  import opened JsText

  /** The guard of `handleSubmit`: `message.trim() && !disabled`. */
  predicate CanSend(message: string, disabled: bool)
    ensures CanSend(message, disabled) <==> !AllSpace(message) && !disabled
  {
    Trim(message) != "" && !disabled
  }

  /** The send button's `disabled` attribute, `!message.trim() || disabled`. */
  function SendButtonDisabled(message: string, disabled: bool): (off: bool)
    ensures off <==> AllSpace(message) || disabled
  {
    Trim(message) == "" || disabled
  }

  /** The button is enabled exactly when submitting would send. */
  lemma ButtonMatchesGuard(message: string, disabled: bool)
    ensures !SendButtonDisabled(message, disabled) <==> CanSend(message, disabled)
  {
  }

  /** Input made only of white space never produces a send. */
  lemma BlankNeverSends(message: string, disabled: bool)
    requires AllSpace(message)
    ensures !CanSend(message, disabled)
  {
  }

  class Composer {
    /** The `message` state: the text in the field. */
    var message: string

    constructor ()
      ensures message == ""
    {
      message := "";
    }

    /** The field's `onChange`. */
    method Type(text: string)
      modifies this
      ensures message == text
    {
      message := text;
    }

    /** `handleSubmit`; `sent` is the argument `onSendMessage` is called with, if
        it is called. `disabled` is the component's prop at the time of the submit. */
    method Submit(disabled: bool) returns (sent: Option<string>)
      modifies this
      ensures sent.Some? <==> !AllSpace(old(message)) && !disabled
      ensures sent.Some? ==> sent.value == Trim(old(message)) && message == ""
      ensures sent.Some? ==> sent.value != "" && !IsSpace(sent.value[0]) && !IsSpace(sent.value[|sent.value| - 1])
      ensures sent.None? ==> message == old(message)
    {
      if CanSend(message, disabled) {
        sent := Some(Trim(message));
        message := "";
      } else {
        sent := None;
      }
    }
  }
}

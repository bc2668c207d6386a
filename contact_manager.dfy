/** The contact panel of the settings screen: the user's own tag with a copy
    button, the form that sends a contact request by tag, the pending requests
    and the block confirmation. Nothing is set before any of its `await`s, so
    each handler is one method that receives how the awaited call ended. */
module ContactManager {
  import opened Common
  import opened JsText

  /** What a rejected call threw: an `Error` object with its `message`, or any
      other value. */
  datatype Thrown = ErrorObject(message: string) | OtherValue

  /** How an awaited call of the contact context ended. */
  datatype Outcome = Resolved | Rejected(thrown: Thrown)

  /** `err instanceof Error ? err.message : fallback`: an `Error`'s message is
      kept even when it is empty. */
  function ThrownText(thrown: Thrown, fallback: string): (text: string)
    ensures text == fallback || thrown == ErrorObject(text)
    ensures thrown.ErrorObject? ==> text == thrown.message
  {
    match thrown
    case ErrorObject(m) => m
    case OtherValue => fallback
  }

  const TagPrefix := "@"
  const TagFormatError := "UserTag deve começar com @"
  const RequestSentSuccess := "Solicitação de contato enviada com sucesso!"
  const RequestSentFallback := "Erro ao enviar solicitação de contato"
  const AcceptedSuccess := "Solicitação de contato aceita!"
  const AcceptFallback := "Erro ao aceitar solicitação"
  const RejectedSuccess := "Solicitação de contato rejeitada"
  const RejectFallback := "Erro ao rejeitar solicitação"
  const BlockedSuccess := "Contato bloqueado com sucesso"
  const BlockFallback := "Erro ao bloquear contato"
  const CopiedSuccess := "UserTag copiado para a área de transferência!"

  /** The format check of `handleAddContact`: `newContactTag.startsWith('@')`. */
  function TagWellFormed(tag: string): (ok: bool)
    ensures ok <==> |tag| > 0 && tag[0] == '@'
  {
    StartsWith(tag, TagPrefix)
  }

  class Manager {
    var newContactTag: string
    var error: Option<string>
    var success: Option<string>
    var showBlockConfirm: bool
    var selectedContact: Option<string>

    constructor ()
      ensures newContactTag == "" && error == None && success == None
      ensures !showBlockConfirm && selectedContact == None
    {
      newContactTag := "";
      error := None;
      success := None;
      showBlockConfirm := false;
      selectedContact := None;
    }

    /** `handleCopyUserTag`: `userTag` is the logged-in user's tag, if any;
        `copied` is what is written to the clipboard. */
    method CopyUserTag(userTag: Option<string>) returns (copied: Option<string>)
      modifies this
      ensures copied.Some? <==> userTag.Some? && userTag.value != ""
      ensures copied.Some? ==> copied == userTag && success == Some(CopiedSuccess)
      ensures copied.None? ==> success == old(success)
      ensures error == old(error) && newContactTag == old(newContactTag)
      ensures showBlockConfirm == old(showBlockConfirm) && selectedContact == old(selectedContact)
    {
      copied := None;
      if userTag.Some? && userTag.value != "" {
        copied := userTag;
        success := Some(CopiedSuccess);
      }
    }

    /** The tag field's `onChange`. */
    method TypeTag(text: string)
      modifies this
      ensures newContactTag == text
      ensures error == old(error) && success == old(success)
      ensures showBlockConfirm == old(showBlockConfirm) && selectedContact == old(selectedContact)
    {
      newContactTag := text;
    }

    /** `handleAddContact`: `requested` is the tag passed to
        `sendContactRequest`, if the format check lets a request go out, and
        `outcome` is how that request ends. */
    method AddContact(outcome: Outcome) returns (requested: Option<string>)
      modifies this
      ensures requested.Some? <==> TagWellFormed(old(newContactTag))
      ensures requested.None? ==> error == Some(TagFormatError)
      ensures requested.None? ==> newContactTag == old(newContactTag) && success == old(success)
      ensures requested.Some? ==> requested.value == old(newContactTag)
      ensures requested.Some? && outcome.Resolved? ==>
                success == Some(RequestSentSuccess) && newContactTag == "" && error == old(error)
      ensures requested.Some? && outcome.Rejected? ==>
                error == Some(ThrownText(outcome.thrown, RequestSentFallback))
                && newContactTag == old(newContactTag) && success == old(success)
      ensures showBlockConfirm == old(showBlockConfirm) && selectedContact == old(selectedContact)
    {
      if !TagWellFormed(newContactTag) {
        error := Some(TagFormatError);
        requested := None;
        return;
      }
      requested := Some(newContactTag);
      match outcome {
        case Resolved =>
          success := Some(RequestSentSuccess);
          newContactTag := "";
        case Rejected(t) =>
          error := Some(ThrownText(t, RequestSentFallback));
      }
    }

    /** `handleAcceptRequest`: `requested` is the id passed to
        `acceptContactRequest`. */
    method AcceptRequest(requestId: string, outcome: Outcome) returns (requested: string)
      modifies this
      ensures requested == requestId
      ensures outcome.Resolved? ==> success == Some(AcceptedSuccess) && error == old(error)
      ensures outcome.Rejected? ==>
                error == Some(ThrownText(outcome.thrown, AcceptFallback)) && success == old(success)
      ensures newContactTag == old(newContactTag)
      ensures showBlockConfirm == old(showBlockConfirm) && selectedContact == old(selectedContact)
    {
      requested := requestId;
      match outcome {
        case Resolved =>
          success := Some(AcceptedSuccess);
        case Rejected(t) =>
          error := Some(ThrownText(t, AcceptFallback));
      }
    }

    /** `handleRejectRequest`: `requested` is the id passed to
        `rejectContactRequest`. */
    method RejectRequest(requestId: string, outcome: Outcome) returns (requested: string)
      modifies this
      ensures requested == requestId
      ensures outcome.Resolved? ==> success == Some(RejectedSuccess) && error == old(error)
      ensures outcome.Rejected? ==>
                error == Some(ThrownText(outcome.thrown, RejectFallback)) && success == old(success)
      ensures newContactTag == old(newContactTag)
      ensures showBlockConfirm == old(showBlockConfirm) && selectedContact == old(selectedContact)
    {
      requested := requestId;
      match outcome {
        case Resolved =>
          success := Some(RejectedSuccess);
        case Rejected(t) =>
          error := Some(ThrownText(t, RejectFallback));
      }
    }

    /** The block button of a contact: remember it and ask for confirmation. */
    method ChooseBlock(contactId: string)
      modifies this
      ensures selectedContact == Some(contactId) && showBlockConfirm
      ensures newContactTag == old(newContactTag) && error == old(error) && success == old(success)
    {
      selectedContact := Some(contactId);
      showBlockConfirm := true;
    }

    /** The confirmation's `onClose`. */
    method CloseBlockConfirm()
      modifies this
      ensures !showBlockConfirm
      ensures selectedContact == old(selectedContact)
      ensures newContactTag == old(newContactTag) && error == old(error) && success == old(success)
    {
      showBlockConfirm := false;
    }

    /** `handleBlockContact`, the confirmation's `onConfirm`: nothing happens
        unless a contact was chosen (an empty id counts as none); `blocked` is
        the id passed to `blockContact`. The dialog closes only on success. */
    method BlockContact(outcome: Outcome) returns (blocked: Option<string>)
      modifies this
      ensures blocked.Some? <==> old(selectedContact).Some? && old(selectedContact).value != ""
      ensures blocked.None? ==>
                error == old(error) && success == old(success) && showBlockConfirm == old(showBlockConfirm)
      ensures blocked.Some? ==> blocked == old(selectedContact)
      ensures blocked.Some? && outcome.Resolved? ==>
                success == Some(BlockedSuccess) && !showBlockConfirm && error == old(error)
      ensures blocked.Some? && outcome.Rejected? ==>
                error == Some(ThrownText(outcome.thrown, BlockFallback))
                && showBlockConfirm == old(showBlockConfirm) && success == old(success)
      ensures newContactTag == old(newContactTag) && selectedContact == old(selectedContact)
    {
      blocked := None;
      if selectedContact.None? || selectedContact.value == "" {
        return;
      }
      blocked := selectedContact;
      match outcome {
        case Resolved =>
          success := Some(BlockedSuccess);
          showBlockConfirm := false;
        case Rejected(t) =>
          error := Some(ThrownText(t, BlockFallback));
      }
    }

    /** The error alert's close button. */
    method DismissError()
      modifies this
      ensures error == None
      ensures success == old(success) && newContactTag == old(newContactTag)
      ensures showBlockConfirm == old(showBlockConfirm) && selectedContact == old(selectedContact)
    {
      error := None;
    }

    /** The success alert's close button. */
    method DismissSuccess()
      modifies this
      ensures success == None
      ensures error == old(error) && newContactTag == old(newContactTag)
      ensures showBlockConfirm == old(showBlockConfirm) && selectedContact == old(selectedContact)
    {
      success := None;
    }
  }
}

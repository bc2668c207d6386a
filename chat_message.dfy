/** One message bubble of the chat: the options menu, in-place editing and the
    confirmation before a delete. The date formatting of the timestamp is not
    part of this model. */
module ChatMessage {
  import opened Common
  import opened JsText

  /** A call `onEdit(id, newMessage)`. */
  datatype EditCall = EditCall(id: string, newMessage: string)

  /** The guard of `handleEdit`: the trimmed edit differs from the current text. */
  predicate EditChangesText(editedMessage: string, message: string)
    ensures !EditChangesText(editedMessage, message) ==> |message| <= |editedMessage|
    ensures AllSpace(editedMessage) ==> (EditChangesText(editedMessage, message) <==> message != "")
  {
    Trim(editedMessage) != message
  }

  /** Confirming an edit left as the original text fires no `onEdit` exactly
      when that text has no white space at either end, as every text sent by
      the composer has. */
  lemma UnchangedEditIsSilent(message: string)
    ensures !EditChangesText(message, message) <==> Trim(message) == message
    ensures !EditChangesText(Trim(message), Trim(message))
  {
    TrimIdempotent(message);
  }

  /** What the bubble shows. */
  datatype BubbleView = BubbleView(
    senderName: Option<string>,   // the username line
    optionsButton: bool,          // the menu toggle
    menu: bool,                   // "Editar" and "Excluir"
    editor: Option<string>,       // the edit field and its two buttons
    body: Option<string>,         // the message text
    confirmOpen: bool)

  class MessageItem {
    // props
    const id: string
    const username: string
    const isCurrentUser: bool
    var message: string
    // state
    var isEditing: bool
    var editedMessage: string
    var showOptions: bool
    var showConfirmDialog: bool

    /** The menu, the editor and the delete dialog are reachable only from
        controls that a bubble of the current user's own message renders. */
    ghost predicate Valid()
      reads this
    {
      (showOptions || isEditing || showConfirmDialog) ==> isCurrentUser
    }

    constructor (id: string, username: string, message: string, isCurrentUser: bool)
      ensures Valid()
      ensures this.id == id && this.username == username
      ensures this.message == message && this.isCurrentUser == isCurrentUser
      ensures !isEditing && !showOptions && !showConfirmDialog
      ensures editedMessage == message
    {
      this.id := id;
      this.username := username;
      this.message := message;
      this.isCurrentUser := isCurrentUser;
      isEditing := false;
      editedMessage := message;
      showOptions := false;
      showConfirmDialog := false;
    }

    function View(): (v: BubbleView)
      reads this
      ensures v.senderName.Some? <==> !isCurrentUser
      ensures v.optionsButton <==> isCurrentUser
      ensures v.menu <==> isCurrentUser && showOptions
      ensures v.editor.Some? <==> isEditing
      ensures v.editor.Some? ==> v.editor.value == editedMessage
      ensures v.body.Some? <==> !isEditing
      ensures v.body.Some? ==> v.body.value == message
      ensures v.confirmOpen <==> showConfirmDialog
    {
      BubbleView(
        if isCurrentUser then None else Some(username),
        isCurrentUser,
        isCurrentUser && showOptions,
        if isEditing then Some(editedMessage) else None,
        if isEditing then None else Some(message),
        showConfirmDialog)
    }

    /** In a consistent bubble, the menu, the editor with its check and cancel
        buttons, and the delete confirmation appear only on the current
        user's own message. */
    lemma OwnControlsOnly()
      requires Valid()
      ensures View().menu || View().editor.Some? || View().confirmOpen ==> isCurrentUser
      ensures !isCurrentUser ==> View().senderName == Some(username) && View().body == Some(message)
    {
    }

    /** The parent re-renders the bubble with a new text; the `editedMessage`
        state keeps its value. */
    method Rerender(newMessage: string)
      requires Valid()
      modifies this
      ensures Valid()
      ensures message == newMessage
      ensures isEditing == old(isEditing) && editedMessage == old(editedMessage)
      ensures showOptions == old(showOptions) && showConfirmDialog == old(showConfirmDialog)
    {
      message := newMessage;
    }

    /** The options button flips the menu. */
    method ToggleOptions()
      requires Valid() && isCurrentUser
      modifies this
      ensures Valid()
      ensures showOptions == !old(showOptions)
      ensures isEditing == old(isEditing) && editedMessage == old(editedMessage)
      ensures message == old(message) && showConfirmDialog == old(showConfirmDialog)
    {
      showOptions := !showOptions;
    }

    /** The "Editar" menu item. */
    method ChooseEdit()
      requires Valid() && showOptions
      modifies this
      ensures Valid()
      ensures isEditing && !showOptions
      ensures editedMessage == old(editedMessage) && message == old(message)
      ensures showConfirmDialog == old(showConfirmDialog)
    {
      isEditing := true;
      showOptions := false;
    }

    /** The edit field's `onChange`. */
    method ChangeEditedText(text: string)
      requires Valid() && isEditing
      modifies this
      ensures Valid()
      ensures editedMessage == text
      ensures isEditing == old(isEditing) && showOptions == old(showOptions)
      ensures message == old(message) && showConfirmDialog == old(showConfirmDialog)
    {
      editedMessage := text;
    }

    /** `handleEdit`, the check button: `onEdit` gets the untrimmed edit, and
        only when its trimmed form differs from the current text. */
    method Edit() returns (call: Option<EditCall>)
      requires Valid() && isEditing
      modifies this
      ensures Valid()
      ensures call.Some? <==> Trim(old(editedMessage)) != old(message)
      ensures call.Some? ==> call.value == EditCall(id, old(editedMessage))
      ensures !isEditing && !showOptions
      ensures editedMessage == old(editedMessage) && message == old(message)
      ensures showConfirmDialog == old(showConfirmDialog)
    {
      if EditChangesText(editedMessage, message) {
        call := Some(EditCall(id, editedMessage));
      } else {
        call := None;
      }
      isEditing := false;
      showOptions := false;
    }

    /** The cancel button: leave edit mode and restore the current text; no
        `onEdit` call exists on this path. */
    method CancelEdit()
      requires Valid() && isEditing
      modifies this
      ensures Valid()
      ensures !isEditing && editedMessage == message
      ensures message == old(message) && showOptions == old(showOptions)
      ensures showConfirmDialog == old(showConfirmDialog)
    {
      isEditing := false;
      editedMessage := message;
    }

    /** `handleDelete`, the "Excluir" menu item: it only opens the
        confirmation; nothing is deleted yet. */
    method Delete()
      requires Valid() && showOptions
      modifies this
      ensures Valid()
      ensures showConfirmDialog && !showOptions
      ensures isEditing == old(isEditing) && editedMessage == old(editedMessage)
      ensures message == old(message)
    {
      showConfirmDialog := true;
      showOptions := false;
    }

    /** The dialog's `onConfirm`: the only path that calls `onDelete`, with
        this message's id. */
    method ConfirmDelete() returns (deletedId: string)
      requires Valid() && showConfirmDialog
      ensures deletedId == id
    {
      deletedId := id;
    }

    /** The dialog's `onClose`. */
    method CloseConfirm()
      requires Valid()
      modifies this
      ensures Valid()
      ensures !showConfirmDialog
      ensures isEditing == old(isEditing) && editedMessage == old(editedMessage)
      ensures message == old(message) && showOptions == old(showOptions)
    {
      showConfirmDialog := false;
    }
  }
}

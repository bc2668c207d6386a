# EncFront chat client: decision logic of the UI components

EncFront is a browser chat client that talks to an external HTTP and
realtime backend. This project models the decision logic of six of its
components in Dafny and proves properties of it:

- the **password strength indicator** (`PasswordStrengthIndicator.tsx`): five
  requirements, the met count, the strength text, the bar and text colours,
  the bar percentage and the exported `validatePassword`;
- the **message composer** (`MessageInput.tsx`): the submit guard, trim and
  clear, and the send button's disabled state;
- the **message bubble** (`ChatMessage.tsx`): the options menu, in-place
  editing with its edit-only-if-changed guard, cancel, and delete behind a
  confirmation;
- the **friend-requests modal** (`ContactRequestsModal.tsx`): the pending list,
  accept and reject, and the `processingId` / `isLoading` / `error` fields that
  are set before each request and reset after it;
- the **add-contact modal** (`AddContactModal.tsx`): search by nickname, add,
  the delayed reset after a successful add, and close;
- the **contact manager** (`ContactManager.tsx`): the `@` tag check, the
  request, accept, reject and block handlers, and copy-tag.

The strength indicator is pure code and is modelled as functions and lemmas
(`password_strength.dfy`). Each of the other components keeps React state
that its handlers change step by step. Each is a class whose fields are that
state and whose methods are the handlers. Every method's postcondition gives
the complete new state in terms of the old one.

The backend, timers and parent callbacks are made explicit:

- An awaited request is a parameter. `ApiResult` is `Ok(data)` or
  `Err(serverMessage)`. In the contact manager, `Outcome` is `Resolved` or
  `Rejected(thrown)`.
- A handler that sets state before its `await` is split in two. `Begin…`
  makes the change before the request. `Complete…` makes the change when the
  request settles. This keeps the in-between state (`isLoading`,
  `processingId`, `isSearching`, `isAdding`) observable, and other events may
  come between the two calls.
- A parent callback (`onSendMessage`, `onEdit`, `onDelete`,
  `onRequestAccepted`, `onContactAdded`) is an out-parameter holding its
  argument, or `None` when the callback is not called. Calls of `onClose` are
  counted in the field `closeCalls`.
- `setTimeout` in the add-contact modal is the event `ResetTimerFires`. It is
  only allowed while a timer started by a successful add is still pending.

The JavaScript library calls are written out in `js_text.dfy`:

- `trim` strips exactly the ECMAScript white-space and line-terminator code
  points.
- `length` counts UTF-16 code units, so a character outside the Basic
  Multilingual Plane counts twice toward the 8-character minimum.
- `startsWith` and `includes` are defined directly.

Two ways of choosing an error text are kept apart:

- `err.response?.data?.message || fallback` is `ErrorText`. An empty server
  message also falls back.
- `err instanceof Error ? err.message : fallback` is `ThrownText`. An empty
  `Error` message is kept.

The bar width `(metCount / 5) * 100` is exact in IEEE doubles for every count
from 0 to 5. It is therefore modelled as the integer `metCount * 20`.

## Model

| member | source | states |
|---|---|---|
| Common.ErrorText | src/components/ContactRequestsModal.tsx:40 | the error text is the server's message when that is non-empty and the fallback otherwise; it is empty only when both are, so a failed request with a fallback always shows the error box |
| JsText.Trim | src/components/MessageInput.tsx:15-16 | `trim()` returns the slice of the input between its leading and trailing white space; that slice is empty iff the input is all white space, and otherwise neither begins nor ends with white space |
| JsText.TrimIdempotent | src/components/ChatMessage.tsx:32 | trimming an already trimmed text changes nothing |
| JsText.StartsWith | src/components/ContactManager.tsx:33 | `startsWith(p)` holds iff `p` is no longer than the text and agrees with it character by character from the front |
| JsText.Contains | src/components/AddContactModal.tsx:60 | `includes(t)`: the empty text is found in every text, and a text is found only in one at least as long |
| JsText.ContainsInfix | src/components/AddContactModal.tsx:60 | `includes(t)` holds of any text that has `t` somewhere inside it |
| JsText.ContainsSound | src/components/AddContactModal.tsx:60 | whenever `includes(t)` holds, `t` occurs at some index of the text |
| JsText.ContainsIffOccurs | src/components/AddContactModal.tsx:60 | `includes(t)` holds iff `t` occurs at some index of the text (both directions, through `ContainsSound` and `ContainsInfix`) |
| JsText.Utf16Length | src/components/PasswordStrengthIndicator.tsx:16 | `length` counts UTF-16 code units: between one and two per character |
| JsText.Utf16LengthAppend | src/components/PasswordStrengthIndicator.tsx:16 | the length of a concatenation is the sum of the lengths |
| PasswordStrength.Meets | src/components/PasswordStrengthIndicator.tsx:13-34 | the `test` of each of the five requirements (at least 8 code units, an A–Z, an a–z, a 0–9, a character of the special set); no requirement is met by the empty password |
| PasswordStrength.CountMet | src/components/PasswordStrengthIndicator.tsx:36-38 | the number of requirements a password passes is at most the number of requirements; it equals that number iff every one passes, and it is zero iff none does |
| PasswordStrength.MetRequirements | src/components/PasswordStrengthIndicator.tsx:13-38 | the met count lies between 0 and 5, the number of requirements |
| PasswordStrength.ValidatePassword | src/components/PasswordStrengthIndicator.tsx:131-141 | the exported `validatePassword`, every entry of its own list of five checks being true, holds iff the password has at least 8 code units and contains an A–Z, an a–z, a 0–9 and a character of the special set |
| PasswordStrength.ValidateAgreesWithCount | src/components/PasswordStrengthIndicator.tsx:13-38 | `validatePassword` holds iff the indicator counts all five requirements as met: its list of tests is the indicator's list |
| PasswordStrength.MeetsMonotone | src/components/PasswordStrengthIndicator.tsx:16-32 | each requirement that a password passes still passes after characters are appended |
| PasswordStrength.CountMetMonotone | src/components/PasswordStrengthIndicator.tsx:36-38 | appending characters never lowers the count over any list of requirements |
| PasswordStrength.MetRequirementsMonotone | src/components/PasswordStrengthIndicator.tsx:13-38 | typing more characters never lowers the met count and never makes a valid password invalid |
| PasswordStrength.StrengthText | src/components/PasswordStrengthIndicator.tsx:48-54 | "Senha forte" iff all 5 are met, "Senha média" iff 3 or 4, "Senha fraca" iff 1 or 2, "Senha muito fraca" iff none |
| PasswordStrength.StrengthColour | src/components/PasswordStrengthIndicator.tsx:40-46 | green iff all 5 are met, yellow iff 3 or 4, orange iff 1 or 2, red iff none |
| PasswordStrength.ColourMatchesText | src/components/PasswordStrengthIndicator.tsx:40-54 | the bar colour bands and the text bands use the same thresholds: each colour goes with exactly one text |
| PasswordStrength.StrengthTextColour | src/components/PasswordStrengthIndicator.tsx:73-78 | the strength text is green exactly when the bar is, yellow exactly when the bar is, and red for both the orange and the red bar |
| PasswordStrength.StrengthPercentage | src/components/PasswordStrengthIndicator.tsx:58-59 | the bar width is 20 times the met count, so a multiple of 20 between 0 and 100; it is 100 iff `validatePassword` holds and 0 iff the bar is red |
| PasswordStrength.RequirementChecklist | src/components/PasswordStrengthIndicator.tsx:89-90 | the checklist has one entry per requirement, marked iff the password passes that requirement |
| PasswordStrength.CountTrueMatchesCountMet | src/components/PasswordStrengthIndicator.tsx:83-90 | the number of marked checklist entries is the met count |
| PasswordStrength.Render | src/components/PasswordStrengthIndicator.tsx:56-84 | nothing is rendered iff the password is empty; otherwise the checklist marks exactly the requirements the password meets, the "n/5" line shows the met count (which is the number of marked entries), and the bar width, bar colour, strength text and text colour are the password's own; the bar is full iff `validatePassword` holds |
| PasswordStrength.EmptyPassword | src/components/PasswordStrengthIndicator.tsx:56 | the empty password meets no requirement, reads "Senha muito fraca", and renders nothing |
| MessageInput.CanSend | src/components/MessageInput.tsx:15 | the `handleSubmit` guard passes iff the input is not all white space and the component is not disabled |
| MessageInput.SendButtonDisabled | src/components/MessageInput.tsx:33 | the send button is disabled iff the input is only white space or the component is disabled |
| MessageInput.ButtonMatchesGuard | src/components/MessageInput.tsx:15-33 | the send button is enabled exactly when a submit would send |
| MessageInput.BlankNeverSends | src/components/MessageInput.tsx:15 | input made only of white space never passes the submit guard |
| MessageInput.Composer.constructor | src/components/MessageInput.tsx:11 | the field starts empty |
| MessageInput.Composer.Type | src/components/MessageInput.tsx:26 | typing replaces the field's text |
| MessageInput.Composer.Submit | src/components/MessageInput.tsx:13-19 | `onSendMessage` is called iff the input is not all white space and the component is not disabled; it receives the trimmed input, which is non-empty and has no outer white space, and the field is then empty; otherwise the field is unchanged |
| ChatMessage.EditChangesText | src/components/ChatMessage.tsx:32 | the `handleEdit` guard, trimmed edit differs from the text; when it fails the text is no longer than the edit, and an edit of only white space passes it iff the text is non-empty |
| ChatMessage.UnchangedEditIsSilent | src/components/ChatMessage.tsx:32-34 | confirming an edit left equal to the text fires no `onEdit` iff the text has no outer white space, which holds for every trimmed text |
| ChatMessage.MessageItem.constructor | src/components/ChatMessage.tsx:26-29 | the bubble starts with menu, editor and dialog closed and the edit buffer equal to the text |
| ChatMessage.MessageItem.View | src/components/ChatMessage.tsx:53-127 | the sender name is shown iff the message is not the current user's; the options button iff it is; the menu iff it is and `showOptions` is set; the editor, holding the edit buffer, iff `isEditing`, and the text otherwise; the confirmation iff `showConfirmDialog` |
| ChatMessage.MessageItem.OwnControlsOnly | src/components/ChatMessage.tsx:53-127 | in every consistent state the menu, the editor with its check and cancel buttons, and the delete confirmation appear only on the current user's message, and another user's message shows its sender and its text |
| ChatMessage.MessageItem.Rerender | src/components/ChatMessage.tsx:27 | a new text from the parent leaves the edit buffer and all flags as they were, and keeps the bubble consistent |
| ChatMessage.MessageItem.ToggleOptions | src/components/ChatMessage.tsx:57 | the options button flips the menu and changes nothing else |
| ChatMessage.MessageItem.ChooseEdit | src/components/ChatMessage.tsx:66-69 | "Editar" enters edit mode and closes the menu |
| ChatMessage.MessageItem.ChangeEditedText | src/components/ChatMessage.tsx:106 | typing in the editor replaces the edit buffer only |
| ChatMessage.MessageItem.Edit | src/components/ChatMessage.tsx:31-37 | `onEdit(id, buffer)` is called iff the trimmed buffer differs from the text, with the untrimmed buffer; afterwards edit mode and menu are closed whether or not it was called |
| ChatMessage.MessageItem.CancelEdit | src/components/ChatMessage.tsx:117-120 | cancel leaves edit mode and restores the buffer to the current text; no `onEdit` call exists on this path |
| ChatMessage.MessageItem.Delete | src/components/ChatMessage.tsx:39-42 | "Excluir" only opens the confirmation and closes the menu; the text and edit state are untouched |
| ChatMessage.MessageItem.ConfirmDelete | src/components/ChatMessage.tsx:140 | confirming calls `onDelete` with this message's id, and is possible only while the confirmation is open |
| ChatMessage.MessageItem.CloseConfirm | src/components/ChatMessage.tsx:139 | closing the confirmation changes nothing else |
| ContactRequestsModal.WithoutRequester | src/components/ContactRequestsModal.tsx:53 | the filtered list keeps every entry whose id differs from the requester's, drops every entry with that id, and keeps the survivors in their original order |
| ContactRequestsModal.WithoutRequesterLength | src/components/ContactRequestsModal.tsx:53 | the filter shortens the list by exactly the number of entries carrying the id |
| ContactRequestsModal.CountIdUnique | src/components/ContactRequestsModal.tsx:53 | with unique ids an id occurs at most once, and zero times iff no entry carries it |
| ContactRequestsModal.RemovesExactlyOne | src/components/ContactRequestsModal.tsx:53 | with unique ids, settling a request removes exactly one entry when the id is listed and leaves the list as it was when it is not |
| ContactRequestsModal.WithoutAbsentIsIdentity | src/components/ContactRequestsModal.tsx:53 | filtering an id that no entry carries leaves the list unchanged |
| ContactRequestsModal.WithoutRequesterIdempotent | src/components/ContactRequestsModal.tsx:53 | filtering the same id twice is filtering it once |
| ContactRequestsModal.WithoutRequesterCommutes | src/components/ContactRequestsModal.tsx:53-72 | two requests that settle in either order leave the same list, because both update through the latest list |
| ContactRequestsModal.CountLabel | src/components/ContactRequestsModal.tsx:95 | the count reads "pedido" iff the list has one entry and "pedidos" otherwise |
| ContactRequestsModal.ButtonsDisabled | src/components/ContactRequestsModal.tsx:149-163 | a request's accept and reject buttons are disabled iff `processingId` is that request's id |
| ContactRequestsModal.AtMostOneBusy | src/components/ContactRequestsModal.tsx:149-163 | with unique ids at most one request shows disabled buttons |
| ContactRequestsModal.RequestsModal.constructor | src/components/ContactRequestsModal.tsx:22-25 | empty list, not loading, nothing processing, no error |
| ContactRequestsModal.RequestsModal.BeginFetch | src/components/ContactRequestsModal.tsx:33-35 | a fetch sets loading and clears the error, leaving the list |
| ContactRequestsModal.RequestsModal.CompleteFetch | src/components/ContactRequestsModal.tsx:36-44 | on success the list is replaced wholesale; on failure the list is kept and the error (server text or "Erro ao carregar pedidos") is non-empty; loading always ends |
| ContactRequestsModal.RequestsModal.BeginAccept | src/components/ContactRequestsModal.tsx:46-48 | accepting marks the requester as processing and clears the error |
| ContactRequestsModal.RequestsModal.CompleteAccept | src/components/ContactRequestsModal.tsx:49-63 | success removes the requester's entries and passes the server's contact to `onRequestAccepted`; failure keeps the list, notifies nobody and sets the error ("Erro ao aceitar pedido" by default); nothing is processing afterwards |
| ContactRequestsModal.RequestsModal.BeginReject | src/components/ContactRequestsModal.tsx:65-67 | rejecting marks the requester as processing and clears the error |
| ContactRequestsModal.RequestsModal.CompleteReject | src/components/ContactRequestsModal.tsx:68-79 | success removes the requester's entries without notifying the parent; failure keeps the list and sets the error ("Erro ao rejeitar pedido" by default); nothing is processing afterwards |
| AddContactModal.AddModal.constructor | src/components/AddContactModal.tsx:18-23 | empty nickname, no user, no messages, nothing in flight |
| AddContactModal.AddModal.TypeNickname | src/components/AddContactModal.tsx:119 | typing replaces the nickname only |
| AddContactModal.AddModal.BeginSearch | src/components/AddContactModal.tsx:27-40 | every search clears error, success and the found user; a blank nickname sets "Digite um nickname para buscar" and issues no search; otherwise the trimmed nickname is searched and searching is on |
| AddContactModal.AddModal.CompleteSearch | src/components/AddContactModal.tsx:39-46 | success sets the found user; failure sets a non-empty error ("Usuário não encontrado" by default); searching ends |
| AddContactModal.AddModal.BeginAdd | src/components/AddContactModal.tsx:49-53 | without a found user nothing changes and no request goes out; otherwise the found user is the target, adding is on and the error is cleared |
| AddContactModal.AddModal.CompleteAdd | src/components/AddContactModal.tsx:55-80 | `onContactAdded(target)` is called iff the answer contains "automaticamente"; any other answer only sets "Pedido enviado para <username>!"; both successes start a reset timer and hide the user card; a missing answer or a failure sets the error; adding ends |
| AddContactModal.AddModal.ResetTimerFires | src/components/AddContactModal.tsx:70-75 | the delayed reset clears nickname, found user and success and calls `onClose`; it can only follow a successful add |
| AddContactModal.AddModal.Close | src/components/AddContactModal.tsx:83-89 | close clears nickname, found user, error and success and calls `onClose` |
| AddContactModal.CardShown | src/components/AddContactModal.tsx:153 | the found-user card, whose button runs `handleAddContact`, is shown only when a user was found, and never while a success message is up |
| AddContactModal.AutoAcceptedAnswer | src/components/AddContactModal.tsx:60 | any answer that has "automaticamente" inside it takes the auto-accepted branch |
| AddContactModal.RequestSentAnswer | src/components/AddContactModal.tsx:59-67 | an answer in which "automaticamente" occurs nowhere fails the `includes` test, so only "Pedido enviado" is shown and `onContactAdded` is not called |
| ContactManager.ThrownText | src/components/ContactManager.tsx:42 | the error text is the thrown `Error`'s message, even an empty one, and the fallback for any other thrown value |
| ContactManager.TagWellFormed | src/components/ContactManager.tsx:33 | a tag is accepted iff its first character is `@` |
| ContactManager.Manager.constructor | src/components/ContactManager.tsx:18-22 | empty tag, no alerts, dialog closed, no contact chosen |
| ContactManager.Manager.CopyUserTag | src/components/ContactManager.tsx:24-29 | the tag is copied and the success alert set iff the user has a non-empty tag; nothing else changes |
| ContactManager.Manager.TypeTag | src/components/ContactManager.tsx:107 | typing replaces the tag only |
| ContactManager.Manager.AddContact | src/components/ContactManager.tsx:31-44 | a tag not starting with `@` sets "UserTag deve começar com @" and sends nothing; otherwise the tag is sent; success sets the success alert and clears the field; failure keeps the field and sets the error from the thrown value |
| ContactManager.Manager.AcceptRequest | src/components/ContactManager.tsx:46-53 | the request's id is passed to `acceptContactRequest`; success sets "Solicitação de contato aceita!"; failure sets the error from the thrown value |
| ContactManager.Manager.RejectRequest | src/components/ContactManager.tsx:55-62 | the request's id is passed to `rejectContactRequest`; success sets "Solicitação de contato rejeitada"; failure sets the error from the thrown value |
| ContactManager.Manager.ChooseBlock | src/components/ContactManager.tsx:164-167 | the block button remembers the contact's id and opens the confirmation |
| ContactManager.Manager.CloseBlockConfirm | src/components/ContactManager.tsx:180 | closing the confirmation keeps the chosen contact |
| ContactManager.Manager.BlockContact | src/components/ContactManager.tsx:64-74 | without a chosen contact nothing happens; otherwise the contact is blocked; the dialog closes only on success, and failure leaves it open with the error set |
| ContactManager.Manager.DismissError | src/components/ContactManager.tsx:79 | the error alert's close button clears the error only |
| ContactManager.Manager.DismissSuccess | src/components/ContactManager.tsx:82 | the success alert's close button clears the success message only |

## Left out

- The date-fns relative-time line of a message bubble (`ChatMessage.tsx:44-47`): a foreign formatting library.
- CSS class strings. Colours appear only as the enumerated bands `BarColour` and `TextColour`.
- Real time. The two-second delay of the add-contact reset is the event `ResetTimerFires`, with no clock.
- The clipboard write in `handleCopyUserTag`. It is assumed to succeed. A rejected write would leave the success alert unset, and the model does not cover that.
- `ConfirmDialog.tsx` is not part of this model. Whether the dialog also closes itself after `onConfirm` is not modelled: `ConfirmDelete` and `BlockContact` change only what the handlers themselves change.
- Rendering gates such as `if (!isOpen) return null` in the two modals, and the opening effect that calls `fetchRequests` when `isOpen` becomes true. `BeginFetch` is that call.
- The contact context behind `ContactManager`. Its calls are outcomes given as parameters. As written, its accept and reject swallow their own errors, so those handlers always see `Resolved`. It provides no `blockContact`, so in the application the block call fails with a `TypeError`, which is an `Error` and reaches the `Rejected(ErrorObject(...))` branch.
- The message bubble's callers. The model follows the props `ChatMessage` declares, `id`, `onEdit` and `onDelete` included. The chat room shown (`ChatRoom.tsx:80-86`) passes none of those three. As wired there, a changed edit throws at `onEdit` before edit mode is left, and a confirmed delete throws at `onDelete`.
- ContactManager.Manager: its handlers run to completion in one step. Nothing is set before their `await`s, so no intermediate state is lost. Edits to the tag field made while a request is in flight are not modelled; the success path clears the field either way.
- The visibility of controls that depend on `isLoading`, `isSearching`, `isAdding` or `processingId` (disabled inputs and buttons, the spinner). The modals' `Begin…` methods do not require them, because their handlers do not check them themselves. `ButtonsDisabled` states the request buttons' rule separately.
- ChatMessage.MessageItem: its UI-event methods require that the control triggering them is on screen. The options button exists only for the current user's messages. The menu items exist only while the menu is open. The editor buttons exist only in edit mode. These conditions give the invariant `Valid()`: menu, editor and confirmation are never open on another user's message.

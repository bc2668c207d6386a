/** The modal that looks a user up by nickname and then adds them as a contact.
    Awaited requests are split into the change made before the `await`
    (`Begin…`) and the one made when the request settles (`Complete…`). The
    two-second timer a successful add starts is an explicit event, and calls
    of the parent's `onClose` are counted in `closeCalls`. */
module AddContactModal {
  import opened Common
  import opened JsText

  const EmptyNicknameError := "Digite um nickname para buscar"
  const SearchFallback := "Usuário não encontrado"
  const AddFallback := "Erro ao adicionar contato"
  const AutoAcceptedSuccess := "Vocês agora são contatos!"
  /** The word whose presence in the server's answer means the contact was
      added without a request. */
  const AutoAcceptMarker := "automaticamente"

  function RequestSentSuccess(username: string): string {
    "Pedido enviado para " + username + "!"
  }

  /** The card with the found user and its add button is shown when a user
      was found and no success message is up. */
  predicate CardShown(searchedUser: Option<Contact>, success: string)
    ensures CardShown(searchedUser, success) ==> searchedUser.Some?
    ensures success != "" ==> !CardShown(searchedUser, success)
  {
    searchedUser.Some? && success == ""
  }

  class AddModal {
    var nickname: string
    var searchedUser: Option<Contact>
    var error: string
    var success: string
    var isSearching: bool
    var isAdding: bool
    /** Reset timers started by successful adds that have not fired yet. */
    var pendingResets: nat
    /** How many times `onClose` has been called. */
    var closeCalls: nat

    constructor ()
      ensures nickname == "" && searchedUser == None && error == "" && success == ""
      ensures !isSearching && !isAdding && pendingResets == 0 && closeCalls == 0
    {
      nickname := "";
      searchedUser := None;
      error := "";
      success := "";
      isSearching := false;
      isAdding := false;
      pendingResets := 0;
      closeCalls := 0;
    }

    /** The nickname field's `onChange`. */
    method TypeNickname(text: string)
      modifies this
      ensures nickname == text
      ensures searchedUser == old(searchedUser) && error == old(error) && success == old(success)
      ensures isSearching == old(isSearching) && isAdding == old(isAdding)
      ensures pendingResets == old(pendingResets) && closeCalls == old(closeCalls)
    {
      nickname := text;
    }

    /** `handleSearch` up to its `await`; `query` is the nickname sent to
        `/search-user`, if a search is issued. */
    method BeginSearch() returns (query: Option<string>)
      modifies this
      ensures searchedUser == None && success == ""
      ensures query.Some? <==> !AllSpace(nickname)
      ensures query.Some? ==> query.value == Trim(nickname) && isSearching && error == ""
      ensures query.None? ==> error == EmptyNicknameError && isSearching == old(isSearching)
      ensures nickname == old(nickname) && isAdding == old(isAdding)
      ensures pendingResets == old(pendingResets) && closeCalls == old(closeCalls)
    {
      error := "";
      success := "";
      searchedUser := None;
      if Trim(nickname) == "" {
        error := EmptyNicknameError;
        query := None;
        return;
      }
      isSearching := true;
      query := Some(Trim(nickname));
    }

    /** `handleSearch` once the search settles. */
    method CompleteSearch(result: ApiResult<Contact>)
      modifies this
      ensures !isSearching
      ensures result.Ok? ==> searchedUser == Some(result.data) && error == old(error)
      ensures result.Err? ==> searchedUser == old(searchedUser)
      ensures result.Err? ==> error == ErrorText(result.serverMessage, SearchFallback) && error != ""
      ensures nickname == old(nickname) && success == old(success) && isAdding == old(isAdding)
      ensures pendingResets == old(pendingResets) && closeCalls == old(closeCalls)
    {
      match result {
        case Ok(user) =>
          searchedUser := Some(user);
        case Err(m) =>
          error := ErrorText(m, SearchFallback);
      }
      isSearching := false;
    }

    /** `handleAddContact` up to its `await`: nothing happens without a found
        user; otherwise `target` is the user whose id is sent to
        `/contacts/add`, as the handler captured it. */
    method BeginAdd() returns (target: Option<Contact>)
      modifies this
      ensures target == old(searchedUser)
      ensures target.None? ==> isAdding == old(isAdding) && error == old(error)
      ensures target.Some? ==> isAdding && error == ""
      ensures nickname == old(nickname) && searchedUser == old(searchedUser) && success == old(success)
      ensures isSearching == old(isSearching)
      ensures pendingResets == old(pendingResets) && closeCalls == old(closeCalls)
    {
      target := searchedUser;
      if target.None? {
        return;
      }
      isAdding := true;
      error := "";
    }

    /** `handleAddContact` once `/contacts/add` settles for `target`. The answer
        is the `message` field of the response, which may be missing; reading
        `includes` of a missing message throws inside the `try`, and the
        `catch` then finds no server message and shows the fallback text.
        `added` is what `onContactAdded` receives, if it is called. */
    method CompleteAdd(target: Contact, result: ApiResult<Option<string>>) returns (added: Option<Contact>)
      modifies this
      ensures !isAdding
      ensures added.Some? <==> result.Ok? && result.data.Some? && Contains(result.data.value, AutoAcceptMarker)
      ensures added.Some? ==> added.value == target && success == AutoAcceptedSuccess
      ensures result.Ok? && result.data.Some? && added.None? ==> success == RequestSentSuccess(target.username)
      ensures result.Ok? && result.data.Some? ==> pendingResets == old(pendingResets) + 1 && error == old(error)
      ensures result.Ok? && result.data.Some? ==> !CardShown(searchedUser, success)
      ensures result.Ok? && result.data.None? ==> error == AddFallback
      ensures result.Err? ==> error == ErrorText(result.serverMessage, AddFallback)
      ensures !(result.Ok? && result.data.Some?) ==> success == old(success) && pendingResets == old(pendingResets)
      ensures nickname == old(nickname) && searchedUser == old(searchedUser)
      ensures isSearching == old(isSearching) && closeCalls == old(closeCalls)
    {
      added := None;
      match result {
        case Ok(Some(message)) =>
          if Contains(message, AutoAcceptMarker) {
            success := AutoAcceptedSuccess;
            added := Some(target);
          } else {
            success := RequestSentSuccess(target.username);
          }
          pendingResets := pendingResets + 1;
        case Ok(None) =>
          error := AddFallback;
        case Err(m) =>
          error := ErrorText(m, AddFallback);
      }
      isAdding := false;
    }

    /** A reset timer fires: the form is cleared and `onClose` is called, even
        if the modal was closed or used again in the meantime. */
    method ResetTimerFires()
      requires pendingResets > 0
      modifies this
      ensures nickname == "" && searchedUser == None && success == ""
      ensures closeCalls == old(closeCalls) + 1 && pendingResets == old(pendingResets) - 1
      ensures error == old(error) && isSearching == old(isSearching) && isAdding == old(isAdding)
    {
      nickname := "";
      searchedUser := None;
      success := "";
      closeCalls := closeCalls + 1;
      pendingResets := pendingResets - 1;
    }

    /** `handleClose`: the close button clears the form and calls `onClose`.
        Requests in flight and started timers are not cancelled. */
    method Close()
      modifies this
      ensures nickname == "" && searchedUser == None && error == "" && success == ""
      ensures closeCalls == old(closeCalls) + 1
      ensures isSearching == old(isSearching) && isAdding == old(isAdding)
      ensures pendingResets == old(pendingResets)
    {
      nickname := "";
      searchedUser := None;
      error := "";
      success := "";
      closeCalls := closeCalls + 1;
    }
  }

  /** Whatever words surround it, a server answer that mentions
      "automaticamente" takes the auto-accepted branch. */
  lemma AutoAcceptedAnswer(before: string, after: string)
    ensures Contains(before + AutoAcceptMarker + after, AutoAcceptMarker)
  {
    ContainsInfix(before, AutoAcceptMarker, after);
  }

  /** An answer in which "automaticamente" occurs nowhere takes the
      request-sent branch: only "Pedido enviado" is shown and the parent is
      not told of a new contact. */
  lemma {:induction false} RequestSentAnswer(answer: string)
    requires forall i: nat :: !OccursAt(answer, AutoAcceptMarker, i)
    ensures !Contains(answer, AutoAcceptMarker)
  {
    if Contains(answer, AutoAcceptMarker) {
      ContainsSound(answer, AutoAcceptMarker);
    }
  }
}

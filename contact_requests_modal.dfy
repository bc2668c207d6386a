/** The modal listing pending friend requests, with an accept and a reject
    button per request. Each awaited request is split into the state change
    made before the `await` (`Begin…`) and the one made when the request
    settles (`Complete…`), which receives the backend's answer. */
module ContactRequestsModal {
  import opened Common

  /** `requests.filter(r => r._id !== requesterId)`. */
  function WithoutRequester(requests: seq<Contact>, requesterId: string): (kept: seq<Contact>)
    ensures |kept| <= |requests|
    ensures forall c :: c in kept ==> c in requests && c.id != requesterId
    ensures forall c :: c in requests && c.id != requesterId ==> c in kept
    ensures IsSubsequence(kept, requests)
  {
    if requests == [] then []
    else if requests[0].id != requesterId then [requests[0]] + WithoutRequester(requests[1..], requesterId)
    else WithoutRequester(requests[1..], requesterId)
  }

  /** `a` is `b` with some entries left out, the rest in their original order. */
  predicate IsSubsequence(a: seq<Contact>, b: seq<Contact>)
    decreases |b|
  {
    if a == [] then true
    else if b == [] then false
    else (a[0] == b[0] && IsSubsequence(a[1..], b[1..])) || IsSubsequence(a, b[1..])
  }

  /** The number of entries with the given id. */
  function CountId(requests: seq<Contact>, id: string): nat {
    if requests == [] then 0
    else (if requests[0].id == id then 1 else 0) + CountId(requests[1..], id)
  }

  predicate UniqueIds(requests: seq<Contact>) {
    forall i, j :: 0 <= i < j < |requests| ==> requests[i].id != requests[j].id
  }

  /** The filter drops exactly the entries carrying the id. */
  lemma {:induction false} WithoutRequesterLength(requests: seq<Contact>, requesterId: string)
    ensures |WithoutRequester(requests, requesterId)| == |requests| - CountId(requests, requesterId)
    decreases |requests|
  {
    if requests != [] {
      WithoutRequesterLength(requests[1..], requesterId);
    }
  }

  lemma {:induction false} CountIdUnique(requests: seq<Contact>, id: string)
    requires UniqueIds(requests)
    ensures CountId(requests, id) <= 1
    ensures CountId(requests, id) == 0 <==> forall c :: c in requests ==> c.id != id
    decreases |requests|
  {
    if requests != [] {
      CountIdUnique(requests[1..], id);
      if requests[0].id == id {
        CountIdZero(requests[1..], id);
      }
    }
  }

  lemma {:induction false} CountIdZero(requests: seq<Contact>, id: string)
    requires forall c :: c in requests ==> c.id != id
    ensures CountId(requests, id) == 0
    decreases |requests|
  {
    if requests != [] {
      CountIdZero(requests[1..], id);
    }
  }

  /** With the ids unique, as the backend lists them, settling a request
      removes exactly one entry when the id is listed and none otherwise. */
  lemma RemovesExactlyOne(requests: seq<Contact>, requesterId: string)
    requires UniqueIds(requests)
    ensures (exists c :: c in requests && c.id == requesterId) ==>
              |WithoutRequester(requests, requesterId)| == |requests| - 1
    ensures (forall c :: c in requests ==> c.id != requesterId) ==>
              WithoutRequester(requests, requesterId) == requests
  {
    WithoutRequesterLength(requests, requesterId);
    CountIdUnique(requests, requesterId);
    if forall c :: c in requests ==> c.id != requesterId {
      WithoutAbsentIsIdentity(requests, requesterId);
    }
  }

  lemma {:induction false} WithoutAbsentIsIdentity(requests: seq<Contact>, requesterId: string)
    requires forall c :: c in requests ==> c.id != requesterId
    ensures WithoutRequester(requests, requesterId) == requests
    decreases |requests|
  {
    if requests != [] {
      WithoutAbsentIsIdentity(requests[1..], requesterId);
      assert [requests[0]] + requests[1..] == requests;
    }
  }

  /** Filtering the same id twice changes nothing more. */
  lemma WithoutRequesterIdempotent(requests: seq<Contact>, requesterId: string)
    ensures WithoutRequester(WithoutRequester(requests, requesterId), requesterId)
         == WithoutRequester(requests, requesterId)
  {
    WithoutAbsentIsIdentity(WithoutRequester(requests, requesterId), requesterId);
  }

  /** The list is updated through `setRequests(prev => …)`, so two requests that
      settle in either order leave the same list. */
  lemma {:induction false} WithoutRequesterCommutes(requests: seq<Contact>, a: string, b: string)
    ensures WithoutRequester(WithoutRequester(requests, a), b)
         == WithoutRequester(WithoutRequester(requests, b), a)
    decreases |requests|
  {
    if requests != [] {
      WithoutRequesterCommutes(requests[1..], a, b);
    }
  }

  /** The count line: "1 pedido", otherwise "n pedidos". */
  function CountLabel(n: nat): (noun: string)
    ensures noun == "pedido" <==> n == 1
    ensures noun == "pedido" || noun == "pedidos"
  {
    if n == 1 then "pedido" else "pedidos"
  }

  /** For each listed request, whether its accept and reject buttons are disabled. */
  function ButtonsDisabled(requests: seq<Contact>, processingId: Option<string>): (disabled: seq<bool>)
    ensures |disabled| == |requests|
    ensures forall i :: 0 <= i < |requests| ==> (disabled[i] <==> processingId == Some(requests[i].id))
  {
    seq(|requests|, i requires 0 <= i < |requests| => processingId == Some(requests[i].id))
  }

  /** With unique ids, at most one request shows busy buttons. */
  lemma AtMostOneBusy(requests: seq<Contact>, processingId: Option<string>, i: nat, j: nat)
    requires UniqueIds(requests)
    requires i < |requests| && j < |requests|
    requires ButtonsDisabled(requests, processingId)[i] && ButtonsDisabled(requests, processingId)[j]
    ensures i == j
  {
  }

  class RequestsModal {
    var requests: seq<Contact>
    var isLoading: bool
    var processingId: Option<string>
    var error: string

    constructor ()
      ensures requests == [] && !isLoading && processingId == None && error == ""
    {
      requests := [];
      isLoading := false;
      processingId := None;
      error := "";
    }

    /** `fetchRequests` up to its `await`, run whenever the modal opens. */
    method BeginFetch()
      modifies this
      ensures isLoading && error == ""
      ensures requests == old(requests) && processingId == old(processingId)
    {
      isLoading := true;
      error := "";
    }

    /** `fetchRequests` once `GET /contacts/requests` settles: the list is
        replaced wholesale on success and kept on failure. */
    method CompleteFetch(result: ApiResult<seq<Contact>>)
      modifies this
      ensures !isLoading
      ensures result.Ok? ==> requests == result.data && error == old(error)
      ensures result.Err? ==> requests == old(requests)
      ensures result.Err? ==> error == ErrorText(result.serverMessage, "Erro ao carregar pedidos") && error != ""
      ensures processingId == old(processingId)
    {
      match result {
        case Ok(data) =>
          requests := data;
        case Err(m) =>
          error := ErrorText(m, "Erro ao carregar pedidos");
      }
      isLoading := false;
    }

    /** `handleAccept` up to its `await`. */
    method BeginAccept(requesterId: string)
      modifies this
      ensures processingId == Some(requesterId) && error == ""
      ensures requests == old(requests) && isLoading == old(isLoading)
    {
      processingId := Some(requesterId);
      error := "";
    }

    /** `handleAccept` once `POST /contacts/accept` settles; `accepted` is what
        `onRequestAccepted` receives, the contact in the server's answer. */
    method CompleteAccept(requesterId: string, result: ApiResult<Contact>) returns (accepted: Option<Contact>)
      modifies this
      ensures processingId == None
      ensures result.Ok? ==> requests == WithoutRequester(old(requests), requesterId)
      ensures result.Ok? ==> accepted == Some(result.data) && error == old(error)
      ensures result.Err? ==> requests == old(requests) && accepted == None
      ensures result.Err? ==> error == ErrorText(result.serverMessage, "Erro ao aceitar pedido") && error != ""
      ensures isLoading == old(isLoading)
    {
      match result {
        case Ok(contact) =>
          requests := WithoutRequester(requests, requesterId);
          accepted := Some(contact);
        case Err(m) =>
          error := ErrorText(m, "Erro ao aceitar pedido");
          accepted := None;
      }
      processingId := None;
    }

    /** `handleReject` up to its `await`. */
    method BeginReject(requesterId: string)
      modifies this
      ensures processingId == Some(requesterId) && error == ""
      ensures requests == old(requests) && isLoading == old(isLoading)
    {
      processingId := Some(requesterId);
      error := "";
    }

    /** `handleReject` once `POST /contacts/reject` settles; the parent is not
        notified on either outcome. */
    method CompleteReject(requesterId: string, result: ApiResult<()>)
      modifies this
      ensures processingId == None
      ensures result.Ok? ==> requests == WithoutRequester(old(requests), requesterId) && error == old(error)
      ensures result.Err? ==> requests == old(requests)
      ensures result.Err? ==> error == ErrorText(result.serverMessage, "Erro ao rejeitar pedido") && error != ""
      ensures isLoading == old(isLoading)
    {
      match result {
        case Ok(_) =>
          requests := WithoutRequester(requests, requesterId);
        case Err(m) =>
          error := ErrorText(m, "Erro ao rejeitar pedido");
      }
      processingId := None;
    }
  }
}

/** Values shared by the components: optional values, the outcome of a backend
    request, the contact record and the error text the modals display. */
module Common {

  datatype Option<T> = None | Some(value: T)

  /** The outcome of an awaited backend request: the response body, or a
      rejection carrying the `message` field of the error body when there is one. */
  datatype ApiResult<T> = Ok(data: T) | Err(serverMessage: Option<string>)

  /** A user as the contact endpoints return it (`_id`, `username`, `name`). */
  datatype Contact = Contact(id: string, username: string, name: string)

  /** The text set by `err.response?.data?.message || fallback`: JavaScript's `||`
      treats an empty message like a missing one. */
  function ErrorText(serverMessage: Option<string>, fallback: string): (text: string)
    ensures text == fallback || serverMessage == Some(text)
    ensures serverMessage.Some? && serverMessage.value != "" ==> text == serverMessage.value
    ensures text == "" <==> fallback == "" && (serverMessage.None? || serverMessage.value == "")
  {
    match serverMessage
    case Some(m) => if m != "" then m else fallback
    case None => fallback
  }
}

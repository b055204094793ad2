/**
 * What a handler sends back: a status code and the JSON body's fields, plus
 * the session cookie when one is set. Express mechanics are not modelled.
 */
module Http {
  import opened Wrappers
  import opened UserModel

  /**
   * The body's `message`: a text, a text with an attached error, a bare
   * error object, or none. A body that is a bare JSON string, as in
   * `res.json('...')`, counts as a `Text` message with no `status`.
   */
  datatype Message = NoMessage | Text(text: string) | TextWithError(text: string) | ErrorObject

  /** `res.cookie(name, value, { expires, httpOnly, secure })`; `expires` in milliseconds. */
  datatype Cookie = Cookie(name: string, value: string, expires: int, httpOnly: bool, secure: bool)

  datatype Response = Response(
    code: nat,
    status: Option<string>,    // the body's `status` field, absent for bare messages
    message: Message,
    token: Option<string>,
    user: Option<UserRecord>,  // `data.user`
    cookie: Option<Cookie>)

  /** A request value JavaScript treats as true: present and not the empty string. */
  predicate Truthy(v: Option<string>)
  {
    v.Some? && v.value != ""
  }

  /** `body[field]`, or `undefined` when the body has no such field. */
  function Field(body: map<string, string>, field: string): (v: Option<string>)
    ensures v.Some? <==> field in body
    ensures v.Some? ==> v.value == body[field]
  {
    if field in body then Some(body[field]) else None
  }

  /** A handler either sends a response or rejects its promise without sending one. */
  datatype Reply = Sent(response: Response) | Unhandled

  /** A response with only a status and a message. */
  function Json(code: nat, status: Option<string>, message: Message): (r: Response)
    ensures r.code == code && r.token.None? && r.user.None? && r.cookie.None?
  {
    Response(code, status, message, None, None, None)
  }
}

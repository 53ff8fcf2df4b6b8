/** Failure-carrying values shared by every module of the model.

    The Python toolkit signals failure by raising exceptions; the model returns
    them instead, as a `Result`, so that every error path of the source is a
    value a contract can talk about.
 */
module Outcome {

  /** An optional value: `None` where the source yields `None`. */
  datatype Option<+T> = None | Some(value: T) {
    function GetOr(default: T): T {
      match this
      case Some(v) => v
      case None => default
    }
  }

  /** The exceptions the toolkit raises, one constructor per distinct kind. */
  datatype Error =
      /** `ValueError` raised for invalid arguments or configuration. */
      ValueError
      /** `RuntimeError` raised by the shared helpers and the security client. */
    | RuntimeError
      /** `requests.HTTPError` from `raise_for_status()` on a non-2xx page. */
    | HttpStatusError(status: int)
      /** `KeyError` for an unknown provider operation. */
    | KeyError
      /** `requests.RequestException`: a connection failure or timeout that
          escaped every retry, or a URL `requests` refuses before sending. */
    | TransportError
      /** `ValueError` from `Response.json()` on a body that is not JSON. */
    | BadJson
      /** `TypeError`, e.g. a substring test on a value that is not a string. */
    | TypeError
      /** The social client's `AuthenticationError` (missing token, HTTP 401/403). */
    | AuthError
      /** The social client's `GitHubAPIError` (unexpected status, shape, or transport failure). */
    | ApiError
      /** `AttributeError`, e.g. `.get` on a decoded value that is not an object. */
    | AttributeError
      /** The token guard's `TokenScopeError`; the scopes it names are
          `TokenGuard.MissingScopes`. */
    | TokenScopeError
      /** The server script ran out of replies: an artefact of the model, never of the source. */
    | NoReply

  /** Either a value or the exception the source raises instead. */
  datatype Result<+T> = Ok(value: T) | Err(error: Error) {
    predicate IsFailure() {
      Err?
    }

    function PropagateFailure<U>(): Result<U>
      requires Err?
    {
      Err(error)
    }

    function Extract(): T
      requires Ok?
    {
      value
    }
  }
}

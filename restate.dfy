/**
 * Turning a storage error into the error a durable-execution handler
 * returns: a permanent error ends the invocation with an HTTP-style status
 * code chosen by its kind; any other error is handed back to be retried.
 */
module Restate {
  import opened Errors

  /** A handler's error: terminal with a status code, or retryable, carrying
      the storage error's kind. */
  datatype HandlerError = Terminal(code: nat) | Retryable(kind: ErrorKind)

  /** The kinds that name a client-side problem, each with its own 4xx code
      (or, for `Unsupported`, 501). */
  predicate HasOwnCode(k: ErrorKind)
  {
    k in {Unsupported, ConfigInvalid, NotFound, PermissionDenied, IsADirectory, NotADirectory, AlreadyExists}
  }

  /** The status code of a permanent error of kind `k`. */
  function StatusCode(k: ErrorKind): (code: nat)
    ensures code == 501 <==> k == Unsupported
    ensures code == 400 <==> k == ConfigInvalid
    ensures code == 404 <==> k == NotFound
    ensures code == 403 <==> k == PermissionDenied
    ensures code == 422 <==> k == IsADirectory || k == NotADirectory
    ensures code == 409 <==> k == AlreadyExists
    ensures code == 500 <==> !HasOwnCode(k)
  {
    match k
    case Unsupported => 501
    case ConfigInvalid => 400
    case NotFound => 404
    case PermissionDenied => 403
    case IsADirectory => 422
    case NotADirectory => 422
    case AlreadyExists => 409
    case _ => 500
  }

  /** `to_restate_error`, with whether the error is permanent as an input. */
  function ToRestateError(k: ErrorKind, permanent: bool): (r: HandlerError)
    ensures r.Terminal? <==> permanent
    ensures permanent ==> r.code == StatusCode(k)
    ensures !permanent ==> r == Retryable(k)
  {
    if permanent then Terminal(StatusCode(k)) else Retryable(k)
  }

  /** The codes of terminal errors: a client error (4xx) exactly when the
      kind is a path or configuration problem, a server error (5xx)
      otherwise, and never anything outside 400 to 501. */
  lemma StatusCodeClasses(k: ErrorKind)
    ensures 400 <= StatusCode(k) <= 501
    ensures StatusCode(k) < 500 <==> HasOwnCode(k) && k != Unsupported
  {
    if HasOwnCode(k) {
      assert k == Unsupported || k == ConfigInvalid || k == NotFound || k == PermissionDenied
        || k == IsADirectory || k == NotADirectory || k == AlreadyExists;
    }
  }

  /** Two permanent errors get the same code exactly when their kinds are the
      same or both are about the kind of a path. */
  lemma StatusCodeCollisions(a: ErrorKind, b: ErrorKind)
    requires HasOwnCode(a) && HasOwnCode(b)
    ensures StatusCode(a) == StatusCode(b) <==>
      a == b || ((a == IsADirectory || a == NotADirectory) && (b == IsADirectory || b == NotADirectory))
  {
    assert a == Unsupported || a == ConfigInvalid || a == NotFound || a == PermissionDenied
      || a == IsADirectory || a == NotADirectory || a == AlreadyExists;
  }
}

/** The error vocabulary of the authorization server and the two result shapes
    that stand for Python's optional values and raised exceptions. */
module Outcomes {

  datatype Option<+T> = None | Some(value: T)

  /** Why an `invalid_grant` was raised; the source keeps these apart by description. */
  datatype GrantFault =
    | NotFound
    | AlreadyUsed
    | Expired
    | WrongClient
    | RedirectMismatch
    | PkceMismatch
    | ReplayDetected
    | AlreadyDecided

  /** `BadValue` is Python's ValueError from a value object's constructor,
      `IntegrityFault` the database's unique-key violation. */
  datatype Error =
    | InvalidRequest
    | InvalidClient
    | UnauthorizedClient
    | InvalidScope
    | InvalidGrant(fault: GrantFault)
    | AccessDenied
    | AuthorizationPending
    | SlowDown
    | ExpiredToken
    | BadValue
    | IntegrityFault

  datatype Result<+T> = Ok(value: T) | Err(error: Error)
}

/** Values shared by the back end and the front end of the FabLab admin portal:
    optional values, results, the errors the controllers raise, and the
    identity an authenticated request carries. */
module Common {

  datatype Option<+T> = None | Some(value: T) {
    function GetOr(default: T): (r: T)
      ensures Some? ==> r == value
      ensures None? ==> r == default
    {
      match this
      case Some(v) => v
      case None => default
    }
  }

  datatype Result<+T, +E> = Ok(value: T) | Err(error: E)

  /** Record ids and user ids are system-assigned. */
  type RecordId = nat
  type UserId = nat

  /** What a failed request reports: an application error with its HTTP
      status and message, a rejected request body (the schema library's
      error, whose issue list is not modelled), or a query that the database
      client refuses before running it. */
  datatype Failure =
    | AppError(status: nat, message: string)
    | ValidationFailed
    | QueryRejected

  /** The claims a signed token carries. */
  datatype Payload = Payload(userId: UserId, email: string, role: string)
}

/** Option and Result, the shapes the hooks use for "maybe absent" values and for
    calls into the hosted backend that either answer or fail. */
module Wrappers {

  datatype Option<+T> = None | Some(value: T) {
    function GetOr(default: T): T {
      match this
      case Some(v) => v
      case None => default
    }
  }

  /** Why a call into the hosted backend failed. The model does not distinguish
      transport errors from validation errors: every caller only catches them. */
  datatype Error = GatewayError | NoUserLoggedIn

  datatype Result<+T> = Ok(value: T) | Err(error: Error)
}

/**
 * The Java exceptions the backend's services and controllers throw, as far
 * as the exception handler tells them apart.  A message or a cause may be
 * null.
 */
module Errors {
  import opened Base

  datatype Cause = Cause(message: Option<string>)

  datatype Exception =
    | ResourceNotFound(message: Option<string>)
    | IllegalArgument(message: Option<string>)
    | MaxUploadSizeExceeded
    | Other(message: Option<string>, cause: Option<Cause>)
}

/** Status codes and result types shared by every service. */
module Status {

  /** The gRPC status codes the four services answer with. */
  datatype Code =
    | InvalidArgument
    | NotFound
    | AlreadyExists
    | PermissionDenied
    | FailedPrecondition
    | Aborted
    | OutOfRange
    | Internal
    | Unavailable

  datatype Option<+T> = None | Some(value: T) {
    function GetOr(default: T): T {
      match this case Some(v) => v case None => default
    }
  }

  datatype Result<+T> = Ok(value: T) | Err(code: Code)
}

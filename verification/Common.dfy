/** Result values shared by every component. */
module Common {
  datatype Option<+T> = None | Some(value: T)

  datatype ErrorCode =
    | Generic
    | InvalidArguments
    | InsufficientPrivileges
    | InvalidConfiguration
    | UpstreamUnreachable
    | CoreVerificationFailure
    | CoreDownloadFailure
    | CoreStartFailure
    | StateError

  datatype Error = Error(code: ErrorCode, message: string)

  datatype Result<+T> = Success(value: T) | Failure(error: Error)
}

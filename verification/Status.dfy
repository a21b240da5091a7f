/** What an RPC handler answers: a value or a gRPC status code. */
module Status {

  datatype Code =
    | InvalidArgument
    | NotFound
    | AlreadyExists
    | FailedPrecondition
    | Aborted
    | OutOfRange
    | Unavailable
    | Internal

  datatype Outcome<+T> = Done(value: T) | Error(code: Code) {
    // status.Code(err) == codes.Aborted
    predicate IsAborted() {
      Error? && code == Aborted
    }
  }

  datatype Option<+T> = None | Some(value: T)
}

/** Shared vocabulary: optional values (Java's null), results, and the
    business error codes that the services raise. */
module Common {

  /** A Java reference that may be null. */
  datatype Option<+T> = None | Some(value: T)

  /** The error codes of the project's ErrorCode enumeration that the core raises. */
  datatype ErrorCode =
    | ParamsError
    | SystemError
    | NotLoginError
    | NoAuthError
    | OperationError

  /** What a call can throw. */
  datatype Error =
      /** a BusinessException carrying a code and a message */
    | Business(code: ErrorCode, message: string)
      /** an IllegalArgumentException (unsupported kind in the parser dispatch) */
    | IllegalArgument(message: string)
      /** a ClassCastException from downcasting a parse result to the wrong shape */
    | ClassCast
      /** a failing filesystem write, naming the path */
    | WriteFailed(path: string)

  /** The value of a call that either returns or throws. */
  datatype Result<+T> = Ok(value: T) | Fail(error: Error)
}

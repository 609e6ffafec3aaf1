/** Option and Result: the model's stand-ins for C#'s nullable references and
    for the exceptions and validation results the leaderboard returns. */
module Wrappers {

  datatype Option<+T> = None | Some(value: T)

  datatype Result<+R, +E> = Success(value: R) | Failure(error: E)
}

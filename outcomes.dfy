/** Optional values and success-or-failure results, used for absent request
    parameters, SQL NULL and storage failures. */
module Outcomes {

  datatype Option<+T> = None | Some(value: T)

  datatype Result<+R, +E> = Success(value: R) | Failure(error: E)
}

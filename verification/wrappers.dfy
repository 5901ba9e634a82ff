/** Optional values and success/failure results shared by the whole model.
    Python's `None` becomes `None`; a raised `ValueError` becomes `Failure`. */
module Wrappers {

  datatype Option<+T> = None | Some(value: T)

  datatype Result<+T, +E> = Success(value: T) | Failure(error: E)
}

/** Optional values and results with an error, for the sensor's missing
    readings, the environment's missing settings and the startup exit. */
module Wrappers {

  datatype Option<+T> = None | Some(value: T)

  datatype Result<+R, +E> = Success(value: R) | Failure(error: E)
}

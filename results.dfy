/** Option and Result, used for values the source leaves `undefined` and for its thrown errors. */
module Results {

  datatype Option<+T> = None | Some(value: T)

  datatype Result<+R, +E> = Success(value: R) | Failure(error: E)
}

/** Optional values and results, used for the partial parsers and the I/O the model takes as parameters. */
module Options {

  datatype Option<+T> = None | Some(value: T)

  datatype Result<+T, +E> = Success(value: T) | Failure(error: E)
}

/** Option and Result, the shapes the model uses for Python's `None` returns and raised `ValueError`s. */
module Results {

  datatype Option<+T> = None | Some(value: T)

  datatype Result<+T, +E> = Success(value: T) | Failure(error: E)
}

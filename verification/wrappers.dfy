/** Null and failure carriers used throughout the model.
    `Option` stands for a dataframe cell that may be null (NaN/None);
    `Result` for a step that may raise the one recognised failure. */
module Wrappers {

  datatype Option<+T> = None | Some(value: T)

  datatype Result<+R, +E> = Success(value: R) | Failure(error: E)
}

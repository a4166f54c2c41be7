/** Option and Result wrappers, and the Python exceptions the generator raises. */
module Wrappers {

  datatype Option<+T> = None | Some(value: T)

  /** The exceptions that escape the generation run, by their Python class. */
  datatype Error =
    | PostError(msg: string)      // oak.models.post.PostError
    | ValueError(msg: string)     // a failed tuple unpack
    | KeyError(key: string)       // a missing dictionary key
    | TypeError(msg: string)      // an operation applied to a value of the wrong kind
    | IndexError(msg: string)     // indexing an empty list

  datatype Result<+T> = Ok(value: T) | Err(error: Error)
}

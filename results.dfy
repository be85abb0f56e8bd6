/** Optional values and the exceptions the core raises, as values. */
module Results {

  datatype Option<+T> = None | Some(value: T)

  /** The exception classes (and HTTP statuses) the core produces. */
  datatype Error =
    | ValueError(message: string)
    | IndexError
    | NotImplementedError(message: string)
    | HttpError(status: nat, detail: string)

  datatype Result<+T> = Ok(value: T) | Err(error: Error)
}

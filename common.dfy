/** Optional values and the outcome of a request handler: a value, or the
    message of the `ArgumentError` the handler raised. */
module Common {

  datatype Option<+T> = None | Some(value: T)

  datatype Result<+T> = Ok(value: T) | Err(message: string)
}

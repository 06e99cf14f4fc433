/** Small value wrappers shared by the other modules: an absent-or-present value
    (the JavaScript `null`/`undefined` cases) and a success-or-error result. */
module Optional {

  datatype Option<+T> = None | Some(value: T)

  datatype Result<+T, +E> = Ok(value: T) | Err(error: E)
}

/** Failure-compatible wrappers shared by the other modules: JavaScript's
    `null`/`undefined` become `None`, a thrown error becomes `Failure`. */
module Options {

  datatype Option<+T> = None | Some(value: T)

  datatype Result<+R, +E> = Success(value: R) | Failure(error: E)
}

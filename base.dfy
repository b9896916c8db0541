/** Values shared by every part of the model: optional values, results and
    the kinds of error a request can end with. */
module Base {

  /** Rust's `u8`, the type of the configured sample count. */
  newtype u8 = x: int | 0 <= x < 256

  datatype Option<+T> = None | Some(value: T)

  /** The kinds of failure the handlers report. The source carries a message
      string in `AppError`; the model keeps only which collaborator failed. */
  datatype AppError =
    | NotFound        // `fetch_one` found no row
    | StoreFailure    // the storage engine reported an I/O failure
    | OracleFailure   // a completion call failed

  datatype Result<+T> = Ok(value: T) | Err(error: AppError)
}

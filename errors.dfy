/** The crate's error values and the two wrapper types the drive's code returns. */
module Errors {

  /** An error as the crate builds it with error-chain: a plain message (a `&str` or
      `String` turned into an error with `.into()`, or `ErrorKind::Msg`), or an error
      wrapped in a context message by `chain_err`. Collaborators fail with values of
      this type too. */
  datatype Error =
    | Msg(text: string)
    | Chained(context: string, cause: Error)

  /** The crate's `Result<T>`. */
  datatype Result<T> = Ok(value: T) | Err(error: Error)

  /** Rust's `Option<T>`. */
  datatype Option<T> = None | Some(value: T)

  /** Forgets the value of a successful result, keeping an error as it is
      (what `expr?;` followed by `Ok(())` amounts to). */
  function Discard<T>(r: Result<T>): (d: Result<()>)
    ensures d.Ok? <==> r.Ok?
    ensures r.Err? ==> d.error == r.error
  {
    if r.Ok? then Ok(()) else Err(r.error)
  }
}

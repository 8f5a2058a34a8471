/** Result types shared by every day of the puzzle solutions. */
module Common {

  /** Rust's `Option`. */
  datatype Option<T> = None | Some(value: T) {
    function GetOr(default: T): T {
      match this
      case Some(v) => v
      case None => default
    }
  }

  /**
   * The outcome of a `nom` parser on the remaining input.
   * Done    -- `Ok((rest, value))`;
   * Mismatch -- the recoverable `Err::Error` that alternatives and list
   *             combinators backtrack over;
   * Abort   -- a Rust panic raised while parsing (an `unwrap` or an
   *             `unimplemented!` inside a mapping closure).
   */
  datatype Parsed<T> = Done(value: T, rest: string) | Mismatch | Abort
}

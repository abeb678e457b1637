/** Failure-carrying results shared by the parsers and the stateful components. */
module Outcomes {

  /** Rust's `Option<T>`. */
  datatype Option<+T> = None | Some(value: T)

  /** Rust's `Result<T, E>`. */
  datatype Result<+T, +E> = Ok(value: T) | Err(error: E)

  /** A nom parser's `IResult`: the unconsumed input and the output on success,
      or a recoverable error that records the input at which the parser gave up. */
  datatype IResult<+T> = Done(rest: string, output: T) | Fail(at: string)

  /** `std::cmp::Ordering`. */
  datatype Ordering = Less | Equal | Greater

  /** `Ord::cmp` on unbounded naturals (the model of every Rust unsigned integer). */
  function CmpNat(a: nat, b: nat): (o: Ordering)
    ensures o == Equal <==> a == b
    ensures o == Less <==> a < b
  {
    if a < b then Less else if a == b then Equal else Greater
  }
}

/** Shared failure-compatible wrappers and the fixed-width integer types of the Rust code. */
module Base {

  /** An optional value (Rust's `Option`). */
  datatype Option<+T> = None | Some(value: T)

  /** A value or an error (Rust's `Result`). */
  datatype Result<+T, +E> = Success(value: T) | Failure(error: E) {

    /** Makes `Result` usable with `:-`, as Rust's `?` operator. */
    predicate IsFailure() {
      Failure?
    }

    function PropagateFailure<U>(): Result<U, E>
      requires Failure?
    {
      Failure(error)
    }

    function Extract(): T
      requires Success?
    {
      value
    }
  }

  /** Rust's `u32`. */
  type u32 = x: int | 0 <= x < 0x1_0000_0000

  /** Rust's `u64`. */
  type u64 = x: int | 0 <= x < 0x1_0000_0000_0000_0000
}

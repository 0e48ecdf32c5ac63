/** Machine integers and the failure outcomes of the puzzle computations.
    The Rust code panics where these computations fail; the model returns
    an `Err` carrying the reason instead. */
module Outcome {

  /** Largest value of Rust's `u32`. */
  const U32_MAX: int := 0xFFFF_FFFF

  /** Rust's `u32`: the values a depth reading, a distance and a coordinate may take. */
  type u32 = x: int | 0 <= x <= U32_MAX

  /** Why a computation stops instead of producing a value. */
  datatype Error =
    | InvalidInput   // the input sequence is shorter than the computation needs
    | Overflow       // an unsigned addition went past U32_MAX
    | Underflow      // an unsigned subtraction went below zero

  datatype Result<+T> = Ok(value: T) | Err(error: Error)
}

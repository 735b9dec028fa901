/** Scalar widths and the optional-value wrapper shared by every module. */
module Types {

  /** Rust's `Option<T>`. */
  datatype Option<+T> = None | Some(value: T)

  /** Rust's `u8` where it is used as a number (register addresses). */
  type u8 = x: int | 0 <= x < 0x100

  /** Rust's `u32`. */
  type u32 = x: int | 0 <= x < 0x1_0000_0000

  /** Rust's `u64`. */
  type u64 = x: int | 0 <= x < 0x1_0000_0000_0000_0000

  /** The `Result<()>` of an operation: success, or an error message. */
  datatype Outcome = Ok | Err(message: string)
}

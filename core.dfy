/** The two pieces of Rust's core library that every other module shares:
    the `Result` type (also the shape of `io::Result` and `nb::Result`) and
    the unsigned byte `u8`. */
module Core {

  /** core::result::Result */
  datatype Result<+T, +E> = Ok(value: T) | Err(error: E)

  /** u8 */
  newtype Byte = x: int | 0 <= x < 0x100
}

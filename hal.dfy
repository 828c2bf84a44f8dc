/** The types the embedded-hal and nb crates define and the adapter maps
    into: the HAL's serial error classification and the non-blocking
    three-way result. */
module Hal {
  import opened Core

  /** embedded_hal::serial::ErrorKind */
  datatype ErrorKind = Overrun | FrameFormat | Parity | Noise | Other

  /** nb::Error<E>: "retry later" or a hard error. */
  datatype NbError<+E> = WouldBlock | Other(error: E)

  /** nb::Result<T, E> */
  type NbResult<T, E> = Result<T, NbError<E>>
}

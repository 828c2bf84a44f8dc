# serialport-rs: the embedded-hal adapter, modelled in Dafny

This project models `src/embedded.rs` of serialport-rs, the adapter that
exposes a serial port (`Box<dyn SerialPort>`) through the embedded-hal
serial traits. It has three parts:

- **Error model** (`embedded.dfy`, module `Embedded`). `SerialError` keeps
  only the `io::ErrorKind` of an `io::Error`. Its HAL `kind()` is always the
  catch-all `ErrorKind::Other`.
- **Non-blocking adapter** (`nonblocking.dfy`, module `Nonblocking`).
  `io_error_to_nb` sends `WouldBlock` and `Interrupted` to
  `nb::Error::WouldBlock` and every other kind to a hard error carrying that
  kind. The single-byte `read`, the one-word `write` and `flush` each make
  exactly one port call and pass its failure through that rule. `read` also
  turns "0 bytes read" into would-block. `write` discards the byte count.
- **Blocking adapter** (`blocking.dfy`, module `Blocking`). `write(buffer)`
  is one `write_all`, and `flush` is one `flush`. A failure is converted by
  `?` (the `From` conversion); there is no would-block outcome.

Supporting modules: `Core` (`Result`, `u8` as `Byte`), `Io` (a
representative `io::ErrorKind`, `io::Error` with the OS code and message
that the conversion drops, and `Port`, a serial port seen only as a
source of outcomes), `Hal` (embedded-hal's `ErrorKind`, `nb::Error`). Each
call on a `Port` answers with its kind's reply function, taken at the number
of calls made so far, and every call is logged, so the adapter methods can state that they make
exactly one call, with which bytes. Each adapter method is proved equal to
a pure function of the port's reply (`ReadResult`, `WriteResult`, `MapErr`,
`Propagate`), and the lemmas are stated about those functions.
`client.dfy` shows what a caller can conclude from the method contracts
for a read of 0 bytes, a read of `0x41`, a three-byte `write_all`, and a
write refused with `WouldBlock`.

Two details of the code worth noting:

- `read` returns `buffer[0]` for any positive count, not only for a count
  of one (src/embedded.rs:53); `Nonblocking.ReadResult` states this.
- embedded-hal's `ErrorKind` has richer variants (`Overrun`, `FrameFormat`,
  `Parity`, `Noise`), but `kind()` always answers `ErrorKind::Other`
  (src/embedded.rs:19-21); `Embedded.Kind` does the same.

## Model

| member | source | states |
|---|---|---|
| Embedded.Kind | src/embedded.rs:16-22 | the HAL kind of every SerialError is `ErrorKind::Other`, whatever io kind it stores |
| Embedded.From | src/embedded.rs:25-31 | the conversion is total and the SerialError keeps the io error's kind |
| Embedded.FromKeepsExactlyKind | src/embedded.rs:25-31 | two io errors convert to the same SerialError if and only if their kinds agree; OS code and message are dropped |
| Embedded.FromReachesEverySerialError | src/embedded.rs:11-31 | every SerialError value is the conversion of some io error |
| Embedded.KindOfFromIsConstant | src/embedded.rs:17-31 | the HAL kind of a converted error is the same for all io errors |
| Nonblocking.IoErrorToNb | src/embedded.rs:42-47 | the result is WouldBlock if and only if the kind is WouldBlock or Interrupted; otherwise it is a hard error equal to the `From` conversion, with the kind kept |
| Nonblocking.IoErrorToNbSplitsByKind | src/embedded.rs:43-45 | transient kinds give WouldBlock, never a hard error; any other kind K gives `Other(SerialError { kind: K })` |
| Nonblocking.MapErr | src/embedded.rs:68-70 | success passes through with its value; failure is WouldBlock exactly for transient kinds and otherwise a hard error with the converted SerialError |
| Nonblocking.ReadResult | src/embedded.rs:50-58 | Ok exactly when the port reports a positive count, and then the value is the buffer's byte; WouldBlock exactly for 0 bytes read or a transient failure; hard error exactly for a non-transient failure, carrying its kind |
| Nonblocking.WriteResult | src/embedded.rs:62-66 | `Ok(())` exactly when the port's write succeeds, whatever count it reports (0 included); WouldBlock exactly for a transient failure; a hard error carries the converted failure |
| Nonblocking.Read | src/embedded.rs:50-58 | makes one port read into a 1-byte buffer, changes nothing else on the port, and returns ReadResult of the port's reply |
| Nonblocking.Write | src/embedded.rs:62-66 | makes one port write of exactly `[word]` and returns WriteResult of the port's reply |
| Nonblocking.Flush | src/embedded.rs:68-70 | makes one port flush and returns MapErr of the port's reply |
| Nonblocking.SameErrorRule | src/embedded.rs:52-69 | read, write and flush turn a port failure into the same `io_error_to_nb` result |
| Nonblocking.ReadReportsExactly | src/embedded.rs:42-58 | a read can report exactly: any byte, WouldBlock, or a hard error whose kind is not transient |
| Nonblocking.WriteReportsExactly | src/embedded.rs:42-66 | a write can report exactly: `Ok(())`, WouldBlock, or a hard error whose kind is not transient |
| Nonblocking.FlushReportsExactly | src/embedded.rs:42-70 | a flush can report exactly: `Ok(())`, WouldBlock, or a hard error whose kind is not transient |
| Blocking.Propagate | src/embedded.rs:79-85 | `Ok(())` exactly when the port call succeeds; otherwise the error converted by `From`, with its kind kept; no would-block outcome |
| Blocking.Write | src/embedded.rs:79-81 | makes one `write_all` of exactly the given buffer and returns Propagate of the port's reply |
| Blocking.Flush | src/embedded.rs:83-85 | makes one port flush and returns Propagate of the port's reply |
| Blocking.FlushesAgree | src/embedded.rs:68-85 | for every flush outcome, the non-blocking flush equals the blocking flush with transient failures read as WouldBlock |

## Left out

- The `SerialPort` trait and its platform backends, which do the device I/O. The port is modelled only as `Io.Port`, a source of outcomes indexed by call number.
- The internals of `io::Write::write_all`: its loop over partial writes, its retry on `Interrupted` and its `WriteZero` error. `Blocking.Write` sees one all-or-fail outcome.
- The `ErrorType for Box<dyn SerialPort>` binding (src/embedded.rs:33-35), dynamic dispatch, the `Debug`/`Copy`/`Clone` derives and the cargo feature gating. They carry no behaviour.
- Thread safety and reentrancy. The adapter does no locking and assumes exclusive access to the port.
- The full `io::ErrorKind` enumeration. `Io.ErrorKind` keeps `WouldBlock`, `Interrupted` and a representative set of other kinds; every rule is stated for all of them.
- How a port writes into the read buffer beyond its first byte. `Io.Port.Read` writes the reply's byte at the front when it reports a positive count; the adapter reads only that byte.

/** The blocking adapter (embedded-hal serial::Write for a serial port):
    write_all and flush are passed through, and a failure is converted to a
    SerialError by `?`. There is no would-block outcome. */
module Blocking {
  import opened Core
  import Io
  import Hal
  import Embedded
  import Nonblocking

  /** `Ok(outcome?)`: success stays success, a failure becomes the
      SerialError converted from it. */
  function Propagate(outcome: Io.IoResult<()>): (r: Result<(), Embedded.SerialError>)
    ensures r.Ok? <==> outcome.Ok?
    ensures r.Err? ==> r.error == Embedded.From(outcome.error) && r.error.kind == outcome.error.kind
  {
    match outcome
    case Ok(u) => Ok(u)
    case Err(e) => Err(Embedded.From(e))
  }

  /** serial::Write::write(buffer): one write_all of the whole buffer. */
  method Write(port: Io.Port, buffer: seq<Byte>) returns (r: Result<(), Embedded.SerialError>)
    modifies port
    ensures port.calls == old(port.calls) + [Io.WriteAllCall(buffer)]
    ensures r == Propagate(port.writeAllReplies(|old(port.calls)|))
  {
    var outcome := port.WriteAll(buffer);
    match outcome
    case Ok(u) => r := Ok(u);
    case Err(e) => r := Err(Embedded.From(e));
  }

  /** serial::Write::flush: one flush of the port. */
  method Flush(port: Io.Port) returns (r: Result<(), Embedded.SerialError>)
    modifies port
    ensures port.calls == old(port.calls) + [Io.FlushCall]
    ensures r == Propagate(port.flushReplies(|old(port.calls)|))
  {
    var outcome := port.Flush();
    match outcome
    case Ok(u) => r := Ok(u);
    case Err(e) => r := Err(Embedded.From(e));
  }

  /** The non-blocking reading of a blocking result: a SerialError of a
      transient kind means "retry later". */
  function AsNonblocking(r: Result<(), Embedded.SerialError>): Nonblocking.NbResult<()>
  {
    match r
    case Ok(u) => Ok(u)
    case Err(e) =>
      if Nonblocking.IsTransient(e.kind) then Err(Hal.NbError.WouldBlock)
      else Err(Hal.NbError.Other(e))
  }

  /** For every outcome of the port's flush, the non-blocking flush is the
      blocking one with transient failures read as WouldBlock: the two
      adapters differ in nothing else. */
  lemma FlushesAgree(outcome: Io.IoResult<()>)
    ensures Nonblocking.MapErr(outcome) == AsNonblocking(Propagate(outcome))
  {
  }
}

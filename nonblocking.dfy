/** The non-blocking single-byte adapter (embedded-hal-nb serial::Read and
    serial::Write for a serial port): each operation makes one call on the
    port and turns its io::Result into an nb::Result, where WouldBlock and
    Interrupted mean "retry later" and every other kind is a hard error. */
module Nonblocking {
  import opened Core
  import Io
  import Hal
  import Embedded

  type NbResult<T> = Hal.NbResult<T, Embedded.SerialError>

  /** The kinds the adapter treats as transient: the caller polls again. */
  predicate IsTransient(k: Io.ErrorKind)
  {
    k == Io.ErrorKind.WouldBlock || k == Io.ErrorKind.Interrupted
  }

  /** io_error_to_nb: transient kinds become WouldBlock, every other kind a
      hard error that carries the converted SerialError. */
  function IoErrorToNb(e: Io.Error): (r: Hal.NbError<Embedded.SerialError>)
    ensures r.WouldBlock? <==> IsTransient(e.kind)
    ensures r.Other? ==> r.error == Embedded.From(e) && r.error.kind == e.kind
  {
    match e.kind
    case WouldBlock | Interrupted => Hal.NbError.WouldBlock
    case other => Hal.NbError.Other(Embedded.SerialError(other))
  }

  /** `.map_err(io_error_to_nb)`: a port outcome as an nb::Result. A
      success passes through untouched; a failure goes through
      IoErrorToNb and nothing else. Non-blocking flush is exactly this. */
  function MapErr<T>(outcome: Io.IoResult<T>): (r: NbResult<T>)
    ensures r.Ok? <==> outcome.Ok?
    ensures r.Ok? ==> r.value == outcome.value
    ensures r == Err(Hal.NbError.WouldBlock) <==> outcome.Err? && IsTransient(outcome.error.kind)
    ensures r.Err? && r.error.Other? <==> outcome.Err? && !IsTransient(outcome.error.kind)
    ensures r.Err? && r.error.Other? ==> r.error.error == Embedded.From(outcome.error)
  {
    match outcome
    case Ok(v) => Ok(v)
    case Err(e) => Err(IoErrorToNb(e))
  }

  /** The result of a non-blocking read, given the port's outcome for a
      read into a 1-byte buffer and what that buffer then holds. */
  function ReadResult(outcome: Io.IoResult<nat>, buffer: Byte): (r: NbResult<Byte>)
    ensures r.Ok? <==> outcome.Ok? && outcome.value > 0
    ensures r.Ok? ==> r.value == buffer
    ensures r == Err(Hal.NbError.WouldBlock) <==>
              (outcome.Ok? && outcome.value == 0) || (outcome.Err? && IsTransient(outcome.error.kind))
    ensures r.Err? && r.error.Other? <==> outcome.Err? && !IsTransient(outcome.error.kind)
    ensures r.Err? && r.error.Other? ==> r.error.error == Embedded.From(outcome.error)
  {
    match MapErr(outcome)
    case Err(e) => Err(e)
    case Ok(n) => if n > 0 then Ok(buffer) else Err(Hal.NbError.WouldBlock)
  }

  /** The result of a non-blocking write of one word: any success is Ok(()),
      whatever count the port reports (0 included). */
  function WriteResult(outcome: Io.IoResult<nat>): (r: NbResult<()>)
    ensures r == Ok(()) <==> outcome.Ok?
    ensures r == Err(Hal.NbError.WouldBlock) <==> outcome.Err? && IsTransient(outcome.error.kind)
    ensures r.Err? && r.error.Other? ==> outcome.Err? && r.error.error == Embedded.From(outcome.error)
  {
    match MapErr(outcome)
    case Ok(_) => Ok(())
    case Err(e) => Err(e)
  }

  /** serial::Read::read: one read of at most one byte into a fresh zeroed
      buffer. */
  method Read(port: Io.Port) returns (r: NbResult<Byte>)
    modifies port
    ensures port.calls == old(port.calls) + [Io.ReadCall(1)]
    ensures r == ReadResult(port.readReplies(|old(port.calls)|).outcome,
                            port.readReplies(|old(port.calls)|).data)
  {
    var buffer := new Byte[1](_ => 0);
    var outcome := port.Read(buffer);
    if outcome.Err? {
      return Err(IoErrorToNb(outcome.error));
    }
    if outcome.value > 0 {
      r := Ok(buffer[0]);
    } else {
      r := Err(Hal.NbError.WouldBlock);
    }
  }

  /** serial::Write::write: one write of the single word; the count is
      discarded. */
  method Write(port: Io.Port, word: Byte) returns (r: NbResult<()>)
    modifies port
    ensures port.calls == old(port.calls) + [Io.WriteCall([word])]
    ensures r == WriteResult(port.writeReplies(|old(port.calls)|))
  {
    var outcome := port.Write([word]);
    match outcome
    case Ok(_) => r := Ok(());
    case Err(e) => r := Err(IoErrorToNb(e));
  }

  /** serial::Write::flush: one flush of the port. */
  method Flush(port: Io.Port) returns (r: NbResult<()>)
    modifies port
    ensures port.calls == old(port.calls) + [Io.FlushCall]
    ensures r == MapErr(port.flushReplies(|old(port.calls)|))
  {
    var outcome := port.Flush();
    match outcome
    case Ok(u) => r := Ok(u);
    case Err(e) => r := Err(IoErrorToNb(e));
  }

  /** A hard error the adapter reports never carries a transient kind. */
  predicate NoTransientHardError<T>(r: NbResult<T>)
  {
    r.Err? && r.error.Other? ==> !IsTransient(r.error.error.kind)
  }

  /** Transient errors never become hard errors, and every other kind keeps
      its kind in the hard error: a corollary of IoErrorToNb's contract,
      stated arm by arm. */
  lemma IoErrorToNbSplitsByKind(e: Io.Error)
    ensures IsTransient(e.kind) ==> IoErrorToNb(e) == Hal.NbError.WouldBlock
    ensures !IsTransient(e.kind) ==> IoErrorToNb(e) == Hal.NbError.Other(Embedded.SerialError(e.kind))
  {
  }

  /** Read, write and flush translate a port failure by one and the same
      rule. */
  lemma SameErrorRule(e: Io.Error, buffer: Byte)
    ensures ReadResult(Err(e), buffer) == Err(IoErrorToNb(e))
    ensures WriteResult(Err(e)) == Err(IoErrorToNb(e))
    ensures MapErr<()>(Err(e)) == Err(IoErrorToNb(e))
  {
  }

  /** What a read can report is exactly: any byte, WouldBlock, or a hard
      error of a non-transient kind. */
  lemma ReadReportsExactly(r: NbResult<Byte>)
    ensures NoTransientHardError(r) <==> exists outcome, buffer :: ReadResult(outcome, buffer) == r
  {
    if NoTransientHardError(r) {
      match r
      case Ok(b) =>
        assert ReadResult(Ok(1), b) == r;
      case Err(WouldBlock) =>
        assert ReadResult(Ok(0), 0) == r;
      case Err(Other(s)) =>
        assert ReadResult(Err(Io.Error(s.kind, 0, "")), 0) == r;
    }
  }

  /** What a write can report is exactly: Ok(()), WouldBlock, or a hard
      error of a non-transient kind. */
  lemma WriteReportsExactly(r: NbResult<()>)
    ensures NoTransientHardError(r) <==> exists outcome :: WriteResult(outcome) == r
  {
    if NoTransientHardError(r) {
      match r
      case Ok(u) =>
        match u { case () => assert WriteResult(Ok(0)) == r; }
      case Err(WouldBlock) =>
        assert WriteResult(Err(Io.Error(Io.ErrorKind.WouldBlock, 0, ""))) == r;
      case Err(Other(s)) =>
        assert WriteResult(Err(Io.Error(s.kind, 0, ""))) == r;
    }
  }

  /** What a flush can report is exactly: Ok(()), WouldBlock, or a hard
      error of a non-transient kind. */
  lemma FlushReportsExactly(r: NbResult<()>)
    ensures NoTransientHardError(r) <==> exists outcome :: MapErr<()>(outcome) == r
  {
    if NoTransientHardError(r) {
      match r
      case Ok(u) =>
        assert MapErr<()>(Ok(u)) == r;
      case Err(WouldBlock) =>
        assert MapErr<()>(Err(Io.Error(Io.ErrorKind.Interrupted, 0, ""))) == r;
      case Err(Other(s)) =>
        assert MapErr<()>(Err(Io.Error(s.kind, 0, ""))) == r;
    }
  }
}

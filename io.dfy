/** The parts of Rust's std::io the adapter relies on: the coarse error
    classification `io::ErrorKind`, `io::Error`, `io::Result`, and a serial
    port seen only as a source of outcomes for its read, write, write_all and
    flush calls. */
module Io {
  import opened Core

  /** A representative part of io::ErrorKind: the two kinds the adapter
      singles out (WouldBlock, Interrupted) and the others a serial port
      commonly reports. */
  datatype ErrorKind =
    | NotFound
    | PermissionDenied
    | ConnectionReset
    | BrokenPipe
    | WouldBlock
    | InvalidInput
    | InvalidData
    | TimedOut
    | WriteZero
    | Interrupted
    | Unsupported
    | UnexpectedEof
    | Other

  /** An io::Error: its coarse kind plus the finer detail (OS code, message
      text) that the adapter throws away. */
  datatype Error = Error(kind: ErrorKind, osCode: int, message: string)

  /** io::Result<T> */
  type IoResult<T> = Result<T, Error>

  /** What the port does on one read: the outcome it reports and the byte it
      stores at the front of the caller's buffer when it reports at least
      one byte. */
  datatype ReadReply = ReadReply(outcome: IoResult<nat>, data: Byte)

  /** One call made on the port, with the bytes handed to it. */
  datatype Call =
    | ReadCall(capacity: nat)
    | WriteCall(bytes: seq<Byte>)
    | WriteAllCall(bytes: seq<Byte>)
    | FlushCall

  /** The buffer contents after a read that gave `reply`. */
  function Filled(before: seq<Byte>, reply: ReadReply): seq<Byte>
  {
    if reply.outcome.Ok? && reply.outcome.value > 0 && |before| > 0
    then before[0 := reply.data]
    else before
  }

  /** A serial port (`Box<dyn SerialPort>`) as the adapter sees it: each
      call answers with its kind's reply function taken at the number of
      calls (of any kind) made so far, and every call is logged in `calls`. */
  class Port {
    const readReplies: nat -> ReadReply
    const writeReplies: nat -> IoResult<nat>
    const writeAllReplies: nat -> IoResult<()>
    const flushReplies: nat -> IoResult<()>
    var calls: seq<Call>

    constructor (readReplies: nat -> ReadReply, writeReplies: nat -> IoResult<nat>,
                 writeAllReplies: nat -> IoResult<()>, flushReplies: nat -> IoResult<()>)
      ensures this.readReplies == readReplies && this.writeReplies == writeReplies
      ensures this.writeAllReplies == writeAllReplies && this.flushReplies == flushReplies
      ensures calls == []
    {
      this.readReplies := readReplies;
      this.writeReplies := writeReplies;
      this.writeAllReplies := writeAllReplies;
      this.flushReplies := flushReplies;
      calls := [];
    }

    /** io::Read::read: fills a prefix of `buf` and reports how many bytes. */
    method Read(buf: array<Byte>) returns (outcome: IoResult<nat>)
      modifies this, buf
      ensures calls == old(calls) + [ReadCall(buf.Length)]
      ensures outcome == readReplies(|old(calls)|).outcome
      ensures buf[..] == Filled(old(buf[..]), readReplies(|old(calls)|))
    {
      var reply := readReplies(|calls|);
      calls := calls + [ReadCall(buf.Length)];
      outcome := reply.outcome;
      if outcome.Ok? && outcome.value > 0 && buf.Length > 0 {
        buf[0] := reply.data;
      }
    }

    /** io::Write::write: reports how many of `bytes` it took. */
    method Write(bytes: seq<Byte>) returns (outcome: IoResult<nat>)
      modifies this
      ensures calls == old(calls) + [WriteCall(bytes)]
      ensures outcome == writeReplies(|old(calls)|)
    {
      outcome := writeReplies(|calls|);
      calls := calls + [WriteCall(bytes)];
    }

    /** io::Write::write_all: all of `bytes` is written, or it fails. */
    method WriteAll(bytes: seq<Byte>) returns (outcome: IoResult<()>)
      modifies this
      ensures calls == old(calls) + [WriteAllCall(bytes)]
      ensures outcome == writeAllReplies(|old(calls)|)
    {
      outcome := writeAllReplies(|calls|);
      calls := calls + [WriteAllCall(bytes)];
    }

    /** io::Write::flush */
    method Flush() returns (outcome: IoResult<()>)
      modifies this
      ensures calls == old(calls) + [FlushCall]
      ensures outcome == flushReplies(|old(calls)|)
    {
      outcome := flushReplies(|calls|);
      calls := calls + [FlushCall];
    }
  }
}

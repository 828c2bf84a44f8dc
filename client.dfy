/** What a caller of the adapter can conclude from the method contracts
    alone, for four example exchanges: a read of 0 bytes, a
    read of the byte 0x41, a write_all of three bytes, and a one-word write
    that the port refuses with WouldBlock. */
module Client {
  import opened Core
  import Io
  import Hal
  import Nonblocking
  import Blocking

  method ExampleExchanges()
  {
    var port := new Io.Port(
      i => if i == 0 then Io.ReadReply(Ok(0), 0) else Io.ReadReply(Ok(1), 0x41),
      _ => Err(Io.Error(Io.ErrorKind.WouldBlock, 11, "Resource temporarily unavailable")),
      _ => Ok(()),
      _ => Ok(()));

    var r := Nonblocking.Read(port);
    assert r == Err(Hal.NbError.WouldBlock);
    r := Nonblocking.Read(port);
    assert r == Ok(0x41);

    var b := Blocking.Write(port, [0x01, 0x02, 0x03]);
    assert b == Ok(());

    var w := Nonblocking.Write(port, 0x7e);
    assert w == Err(Hal.NbError.WouldBlock);

    assert port.calls == [Io.ReadCall(1), Io.ReadCall(1),
                          Io.WriteAllCall([0x01, 0x02, 0x03]), Io.WriteCall([0x7e])];
  }
}

/** The error model of the embedded-hal adapter: `SerialError` keeps only
    the coarse kind of an io::Error and always classifies as the HAL's
    catch-all kind. */
module Embedded {
  import Io
  import Hal

  /** SerialError { kind: io::ErrorKind } */
  datatype SerialError = SerialError(kind: Io.ErrorKind)

  /** embedded_hal::serial::Error::kind for SerialError: every stored io
      kind falls into the HAL's catch-all. */
  function Kind(e: SerialError): (k: Hal.ErrorKind)
    ensures k == Hal.ErrorKind.Other
  {
    match e.kind
    case _ => Hal.ErrorKind.Other
  }

  /** From<io::Error> for SerialError */
  function From(e: Io.Error): (r: SerialError)
    ensures r.kind == e.kind
  {
    SerialError(e.kind)
  }

  /** The conversion keeps the kind and nothing else: two io errors convert
      to the same SerialError exactly when their kinds agree, whatever their
      OS codes and messages. */
  lemma FromKeepsExactlyKind(e1: Io.Error, e2: Io.Error)
    ensures From(e1) == From(e2) <==> e1.kind == e2.kind
  {
  }

  /** Every SerialError is the conversion of some io::Error, so no
      SerialError holds anything a conversion could not produce. */
  lemma FromReachesEverySerialError(s: SerialError)
    ensures exists e :: From(e) == s
  {
    assert From(Io.Error(s.kind, 0, "")) == s;
  }

  /** Classifying a converted error does not depend on the io error at all:
      a corollary of Kind's contract, stated for converted errors. */
  lemma KindOfFromIsConstant(e1: Io.Error, e2: Io.Error)
    ensures Kind(From(e1)) == Kind(From(e2)) == Hal.ErrorKind.Other
  {
  }
}

/** The error taxonomy of the connector (connector-sdk/src/resilience/errors.ts). Messages carry no
    decision and are left out; Foreign is any thrown value that is not a ConnectorError. */
module Errors {
  import opened Json

  datatype Error =
    | TransportError
    | TimeoutError
    | NotConnectedError
    | RemoteError
    | EngineUnavailableError
    | VersionMismatchError
    | ValidationError
    | RetryExhaustedError(attempts: nat, cause: Error)
    | Foreign

  /** The retryable flag each class sets; anything that is not a ConnectorError has none. */
  predicate IsRetryable(e: Error) { e.TransportError? || e.NotConnectedError? }

  /** Writes retry only what certainly was not sent. */
  predicate IsWriteRetryable(e: Error) { e.NotConnectedError? }

  /** Errors safeScan turns into its fallback decision. */
  predicate IsAvailabilityError(e: Error) {
    || e.TimeoutError? || e.NotConnectedError? || e.TransportError?
    || e.RetryExhaustedError? || e.EngineUnavailableError?
  }

  /** The codes a reply may carry, and the errors they stand for. */
  const WIRE_ERRORS: map<JsString, Error> := map[
    Js("UNAVAILABLE") := EngineUnavailableError,
    Js("NOT_CONNECTED") := NotConnectedError,
    Js("TRANSPORT") := TransportError,
    Js("TIMEOUT") := TimeoutError,
    Js("VALIDATION") := ValidationError,
    Js("VERSION_MISMATCH") := VersionMismatchError]

  /** connectorErrorFromWire: unknown codes degrade to a definitive remote error. */
  function FromWire(code: JsString): Error {
    if code == Js("UNAVAILABLE") then EngineUnavailableError
    else if code == Js("NOT_CONNECTED") then NotConnectedError
    else if code == Js("TRANSPORT") then TransportError
    else if code == Js("TIMEOUT") then TimeoutError
    else if code == Js("VALIDATION") then ValidationError
    else if code == Js("VERSION_MISMATCH") then VersionMismatchError
    else RemoteError
  }

  /** Every code of the table gives its error, and every other code a definitive remote error. */
  lemma FromWireIsTable(code: JsString)
    ensures FromWire(code) == if code in WIRE_ERRORS then WIRE_ERRORS[code] else RemoteError
  {
    assert |Js("UNAVAILABLE")| == 11 && |Js("NOT_CONNECTED")| == 13 && |Js("TRANSPORT")| == 9;
    assert |Js("TIMEOUT")| == 7 && |Js("VALIDATION")| == 10 && |Js("VERSION_MISMATCH")| == 16;
  }
}

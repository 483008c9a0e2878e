/** Return codes of the adapter and of the host framework it reports to. */
module Status {

  /** The host framework's success code; every operation returns it when nothing failed. */
  const DEVICE_OK: int := 0

  // The adapter's own error codes.
  const ERR_BOARD_NOT_FOUND: int := 101
  const ERR_PORT_OPEN_FAILED: int := 102
  const ERR_NO_PORT_SET: int := 103
  const ERR_VERSION_MISMATCH: int := 104
  /** Also the value the firmware answers with when it does not know the requested address. */
  const ERR_COMMAND_UNKNOWN: int := 65535

  /** A code that reports a failure. */
  type ErrorCode = c: int | c != DEVICE_OK witness ERR_BOARD_NOT_FOUND

  /** The adapter's error codes, in declaration order. */
  function AdapterErrors(): (codes: seq<int>)
    ensures |codes| == 5
    ensures forall i, j :: 0 <= i < j < |codes| ==> codes[i] != codes[j]
    ensures DEVICE_OK !in codes
    ensures ERR_COMMAND_UNKNOWN in codes
  {
    [ERR_BOARD_NOT_FOUND, ERR_PORT_OPEN_FAILED, ERR_NO_PORT_SET, ERR_VERSION_MISMATCH, ERR_COMMAND_UNKNOWN]
  }
}

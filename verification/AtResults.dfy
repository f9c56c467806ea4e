/** Limits and result codes of app/src/at.h and app/src/sreg.h. */
module AtResults {
  const AT_LINE_MAX := 200
  const SREG_MAX_CLUSTERS := 8

  const AT_OK := 0
  const AT_ERR_INVALID_SREG := 0x04
  const AT_ERR_INVALID_PARAM := 0x05
  const AT_ERR_NO_BUFFERS := 0x18
  const AT_ERR_READ_ONLY := 0x19
  const AT_ERR_BAD_PASSWORD := 0x20
  const AT_ERR_CANNOT_FORM := 0x25
  const AT_ERR_NO_NETWORK := 0x27
  const AT_ERR_IN_PAN := 0x28
  const AT_ERR_TOO_MANY_UCAST := 0x72
  const AT_ERR_MSG_TOO_LONG := 0x74
  const AT_ERR_NOT_JOINED := 0x93
  const AT_ERR_CANNOT_JOIN := 0x94
}

/** The error codes that the audio HAL returns, negated. */
module ErrorCodes {
  const EIO: int := 5
  const EBUSY: int := 16
  const EINVAL: int := 22
}

/** The gateway's fixed limits. */
module Limits {
  const MAX_HEADER_BYTES: nat := 8 * 1024
  const MAX_HEADER_COUNT: nat := 100
  const MAX_BODY_BYTES: nat := 1024 * 1024
  const MAX_READ_BUFFER: nat := 2 * 1024 * 1024
  const MAX_WRITE_BUFFER: nat := 4 * 1024 * 1024
  const INT_MAX: nat := 0x7FFF_FFFF
}

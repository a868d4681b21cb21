/**
 * Error codes returned by the engine's entry points, and the coarse
 * classifier kept in the handle's LastError field (include/bricli/error.h).
 */
module Errors {
  const Unknown: int := -8
  const Unauthorized: int := -7
  const ReceivedNull: int := -6
  const CopyWouldOverflow: int := -5
  const BadCommand: int := -4
  const BadParameter: int := -3
  const BadHandle: int := -2
  const BadFunction: int := -1
  const Ok: int := 0

  /** Whether the most recent failure came from the engine or from a command handler. */
  datatype LastError = ErrorNone | ErrorInternal | ErrorCommand
}

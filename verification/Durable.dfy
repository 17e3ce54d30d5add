/** Durable replacement of a file: write a temporary file, rename it, sync the directory. */
module Durable {

  /** A replace can fail before the rename, leaving the old file, or on the directory sync,
      leaving the new one; the caller sees an error either way. */
  datatype WriteOutcome = Durable | NotReplaced | ReplacedNotSynced
}

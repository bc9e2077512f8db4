/**
  The parts of the uavcan.protocol.file data types that the backend uses:
  the status it returns, the `INVALID_VALUE` error code and the entry-type
  flags of a GetInfo reply.
 */
module UavcanFile {
  import opened CTypes

  /** The `int16_t` status a backend call returns; zero means success. */
  type Status = int16

  /** A status that reports a failure. */
  type ErrorCode = s: Status | s != 0 witness 1

  /**
    `uavcan::protocol::file::Error::INVALID_VALUE`. Its numeric value comes
    from generated code that is not part of this model; the model relies only
    on its being a nonzero `int16_t`, which its type states.
   */
  const INVALID_VALUE: ErrorCode

  /**
    The flag bits of `uavcan::protocol::file::EntryType`. The bits are
    distinct, so a flag word is modelled as the set of bits that are on and
    `|` of two flags as the union of their sets.
   */
  datatype EntryFlag = FlagFile | FlagDirectory | FlagSymlink | FlagReadable | FlagWriteable

  /** `EntryType`: a record whose only field is the flag word. */
  datatype EntryType = EntryType(flags: set<EntryFlag>)
}

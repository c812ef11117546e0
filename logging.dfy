/** The logger (`gosteno.Logger`) reduced to the error entries it records.
    Each entry keeps the message tag and which decode failed; the formatted
    error text is not modelled. */
module Logging {

  /** Which of the handler's two decodes an error entry reports. */
  datatype Failure = UnmarshalResponse | UnmarshalMetadata

  datatype Entry = Entry(failure: Failure, message: string)

  class Logger {
    var entries: seq<Entry>

    constructor ()
      ensures entries == []
    {
      entries := [];
    }

    method Errord(failure: Failure, message: string)
      modifies this
      ensures entries == old(entries) + [Entry(failure, message)]
    {
      entries := entries + [Entry(failure, message)];
    }
  }
}

/** The part of HTTP the handler touches: the request body as read by
    `ioutil.ReadAll`, and a response writer reduced to the status written
    and the body bytes written. */
module Http {
  import opened Wire

  const StatusOK: int := 200
  const StatusBadRequest: int := 400

  /** An inbound request: the bytes `ioutil.ReadAll` returned and whether it
      also returned an error (it returns what it read before the error). */
  datatype Request = Request(body: Bytes, readFailed: bool)

  /** The status a response carries after `WriteHeader(code)`: the first
      explicit status wins, later calls are ignored. */
  function AfterWriteHeader(prior: Option<int>, code: int): (status: Option<int>)
  {
    if prior.None? then Some(code) else prior
  }

  /** The status the server sends: the explicit one, or 200 when the handler
      returned without writing one. */
  function SentStatus(status: Option<int>): (s: int)
  {
    if status.Some? then status.value else StatusOK
  }

  class ResponseWriter {
    var status: Option<int>
    var body: Bytes

    /** A writer as the server hands it to one handler invocation. */
    constructor ()
      ensures status == None && body == []
    {
      status := None;
      body := [];
    }

    method WriteHeader(code: int)
      modifies this
      ensures status == AfterWriteHeader(old(status), code)
      ensures body == old(body)
    {
      status := AfterWriteHeader(status, code);
    }
  }
}

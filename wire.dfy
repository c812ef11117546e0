/** The values that cross the completion callback: the bytes of a request
    body, the container run result the execution agent reports, and the Task
    record of the work feed that travels inside it as opaque metadata.

    The two JSON decoders the handler relies on belong to libraries whose
    source is not part of this model; they are represented by `Decoders`, a
    pair of partial functions whose grammar is deliberately left open. */
module Wire {

  newtype byte = x: int | 0 <= x < 256

  type Bytes = seq<byte>

  datatype Option<T> = None | Some(value: T)

  /** Lifecycle of a Task in the work feed; `Invalid` is the zero value. */
  datatype TaskState = Invalid | Pending | Claimed | Running | Completed

  /** A one-off unit of work as the work feed stores it. */
  datatype Task = Task(
    guid: string,
    stack: string,
    state: TaskState,
    result: string,
    failed: bool,
    failureReason: string)

  /** The zero Task (`models.Task{}`) that metadata is decoded into. */
  const ZeroTask: Task := Task("", "", Invalid, "", false, "")

  /** What the execution agent reports for a finished container. */
  datatype RunResult = RunResult(
    failed: bool,
    failureReason: string,
    result: string,
    metadata: Bytes)

  /** The two decoders the handler calls.
      `runResult` stands for `client.NewContainerRunResultFromJSON`;
      `task(data, into)` stands for `json.Unmarshal(data, &into)`, which
      decodes `data` on top of the value already in `into`.
      `None` is a decode error. */
  datatype Decoders = Decoders(
    runResult: Bytes -> Option<RunResult>,
    task: (Bytes, Task) -> Option<Task>)
}

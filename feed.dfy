/** The work feed (`bbs.RepBBS`) as seen from the completion handler: an
    external store of which only the completion-resolution call is used.
    The store's own semantics are outside the model; it records every call
    with its arguments, in order. */
module WorkFeed {
  import opened Wire

  /** The arguments of one `CompleteTask` call. */
  datatype Completion = Completion(
    task: Task,
    failed: bool,
    failureReason: string,
    result: string)

  class Feed {
    var completions: seq<Completion>

    constructor ()
      ensures completions == []
    {
      completions := [];
    }

    /** Resolve `task` as completed with the given outcome fields. */
    method CompleteTask(task: Task, failed: bool, failureReason: string, result: string)
      modifies this
      ensures completions == old(completions) + [Completion(task, failed, failureReason, result)]
    {
      completions := completions + [Completion(task, failed, failureReason, result)];
    }
  }
}

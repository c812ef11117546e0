/** The completion-callback handler: the execution agent POSTs one container
    run result per finished container, and the handler resolves the Task
    carried in the result's metadata through the work feed.

    `Decide` is the handler's three-way decision as a pure function; the
    `Outcome` it returns determines everything `Handler.ServeHTTP` does to
    the response writer, the feed and the logger. */
module TaskComplete {
  import opened Wire
  import opened Http
  import opened WorkFeed
  import opened Logging

  /** The tag of both error entries the handler logs. */
  const FailedMessage: string := "game-scheduler.complete-callback-handler.failed"

  datatype Outcome =
    | BadRequest          // the body is not a container run result
    | MetadataDropped     // the run result's metadata is not a Task
    | Resolved(completion: Completion)

  /** The decision `ServeHTTP` takes for request `r`. The outer decode is
      tried first; the metadata is decoded into a zero Task only when the
      outer decode succeeded. Whether reading the body failed plays no part. */
  function Decide(r: Request, codec: Decoders): (o: Outcome)
    ensures o.BadRequest? <==> codec.runResult(r.body).None?
    ensures o.MetadataDropped? <==>
      codec.runResult(r.body).Some? &&
      codec.task(codec.runResult(r.body).value.metadata, ZeroTask).None?
    ensures o.Resolved? ==>
      codec.runResult(r.body).Some? &&
      var rr := codec.runResult(r.body).value;
      codec.task(rr.metadata, ZeroTask) == Some(o.completion.task) &&
      o.completion.failed == rr.failed &&
      o.completion.failureReason == rr.failureReason &&
      o.completion.result == rr.result
  {
    match codec.runResult(r.body)
    case None => BadRequest
    case Some(rr) =>
      match codec.task(rr.metadata, ZeroTask)
      case None => MetadataDropped
      case Some(task) => Resolved(Completion(task, rr.failed, rr.failureReason, rr.result))
  }

  /** The status `ServeHTTP` writes explicitly for an outcome: 400 for a
      rejected body and nothing otherwise. */
  function ExplicitStatus(o: Outcome): (s: Option<int>)
    ensures s.Some? <==> o.BadRequest?
    ensures s.Some? ==> s.value == StatusBadRequest
  {
    if o.BadRequest? then Some(StatusBadRequest) else None
  }

  /** The `CompleteTask` calls `ServeHTTP` makes for an outcome: at most
      one, and only the completion of a resolved outcome. */
  function FeedCalls(o: Outcome): (calls: seq<Completion>)
    ensures |calls| <= 1
    ensures calls != [] <==> o.Resolved?
    ensures forall c :: c in calls ==> o == Resolved(c)
  {
    if o.Resolved? then [o.completion] else []
  }

  /** The error entries `ServeHTTP` logs for an outcome: one per failed
      decode, naming that decode, under the handler's message tag. */
  function LogEntries(o: Outcome): (entries: seq<Entry>)
    ensures |entries| <= 1
    ensures entries == [] <==> o.Resolved?
    ensures forall e :: e in entries ==>
      e.message == FailedMessage &&
      (e.failure == UnmarshalResponse <==> o.BadRequest?)
  {
    match o
    case BadRequest => [Entry(UnmarshalResponse, FailedMessage)]
    case MetadataDropped => [Entry(UnmarshalMetadata, FailedMessage)]
    case Resolved(_) => []
  }

  class Handler {
    const feed: Feed
    const logger: Logger

    /** `NewHandler`: the feed and the logger are fixed for the handler's
        lifetime. */
    constructor (feed: Feed, logger: Logger)
      ensures this.feed == feed && this.logger == logger
    {
      this.feed := feed;
      this.logger := logger;
    }

    /** Serve one completion callback. The decoders are those of the
        libraries the handler links against. */
    method ServeHTTP(w: ResponseWriter, r: Request, codec: Decoders)
      modifies w, feed, logger
      ensures w.status ==
        if Decide(r, codec).BadRequest? then AfterWriteHeader(old(w.status), StatusBadRequest)
        else old(w.status)
      ensures w.body == old(w.body)
      ensures feed.completions == old(feed.completions) + FeedCalls(Decide(r, codec))
      ensures logger.entries == old(logger.entries) + LogEntries(Decide(r, codec))
    {
      // ReadAll's error is overwritten by the decode error before it is checked.
      var requestBody := r.body;

      var decoded := codec.runResult(requestBody);
      if decoded.None? {
        logger.Errord(UnmarshalResponse, FailedMessage);
        w.WriteHeader(StatusBadRequest);
        return;
      }
      var runResult := decoded.value;

      var task := ZeroTask;
      var unmarshalled := codec.task(runResult.metadata, task);
      if unmarshalled.None? {
        logger.Errord(UnmarshalMetadata, FailedMessage);
        return;
      }
      task := unmarshalled.value;

      feed.CompleteTask(task, runResult.failed, runResult.failureReason, runResult.result);
    }
  }

  /** One callback exchange as the execution agent sees it: a handler built
      over a feed and a logger, a fresh response writer, one request. Returns
      the status the server sends, the feed's calls and the logged entries. */
  method Exchange(r: Request, codec: Decoders)
    returns (sent: int, calls: seq<Completion>, entries: seq<Entry>, body: Bytes)
    ensures codec.runResult(r.body).None? ==>
      sent == StatusBadRequest && calls == [] && entries == [Entry(UnmarshalResponse, FailedMessage)]
    ensures codec.runResult(r.body).Some? ==> sent == StatusOK
    ensures |calls| <= 1
    ensures calls != [] <==>
      codec.runResult(r.body).Some? &&
      codec.task(codec.runResult(r.body).value.metadata, ZeroTask).Some?
    ensures calls != [] ==>
      var rr := codec.runResult(r.body).value;
      calls == [Completion(codec.task(rr.metadata, ZeroTask).value, rr.failed, rr.failureReason, rr.result)]
    ensures codec.runResult(r.body).Some? && calls == [] ==>
      entries == [Entry(UnmarshalMetadata, FailedMessage)]
    ensures calls != [] ==> entries == []
    ensures body == []
  {
    var feed := new Feed();
    var logger := new Logger();
    var handler := new Handler(feed, logger);
    var w := new ResponseWriter();
    handler.ServeHTTP(w, r, codec);
    sent := SentStatus(w.status);
    calls := feed.completions;
    entries := logger.entries;
    body := w.body;
  }

  // ---------------------------------------------------------------------
  // Properties of a single callback

  /** A body that is not a run result is answered with 400 and never
      reaches the feed. */
  lemma OuterFailureRejects(r: Request, codec: Decoders)
    requires codec.runResult(r.body).None?
    ensures ExplicitStatus(Decide(r, codec)) == Some(StatusBadRequest)
    ensures FeedCalls(Decide(r, codec)) == []
    ensures LogEntries(Decide(r, codec)) == [Entry(UnmarshalResponse, FailedMessage)]
  {
  }

  /** When the outer decode fails the metadata decoder is never consulted:
      any two metadata decoders give the same outcome. */
  lemma OuterDecodePrecedesInner(r: Request, a: Decoders, b: Decoders)
    requires a.runResult(r.body).None? && b.runResult(r.body).None?
    ensures Decide(r, a) == Decide(r, b) == BadRequest
  {
  }

  /** Metadata that is not a Task is dropped: no status is written, so the
      default 200 is sent, and the feed is not called. */
  lemma MetadataFailureIsSilent(r: Request, codec: Decoders)
    requires codec.runResult(r.body).Some?
    requires codec.task(codec.runResult(r.body).value.metadata, ZeroTask).None?
    ensures ExplicitStatus(Decide(r, codec)) == None
    ensures SentStatus(ExplicitStatus(Decide(r, codec))) == StatusOK
    ensures FeedCalls(Decide(r, codec)) == []
    ensures LogEntries(Decide(r, codec)) == [Entry(UnmarshalMetadata, FailedMessage)]
  {
  }

  /** When both decodes succeed the feed is called exactly once, with the
      Task decoded from the metadata on top of a zero Task and with the run
      result's failed, failure-reason and result fields unchanged. */
  lemma BothDecodesResolve(r: Request, codec: Decoders, rr: RunResult, task: Task)
    requires codec.runResult(r.body) == Some(rr)
    requires codec.task(rr.metadata, ZeroTask) == Some(task)
    ensures FeedCalls(Decide(r, codec)) == [Completion(task, rr.failed, rr.failureReason, rr.result)]
    ensures ExplicitStatus(Decide(r, codec)) == None
    ensures LogEntries(Decide(r, codec)) == []
  {
  }

  /** An error from reading the body does not change the outcome: only the
      bytes read decide it. */
  lemma ReadErrorDiscarded(body: Bytes, codec: Decoders)
    ensures Decide(Request(body, true), codec) == Decide(Request(body, false), codec)
  {
  }

  /** The only status the handler ever writes is 400, and the feed is called
      at most once, exactly when both decodes succeed. */
  lemma EffectsAreBounded(r: Request, codec: Decoders)
    ensures ExplicitStatus(Decide(r, codec)) in {None, Some(StatusBadRequest)}
    ensures |FeedCalls(Decide(r, codec))| <= 1
    ensures FeedCalls(Decide(r, codec)) != [] <==>
      codec.runResult(r.body).Some? &&
      codec.task(codec.runResult(r.body).value.metadata, ZeroTask).Some?
  {
  }

  /** Each invocation has exactly one effect outside its own response
      writer: one feed call or one error entry. */
  lemma OneSharedEffect(o: Outcome)
    ensures |FeedCalls(o)| + |LogEntries(o)| == 1
  {
  }

  /** The failed-container scenario: a run result reporting "oom" for the
      Task the metadata encodes is resolved with exactly those fields. */
  lemma OomCallbackResolves(r: Request, codec: Decoders, metadata: Bytes, a: Task)
    requires codec.runResult(r.body) == Some(RunResult(true, "oom", "", metadata))
    requires codec.task(metadata, ZeroTask) == Some(a)
    ensures FeedCalls(Decide(r, codec)) == [Completion(a, true, "oom", "")]
  {
  }
}

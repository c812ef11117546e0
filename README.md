# Completion-callback handler of the rep

This project models the completion-callback handler of the rep, the
per-host agent that bridges the cluster's work feed and the local execution
agent. When a container the rep dispatched finishes, the execution agent
POSTs a container run result to the handler. The run result carries the
original Task, serialized, as opaque metadata. The handler decides among
three outcomes:

1. the body is not a container run result: it answers 400 Bad Request and
   leaves the work feed alone;
2. the body decodes but its metadata is not a Task: it logs and returns,
   writing no status (so the default 200 is sent) and leaving the feed alone;
3. both decode: it calls the feed's `CompleteTask` once, with the decoded
   Task and the run result's `Failed`, `FailureReason` and `Result` fields
   unchanged.

Files, one module each:

- `wire.dfy` (`Wire`): bytes, `Task`, `RunResult`, the zero Task, and
  `Decoders`, the pair of JSON decoders the handler calls, as partial
  functions.
- `http.dfy` (`Http`): the request (the bytes read and whether the read
  failed) and a response writer holding the explicit status and the body.
- `feed.dfy` (`WorkFeed`): the work feed, recording every `CompleteTask`
  call with its arguments.
- `logging.dfy` (`Logging`): the logger, recording error entries.
- `taskcomplete.dfy` (`TaskComplete`): `Decide`, the three-way decision as a
  pure function; the `Handler` class with `NewHandler` as its constructor
  and `ServeHTTP` as a method whose new state is stated through `Decide`;
  `Exchange`, one callback against a fresh feed; and the single-callback
  properties.
- `callbacks.dfy` (`CallbackLog`): `FeedLog` and `ErrorLog`, the feed's
  calls and the logged entries after a series of callbacks, what they
  contain and how many there are; `ServeSeries`, the server
  invoking `ServeHTTP` once per request, proved to append exactly
  `FeedLog` to the feed.

The collaborators are modelled by what the handler assumes of them:

- `WorkFeed.Feed.CompleteTask` (bbs): records the call with its four
  arguments, in order, and does nothing else visible to the handler.
- `Http.ResponseWriter.WriteHeader` and `Http.AfterWriteHeader` (net/http):
  the first explicit status wins; later calls are ignored.
- `Http.SentStatus` (net/http): the server sends the explicit status, or an
  implicit 200 when the handler returned without writing one.
- `Logging.Logger.Errord` (gosteno): appends one entry and does nothing
  else.

The JSON decoders (`client.NewContainerRunResultFromJSON` and
`json.Unmarshal`) are library code. They are parameters of `ServeHTTP`. Their
grammar is not specified. `json.Unmarshal(data, &task)` is modelled as a
function of the bytes and of the value decoded into. The handler passes the
zero Task.

`CompleteTask` takes the whole decoded Task at handler.go:49, not only its
identity; the model passes the whole Task.

## Model

| member | source | states |
|---|---|---|
| `TaskComplete.Decide` | api/taskcomplete/handler.go:28-49 | the outcome is BadRequest exactly when the outer body does not decode; MetadataDropped exactly when the outer body decodes and its metadata does not decode into a zero Task; otherwise Resolved with the Task decoded from the metadata and the run result's failed, failure-reason and result fields |
| `TaskComplete.ExplicitStatus` | api/taskcomplete/handler.go:36 | a status is written exactly for a rejected body, and it is 400 |
| `TaskComplete.FeedCalls` | api/taskcomplete/handler.go:49 | at most one `CompleteTask` call, present exactly for a resolved outcome and carrying its completion |
| `TaskComplete.LogEntries` | api/taskcomplete/handler.go:33-45 | one error entry for each failed decode and none on success; it names the decode that failed and carries the handler's message tag |
| `TaskComplete.Handler.constructor` | api/taskcomplete/handler.go:15-25 | the handler keeps the given feed and logger; both are constant fields, so no later call changes them |
| `TaskComplete.Handler.ServeHTTP` | api/taskcomplete/handler.go:27-50 | writes 400 only on BadRequest and no other status; never writes a body; appends to the feed exactly the one completion of a Resolved outcome and nothing otherwise; logs one error entry for each failed decode |
| `TaskComplete.Exchange` | api/taskcomplete/handler.go:27-50 | one callback against a fresh feed: 400 and no feed call when the outer decode fails; 200 otherwise; at most one feed call, present exactly when both decode, with the decoded Task and the fields unchanged; a metadata failure logs and calls nothing; the response body is empty |
| `TaskComplete.OuterFailureRejects` | api/taskcomplete/handler.go:31-38 | an undecodable body gets status 400, no feed call and one logged response-decode error |
| `TaskComplete.OuterDecodePrecedesInner` | api/taskcomplete/handler.go:31-41 | when the outer decode fails, the outcome is BadRequest whatever the metadata decoder does |
| `TaskComplete.MetadataFailureIsSilent` | api/taskcomplete/handler.go:40-47 | metadata that is not a Task gives no explicit status, so 200 is sent, no feed call, and one logged metadata-decode error |
| `TaskComplete.BothDecodesResolve` | api/taskcomplete/handler.go:40-49 | when both decode, exactly one feed call with the Task decoded from a zero Task and the run result's three fields verbatim, no status written, nothing logged |
| `TaskComplete.ReadErrorDiscarded` | api/taskcomplete/handler.go:28-31 | a failed body read gives the same outcome as a successful read of the same bytes |
| `TaskComplete.EffectsAreBounded` | api/taskcomplete/handler.go:27-50 | the only explicit status is 400; at most one feed call, made exactly when both decodes succeed |
| `TaskComplete.OomCallbackResolves` | api/taskcomplete/handler.go:40-49 | a run result (failed, "oom", "") whose metadata decodes to Task A resolves A with exactly (true, "oom", "") |
| `CallbackLog.ServeSeries` | main.go:155 | serving a series of requests through one handler sends each request the status its outcome gives and appends exactly `FeedLog` to the feed and the matching error entries to the log |
| `CallbackLog.FeedLogConcat` | api/taskcomplete/handler.go:27-50 | the feed's calls for two series served in turn are the two series' calls in order |
| `CallbackLog.FeedLogAppend` | api/taskcomplete/handler.go:27-50 | one more callback adds exactly the calls `ServeHTTP` makes for it |
| `CallbackLog.FeedLogSound` | api/taskcomplete/handler.go:49 | every feed call comes from a request of the series whose outcome is Resolved with that very completion |
| `CallbackLog.FeedLogComplete` | api/taskcomplete/handler.go:49 | every request of the series whose body and metadata decode has its completion in the feed's calls |
| `CallbackLog.FeedLogLength` | api/taskcomplete/handler.go:31-49 | feed calls never outnumber the requests, and equal them exactly when every request fully decodes (the exact count is `FeedLogCount`) |
| `TaskComplete.OneSharedEffect` | api/taskcomplete/handler.go:31-49 | every invocation makes exactly one shared effect: one feed call (line 49) or one error entry (lines 33-35 or 43-45) |
| `CallbackLog.ErrorLogConcat` | api/taskcomplete/handler.go:31-47 | the error entries for two series served in turn are the two series' entries in order |
| `CallbackLog.ErrorLogAppend` | api/taskcomplete/handler.go:31-47 | one more callback adds exactly the entries `ServeHTTP` logs for it |
| `CallbackLog.FeedLogCount` | api/taskcomplete/handler.go:31-49 | the number of feed calls in a series equals the number of requests whose body and metadata both decode |
| `CallbackLog.SeriesEffectsCount` | api/taskcomplete/handler.go:31-49 | feed calls plus error entries number exactly the requests served |
| `CallbackLog.FeedLogUntouched` | api/taskcomplete/handler.go:31-47 | a series of rejected or dropped requests leaves the feed with no calls |

## Left out

- The body of the work feed's `CompleteTask`: the feed is an external store. The model records the call and its arguments. The call's error return is ignored at handler.go:49, so the model's call returns nothing.
- The decoders' grammar and error values: they are library code. The logged entries keep which decode failed and the message tag, but not the formatted error text.
- Closing the request body (handler.go:29): it has no effect on the outcome.
- The definitions of `models.Task` and `client.ContainerRunResult` are not part of this model. Their fields are assumed: a Task has an identity, a stack, a state, a result, a failure flag and a failure reason; a run result has failed, failure reason, result and metadata (the fields handler.go:41 and :49 read). The Task states and the zero state `Invalid` are an assumption too.
- Concurrency: net/http serves each connection on its own goroutine, so invocations on different connections run concurrently, and requests on one keep-alive connection are served in turn. Each invocation has exactly one effect outside its private response writer, either one feed call or one error entry (`TaskComplete.OneSharedEffect`). So any interleaving gives the same feed and log as serving the requests one after the other in the order those effects take place, which is what `CallbackLog.ServeSeries` does.
- main.go is not part of this model, except `http.Serve` at main.go:155: `CallbackLog.ServeSeries` stands for it as a sequential loop (see Concurrency). The rest of main.go is flag parsing, process wiring, goroutines and signals.
- integration/main_test.go is not part of this model: it is a process-level test.

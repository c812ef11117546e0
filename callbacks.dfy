/** A series of completion callbacks served by one handler. The server
    invokes `ServeHTTP` once per inbound request with a fresh response
    writer; each invocation appends `FeedCalls(Decide(r, codec))` to the
    feed, so serving `reqs` appends `FeedLog(reqs, codec)` (`ServeSeries`). */
module CallbackLog {
  import opened Wire
  import opened Http
  import opened WorkFeed
  import opened Logging
  import opened TaskComplete

  /** The `CompleteTask` calls made while serving `reqs` in order. */
  function FeedLog(reqs: seq<Request>, codec: Decoders): (log: seq<Completion>)
  {
    if reqs == [] then [] else FeedCalls(Decide(reqs[0], codec)) + FeedLog(reqs[1..], codec)
  }

  /** The error entries logged while serving `reqs` in order. */
  function ErrorLog(reqs: seq<Request>, codec: Decoders): (log: seq<Entry>)
  {
    if reqs == [] then [] else LogEntries(Decide(reqs[0], codec)) + ErrorLog(reqs[1..], codec)
  }

  /** The number of requests in `reqs` whose body and metadata both decode. */
  function ResolvedCount(reqs: seq<Request>, codec: Decoders): (n: nat)
  {
    if reqs == [] then 0 else (if Decide(reqs[0], codec).Resolved? then 1 else 0) + ResolvedCount(reqs[1..], codec)
  }

  /** The server serving `reqs` one after the other through handler `h`,
      each with a fresh response writer. Returns the status sent for each
      request; the feed receives exactly the calls of `FeedLog`. */
  method ServeSeries(h: Handler, reqs: seq<Request>, codec: Decoders) returns (sent: seq<int>)
    modifies h.feed, h.logger
    ensures |sent| == |reqs|
    ensures forall i :: 0 <= i < |reqs| ==>
      sent[i] == SentStatus(ExplicitStatus(Decide(reqs[i], codec)))
    ensures h.feed.completions == old(h.feed.completions) + FeedLog(reqs, codec)
    ensures h.logger.entries == old(h.logger.entries) + ErrorLog(reqs, codec)
  {
    sent := [];
    var i := 0;
    while i < |reqs|
      invariant 0 <= i <= |reqs|
      invariant |sent| == i
      invariant forall j :: 0 <= j < i ==>
        sent[j] == SentStatus(ExplicitStatus(Decide(reqs[j], codec)))
      invariant h.feed.completions == old(h.feed.completions) + FeedLog(reqs[..i], codec)
      invariant h.logger.entries == old(h.logger.entries) + ErrorLog(reqs[..i], codec)
    {
      var w := new ResponseWriter();
      h.ServeHTTP(w, reqs[i], codec);
      sent := sent + [SentStatus(w.status)];
      FeedLogAppend(reqs[..i], reqs[i], codec);
      ErrorLogAppend(reqs[..i], reqs[i], codec);
      assert reqs[..i + 1] == reqs[..i] + [reqs[i]];
      i := i + 1;
    }
    assert reqs[..i] == reqs;
  }

  /** Serving two series one after the other logs the two logs in order. */
  lemma {:induction false} FeedLogConcat(xs: seq<Request>, ys: seq<Request>, codec: Decoders)
    ensures FeedLog(xs + ys, codec) == FeedLog(xs, codec) + FeedLog(ys, codec)
  {
    if xs != [] {
      assert (xs + ys)[1..] == xs[1..] + ys;
      FeedLogConcat(xs[1..], ys, codec);
    } else {
      assert xs + ys == ys;
    }
  }

  /** One more callback extends the log by exactly what `ServeHTTP` adds to
      the feed for it. */
  lemma FeedLogAppend(reqs: seq<Request>, r: Request, codec: Decoders)
    ensures FeedLog(reqs + [r], codec) == FeedLog(reqs, codec) + FeedCalls(Decide(r, codec))
  {
    FeedLogConcat(reqs, [r], codec);
    assert [r][1..] == [];
  }

  /** The error log of two series served in turn is the two logs in order. */
  lemma {:induction false} ErrorLogConcat(xs: seq<Request>, ys: seq<Request>, codec: Decoders)
    ensures ErrorLog(xs + ys, codec) == ErrorLog(xs, codec) + ErrorLog(ys, codec)
  {
    if xs != [] {
      assert (xs + ys)[1..] == xs[1..] + ys;
      ErrorLogConcat(xs[1..], ys, codec);
    } else {
      assert xs + ys == ys;
    }
  }

  /** One more callback extends the error log by exactly what `ServeHTTP`
      logs for it. */
  lemma ErrorLogAppend(reqs: seq<Request>, r: Request, codec: Decoders)
    ensures ErrorLog(reqs + [r], codec) == ErrorLog(reqs, codec) + LogEntries(Decide(r, codec))
  {
    ErrorLogConcat(reqs, [r], codec);
    assert [r][1..] == [];
  }

  /** The feed receives exactly one call per fully decoded request. */
  lemma {:induction false} FeedLogCount(reqs: seq<Request>, codec: Decoders)
    ensures |FeedLog(reqs, codec)| == ResolvedCount(reqs, codec)
  {
    if reqs != [] {
      FeedLogCount(reqs[1..], codec);
    }
  }

  /** Every request leaves exactly one trace shared with other requests:
      either one feed call or one error entry. Serving requests in any
      interleaving therefore matches serving them one after the other in
      the order those effects take place. */
  lemma {:induction false} SeriesEffectsCount(reqs: seq<Request>, codec: Decoders)
    ensures |FeedLog(reqs, codec)| + |ErrorLog(reqs, codec)| == |reqs|
  {
    if reqs != [] {
      OneSharedEffect(Decide(reqs[0], codec));
      SeriesEffectsCount(reqs[1..], codec);
    }
  }

  /** Every call the feed receives comes from some request in the series
      whose body and metadata both decoded, and carries that request's
      decoded Task and its failed, failure-reason and result fields. */
  lemma {:induction false} FeedLogSound(reqs: seq<Request>, codec: Decoders, k: nat)
    requires k < |FeedLog(reqs, codec)|
    ensures exists i :: 0 <= i < |reqs| && Decide(reqs[i], codec) == Resolved(FeedLog(reqs, codec)[k])
  {
    var head := FeedCalls(Decide(reqs[0], codec));
    if k < |head| {
      assert Decide(reqs[0], codec) == Resolved(FeedLog(reqs, codec)[k]);
    } else {
      FeedLogSound(reqs[1..], codec, k - |head|);
      var j :| 0 <= j < |reqs[1..]| && Decide(reqs[1..][j], codec) == Resolved(FeedLog(reqs[1..], codec)[k - |head|]);
      assert reqs[1..][j] == reqs[j + 1];
    }
  }

  /** Every request whose body and metadata both decode is resolved: its
      completion is in the feed's log. */
  lemma {:induction false} FeedLogComplete(reqs: seq<Request>, codec: Decoders, i: nat)
    requires i < |reqs| && Decide(reqs[i], codec).Resolved?
    ensures Decide(reqs[i], codec).completion in FeedLog(reqs, codec)
  {
    if i > 0 {
      assert reqs[1..][i - 1] == reqs[i];
      FeedLogComplete(reqs[1..], codec, i - 1);
    }
  }

  /** The feed is called at most once per request, and once for every
      request exactly when every request fully decodes. */
  lemma {:induction false} FeedLogLength(reqs: seq<Request>, codec: Decoders)
    ensures |FeedLog(reqs, codec)| <= |reqs|
    ensures |FeedLog(reqs, codec)| == |reqs| <==>
      forall i :: 0 <= i < |reqs| ==> Decide(reqs[i], codec).Resolved?
  {
    if reqs != [] {
      FeedLogLength(reqs[1..], codec);
      assert forall i :: 0 < i < |reqs| ==> reqs[1..][i - 1] == reqs[i];
    }
  }

  /** Requests that are rejected or dropped leave no trace in the feed. */
  lemma {:induction false} FeedLogUntouched(reqs: seq<Request>, codec: Decoders)
    requires forall i :: 0 <= i < |reqs| ==> !Decide(reqs[i], codec).Resolved?
    ensures FeedLog(reqs, codec) == []
  {
    if reqs != [] {
      assert forall i :: 0 <= i < |reqs[1..]| ==> reqs[1..][i] == reqs[i + 1];
      FeedLogUntouched(reqs[1..], codec);
    }
  }
}

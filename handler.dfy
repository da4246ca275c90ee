/**
 * The /_bulk branch of RequestHandler: the request counter, the tenant,
 * the query arguments, the batch and its processLogMessage closure, the
 * read of the body, and the final hand-over of the batch to storage, which
 * happens only when the body was read without error.
 */
module Handler {
  import opened Wrappers
  import opened Decimal
  import opened Fields
  import opened Rows
  import opened Checkpoints
  import opened Bulk

  /** What the handler takes from the request's URL and headers. */
  datatype BulkQuery = BulkQuery(
    tenant: Option<TenantID>,   // GetTenantIDFromRequest, None when it fails
    timeFieldArg: string,       // _time_field
    msgFieldArg: string,        // _msg_field
    streamFields: seq<string>,  // _stream_fields
    ignoreFields: seq<string>,  // ignore_fields
    debug: bool)                // debug

  /** The time field used when _time_field is absent or empty. */
  const DefaultTimeField: string := "_time"

  /** The time field of a request: never empty, and _time_field whenever that is given. */
  function TimeFieldOf(arg: string): (f: string)
    ensures f != ""
    ensures arg != "" ==> f == arg
    ensures arg == "" ==> f == DefaultTimeField
  {
    if arg != "" then arg else DefaultTimeField
  }

  /** The reply: a tenant error, the error that stopped reading (with the rows decoded before it), or the bulk response for n rows. */
  datatype Reply = TenantRejected | DecodeFailed(n: nat, error: BulkError) | Acked(n: nat)

  /**
   * The batches storage receives from a request whose rows were handed to
   * processLogMessage: the flushes of the closure, then, only when reading
   * completed, the batch lr as the handler leaves it. In debug mode the
   * closure never flushes and lr is always empty.
   */
  function StoredBatches(debug: bool, needFlush: seq<Row> -> bool, rows: seq<Row>, completed: bool): seq<seq<Row>>
  {
    if debug then (if completed then [[]] else [])
    else
      var plan := PlanFlushes(needFlush, rows);
      plan.flushed + if completed then [plan.pending] else []
  }

  /**
   * RequestHandler for /_bulk, with the body already split into the lines
   * the scanner yields and the way it ends. The JSON parser, the RFC 3339
   * parser, the clock and logstorage's NeedFlush are parameters. The request
   * is counted first; a request whose tenant cannot be read is refused
   * without touching anything else.
   */
  method BulkRequest(q: BulkQuery, lines: seq<string>, end: ScanEnd, maxLineSize: nat,
                     decode: string -> Option<seq<Field>>, rfc3339: string -> Option<Int64>, clock: nat -> Int64,
                     needFlush: seq<Row> -> bool, env: Env)
    returns (reply: Reply)
    modifies env
    ensures env.bulkRequests == old(env.bulkRequests) + 1
    ensures q.tenant.None? ==>
      reply == TenantRejected && env.stored == old(env.stored) && env.ingestedAdds == old(env.ingestedAdds) &&
      env.rowsDropped == old(env.rowsDropped) && env.debugLog == old(env.debugLog) && env.released == old(env.released)
    ensures q.tenant.Some? ==>
      var cfg := Config(TimeFieldOf(q.timeFieldArg), q.msgFieldArg, maxLineSize, decode, rfc3339, clock);
      var d := ReadFrom(lines, end, cfg, [], 0);
      var rows := RowsOf(q.tenant.value, d.entries);
      reply == (if d.error.None? then Acked(|d.entries|) else DecodeFailed(|d.entries|, d.error.value)) &&
      env.stored == old(env.stored) + StoredBatches(q.debug, needFlush, rows, d.error.None?) &&
      env.debugLog == old(env.debugLog) + (if q.debug then rows else []) &&
      env.rowsDropped == old(env.rowsDropped) + (if q.debug then |rows| else 0) &&
      env.ingestedAdds == old(env.ingestedAdds) + IngestedAdds(AsWritten, |d.entries|) &&
      env.released == old(env.released) + |d.entries| + 1
  {
    env.IncBulkRequests();
    if q.tenant.None? {
      return TenantRejected;
    }
    var cfg := Config(TimeFieldOf(q.timeFieldArg), q.msgFieldArg, maxLineSize, decode, rfc3339, clock);
    reply := Serve(q.tenant.value, q.streamFields, q.ignoreFields, q.debug, lines, end, cfg, needFlush, env);
  }

  /**
   * The /_bulk branch once the tenant and the query arguments are known:
   * the batch and the processLogMessage closure are set up, the body is
   * read, and lr goes to storage only when reading ended without error.
   */
  method Serve(tenant: TenantID, streamFields: seq<string>, ignoreFields: seq<string>, debug: bool,
               lines: seq<string>, end: ScanEnd, cfg: Config, needFlush: seq<Row> -> bool, env: Env)
    returns (reply: Reply)
    modifies env`stored, env`rowsDropped, env`debugLog, env`ingestedAdds, env`released
    ensures var d := ReadFrom(lines, end, cfg, [], 0);
      var rows := RowsOf(tenant, d.entries);
      reply == (if d.error.None? then Acked(|d.entries|) else DecodeFailed(|d.entries|, d.error.value)) &&
      env.stored == old(env.stored) + StoredBatches(debug, needFlush, rows, d.error.None?) &&
      env.debugLog == old(env.debugLog) + (if debug then rows else []) &&
      env.rowsDropped == old(env.rowsDropped) + (if debug then |rows| else 0) &&
      env.ingestedAdds == old(env.ingestedAdds) + IngestedAdds(AsWritten, |d.entries|) &&
      env.released == old(env.released) + |d.entries| + 1
  {
    var lr := new LogRows(streamFields, ignoreFields, needFlush);
    var sink := new BulkSink(tenant, debug, lr, env);
    var sc := new Scanner(lines, end);
    var n, err := ReadBulkRequest(sc, cfg, sink);
    assert sink.processed == RowsOf(tenant, ReadFrom(lines, end, cfg, [], 0).entries);
    SinkAccounts(sink);
    if err.Some? {
      return DecodeFailed(n, err.value);
    }
    env.MustAddRows(lr);
    reply := Acked(n);
  }

  /** What Valid says of the collaborators, as StoredBatches writes it, before and after the final hand-over. */
  lemma SinkAccounts(sink: BulkSink)
    requires sink.Valid()
    ensures sink.env.stored == sink.stored0 + StoredBatches(sink.isDebug, sink.lr.needFlush, sink.processed, false)
    ensures !sink.isDebug ==>
      sink.env.stored + [sink.lr.rows] == sink.stored0 + StoredBatches(false, sink.lr.needFlush, sink.processed, true)
    ensures sink.isDebug ==> sink.env.stored + [sink.lr.rows] == sink.stored0 + StoredBatches(true, sink.lr.needFlush, sink.processed, true)
    ensures sink.env.debugLog == sink.log0 + (if sink.isDebug then sink.processed else [])
    ensures sink.env.rowsDropped == sink.dropped0 + (if sink.isDebug then |sink.processed| else 0)
  {
    var plan := PlanFlushes(sink.lr.needFlush, sink.processed);
    if !sink.isDebug {
      assert sink.stored0 + plan.flushed + [plan.pending] == sink.stored0 + (plan.flushed + [plan.pending]);
    }
    assert sink.stored0 + [] == sink.stored0;
    assert sink.log0 + [] == sink.log0;
  }

  /** A request read to its end hands storage every row it decoded, in order (outside debug mode). */
  lemma CompletedRequestStoresEveryRow(needFlush: seq<Row> -> bool, rows: seq<Row>)
    ensures Flatten(StoredBatches(false, needFlush, rows, true)) == rows
  {
    var plan := PlanFlushes(needFlush, rows);
    PlanFlushesKeepsEveryRow(needFlush, rows);
    FlattenAppend(plan.flushed, plan.pending);
  }

  /**
   * A request stopped by an error hands storage only the rows flushed
   * before the error: the rows still waiting in lr are the ones lost.
   */
  lemma FailedRequestStoresFlushedRowsOnly(needFlush: seq<Row> -> bool, rows: seq<Row>)
    ensures Flatten(StoredBatches(false, needFlush, rows, false)) + PlanFlushes(needFlush, rows).pending == rows
  {
    PlanFlushesKeepsEveryRow(needFlush, rows);
    assert StoredBatches(false, needFlush, rows, false) == PlanFlushes(needFlush, rows).flushed;
  }

  /**
   * With a batch that does not need flushing yet, a request whose one row
   * decodes and whose next record fails stores nothing at all.
   */
  lemma FailedRequestLosesPendingRows(r: Row)
    ensures Flatten(StoredBatches(false, _ => false, [r], false)) == []
  {
    var plan := PlanFlushes(_ => false, [r]);
    assert PlanFlushes(_ => false, []) == FlushPlan([], []);
    assert plan == FlushPlan([], [r]);
  }

  /**
   * The intended hand-over: lr goes to storage whichever way reading ends,
   * so that every row processLogMessage accepted is stored.
   */
  function StoredBatchesFlushingOnEveryExit(debug: bool, needFlush: seq<Row> -> bool, rows: seq<Row>): seq<seq<Row>>
  {
    StoredBatches(debug, needFlush, rows, true)
  }

  /**
   * Serve with the intended hand-over: lr goes to storage before the reply,
   * whether or not reading ended in an error.
   */
  method ServeFlushingOnEveryExit(tenant: TenantID, streamFields: seq<string>, ignoreFields: seq<string>, debug: bool,
                                  lines: seq<string>, end: ScanEnd, cfg: Config, needFlush: seq<Row> -> bool, env: Env)
    returns (reply: Reply)
    modifies env`stored, env`rowsDropped, env`debugLog, env`ingestedAdds, env`released
    ensures var d := ReadFrom(lines, end, cfg, [], 0);
      var rows := RowsOf(tenant, d.entries);
      reply == (if d.error.None? then Acked(|d.entries|) else DecodeFailed(|d.entries|, d.error.value)) &&
      env.stored == old(env.stored) + StoredBatchesFlushingOnEveryExit(debug, needFlush, rows) &&
      env.debugLog == old(env.debugLog) + (if debug then rows else []) &&
      env.rowsDropped == old(env.rowsDropped) + (if debug then |rows| else 0) &&
      env.ingestedAdds == old(env.ingestedAdds) + IngestedAdds(AsWritten, |d.entries|) &&
      env.released == old(env.released) + |d.entries| + 1
  {
    var lr := new LogRows(streamFields, ignoreFields, needFlush);
    var sink := new BulkSink(tenant, debug, lr, env);
    var sc := new Scanner(lines, end);
    var n, err := ReadBulkRequest(sc, cfg, sink);
    assert sink.processed == RowsOf(tenant, ReadFrom(lines, end, cfg, [], 0).entries);
    SinkAccounts(sink);
    env.MustAddRows(lr);
    if err.Some? {
      return DecodeFailed(n, err.value);
    }
    reply := Acked(n);
  }

  /** With the hand-over on every exit, no accepted row is lost, error or not. */
  lemma FlushOnEveryExitKeepsEveryRow(needFlush: seq<Row> -> bool, rows: seq<Row>)
    ensures Flatten(StoredBatchesFlushingOnEveryExit(false, needFlush, rows)) == rows
  {
    CompletedRequestStoresEveryRow(needFlush, rows);
  }
}

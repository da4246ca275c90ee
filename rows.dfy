/**
 * The rows a /_bulk request builds and where they go: the per-request batch
 * (logstorage.LogRows), the process-wide collaborators (storage, metrics
 * counters, the logger, the read-concurrency limiter), and the
 * processLogMessage closure of RequestHandler that decides, row by row,
 * between the debug drop path and the batch with its flushes.
 */
module Rows {
  import opened Decimal
  import opened Fields

  /** logstorage.TenantID: the (account, project) pair every row of a request carries. */
  datatype TenantID = TenantID(accountID: nat, projectID: nat)

  /** One decoded log entry. */
  datatype Row = Row(tenant: TenantID, timestamp: Int64, fields: seq<Field>)

  /** The rows of a sequence of batches, batch after batch. */
  function Flatten(batches: seq<seq<Row>>): seq<Row>
  {
    if batches == [] then [] else Flatten(batches[..|batches| - 1]) + batches[|batches| - 1]
  }

  lemma FlattenAppend(batches: seq<seq<Row>>, b: seq<Row>)
    ensures Flatten(batches + [b]) == Flatten(batches) + b
  {
    assert (batches + [b])[..|batches|] == batches;
  }

  /**
   * The batches handed to storage, and the rows still waiting, after rows
   * were appended one at a time to an empty batch that is flushed and reset
   * each time needFlush holds right after an append.
   */
  datatype FlushPlan = FlushPlan(flushed: seq<seq<Row>>, pending: seq<Row>)

  function PlanFlushes(needFlush: seq<Row> -> bool, rows: seq<Row>): FlushPlan
  {
    if rows == [] then FlushPlan([], [])
    else
      var p := PlanFlushes(needFlush, rows[..|rows| - 1]);
      var added := p.pending + [rows[|rows| - 1]];
      if needFlush(added) then FlushPlan(p.flushed + [added], []) else FlushPlan(p.flushed, added)
  }

  /**
   * Flushing loses, duplicates and reorders nothing: the flushed batches
   * followed by the pending rows are exactly the rows appended. Each flushed
   * batch is non-empty and was flushed because needFlush held of it; the
   * pending rows, if any, did not trigger a flush.
   */
  lemma {:induction false} PlanFlushesKeepsEveryRow(needFlush: seq<Row> -> bool, rows: seq<Row>)
    ensures Flatten(PlanFlushes(needFlush, rows).flushed) + PlanFlushes(needFlush, rows).pending == rows
    ensures forall b :: b in PlanFlushes(needFlush, rows).flushed ==> b != [] && needFlush(b)
    ensures PlanFlushes(needFlush, rows).pending == [] || !needFlush(PlanFlushes(needFlush, rows).pending)
  {
    if rows != [] {
      var init, last := rows[..|rows| - 1], rows[|rows| - 1];
      assert init + [last] == rows;
      PlanFlushesKeepsEveryRow(needFlush, init);
      var p := PlanFlushes(needFlush, init);
      var added := p.pending + [last];
      var q := PlanFlushes(needFlush, rows);
      if needFlush(added) {
        assert q == FlushPlan(p.flushed + [added], []);
        FlattenAppend(p.flushed, added);
        assert Flatten(q.flushed) == Flatten(p.flushed) + p.pending + [last];
        forall b | b in q.flushed
          ensures b != [] && needFlush(b)
        {
          if b != added {
            assert b in p.flushed;
          }
        }
      } else {
        assert q == FlushPlan(p.flushed, added);
      }
    }
  }

  /** logstorage.LogRows: the batch of one request, with its fixed settings. */
  class LogRows {
    const streamFields: seq<string>
    const ignoreFields: seq<string>
    /** NeedFlush's size threshold, which belongs to logstorage. */
    const needFlush: seq<Row> -> bool
    var rows: seq<Row>

    /** logstorage.GetLogRows. */
    constructor (streamFields: seq<string>, ignoreFields: seq<string>, needFlush: seq<Row> -> bool)
      ensures this.streamFields == streamFields && this.ignoreFields == ignoreFields
      ensures this.needFlush == needFlush && rows == []
    {
      this.streamFields := streamFields;
      this.ignoreFields := ignoreFields;
      this.needFlush := needFlush;
      rows := [];
    }

    method MustAdd(tenant: TenantID, timestamp: Int64, fields: seq<Field>)
      modifies this`rows
      ensures rows == old(rows) + [Row(tenant, timestamp, fields)]
    {
      rows := rows + [Row(tenant, timestamp, fields)];
    }

    predicate NeedFlush()
      reads this
    {
      needFlush(rows)
    }

    /** Drops the rows, keeps stream and ignore fields. */
    method ResetKeepSettings()
      modifies this`rows
      ensures rows == []
    {
      rows := [];
    }

    /** The row GetRowString renders. */
    function GetRow(i: nat): Row
      reads this
      requires i < |rows|
    {
      rows[i]
    }
  }

  /** The process-wide collaborators one request talks to, as the effects it has on them. */
  class Env {
    /** The batches handed to vlstorage.MustAddRows, in order. */
    var stored: seq<seq<Row>>
    /** The deltas passed to rowsIngestedTotal.Add, in order. */
    var ingestedAdds: seq<int>
    /** rowsDroppedTotal. */
    var rowsDropped: nat
    /** bulkRequestsTotal. */
    var bulkRequests: nat
    /** The rows logged by the debug drop path, in order. */
    var debugLog: seq<Row>
    /** The number of DecConcurrency calls on the concurrency-limited reader. */
    var released: nat

    constructor ()
      ensures stored == [] && ingestedAdds == [] && rowsDropped == 0
      ensures bulkRequests == 0 && debugLog == [] && released == 0
    {
      stored, ingestedAdds, rowsDropped := [], [], 0;
      bulkRequests, debugLog, released := 0, [], 0;
    }

    method MustAddRows(lr: LogRows)
      modifies this`stored
      ensures stored == old(stored) + [lr.rows]
    {
      stored := stored + [lr.rows];
    }

    method AddRowsIngested(delta: int)
      modifies this`ingestedAdds
      ensures ingestedAdds == old(ingestedAdds) + [delta]
    {
      ingestedAdds := ingestedAdds + [delta];
    }

    method IncRowsDropped()
      modifies this`rowsDropped
      ensures rowsDropped == old(rowsDropped) + 1
    {
      rowsDropped := rowsDropped + 1;
    }

    method IncBulkRequests()
      modifies this`bulkRequests
      ensures bulkRequests == old(bulkRequests) + 1
    {
      bulkRequests := bulkRequests + 1;
    }

    method LogDebugRow(row: Row)
      modifies this`debugLog
      ensures debugLog == old(debugLog) + [row]
    {
      debugLog := debugLog + [row];
    }

    method DecConcurrency()
      modifies this`released
      ensures released == old(released) + 1
    {
      released := released + 1;
    }
  }

  /**
   * The processLogMessage closure of the /_bulk handler, with what it
   * captures: the tenant, the debug flag, the batch lr and the collaborators.
   * processed is every row handed to it so far.
   */
  class BulkSink {
    const tenant: TenantID
    const isDebug: bool
    const lr: LogRows
    const env: Env
    ghost var processed: seq<Row>
    ghost const stored0: seq<seq<Row>>
    ghost const dropped0: nat
    ghost const log0: seq<Row>

    /**
     * In debug mode every row went to the log and the drop counter and the
     * batch stays empty; otherwise storage received exactly the batches the
     * flush plan of the processed rows calls for, and lr holds the rest.
     */
    ghost predicate Valid()
      reads this, lr`rows, env`stored, env`debugLog, env`rowsDropped
    {
      if isDebug then
        lr.rows == [] && env.stored == stored0 && env.debugLog == log0 + processed &&
        env.rowsDropped == dropped0 + |processed|
      else
        env.stored == stored0 + PlanFlushes(lr.needFlush, processed).flushed &&
        lr.rows == PlanFlushes(lr.needFlush, processed).pending &&
        env.debugLog == log0 && env.rowsDropped == dropped0
    }

    constructor (tenant: TenantID, isDebug: bool, lr: LogRows, env: Env)
      requires lr.rows == []
      ensures this.tenant == tenant && this.isDebug == isDebug && this.lr == lr && this.env == env
      ensures stored0 == env.stored && dropped0 == env.rowsDropped && log0 == env.debugLog
      ensures processed == [] && Valid()
    {
      this.tenant := tenant;
      this.isDebug := isDebug;
      this.lr := lr;
      this.env := env;
      processed := [];
      stored0 := env.stored;
      dropped0 := env.rowsDropped;
      log0 := env.debugLog;
    }

    /**
     * processLogMessage(timestamp, fields): the row is added to lr. In debug
     * mode it is rendered (it is row 0, since lr was empty), lr is reset, the
     * row is logged and counted as dropped. Otherwise lr is handed to storage
     * and reset when NeedFlush holds.
     */
    method ProcessLogMessage(timestamp: Int64, fields: seq<Field>)
      requires Valid()
      modifies this, lr`rows, env`stored, env`rowsDropped, env`debugLog
      ensures Valid()
      ensures processed == old(processed) + [Row(tenant, timestamp, fields)]
      ensures isDebug ==>
        lr.rows == [] && env.stored == old(env.stored) &&
        env.debugLog == old(env.debugLog) + [Row(tenant, timestamp, fields)] &&
        env.rowsDropped == old(env.rowsDropped) + 1
      ensures !isDebug ==>
        var added := old(lr.rows) + [Row(tenant, timestamp, fields)];
        env.debugLog == old(env.debugLog) && env.rowsDropped == old(env.rowsDropped) &&
        if lr.needFlush(added) then env.stored == old(env.stored) + [added] && lr.rows == []
        else env.stored == old(env.stored) && lr.rows == added
    {
      ghost var row := Row(tenant, timestamp, fields);
      ghost var before := processed;
      lr.MustAdd(tenant, timestamp, fields);
      processed := processed + [row];
      assert processed[..|processed| - 1] == before;
      if isDebug {
        var rendered := lr.GetRow(0);
        lr.ResetKeepSettings();
        env.LogDebugRow(rendered);
        env.IncRowsDropped();
        return;
      }
      if lr.NeedFlush() {
        env.MustAddRows(lr);
        lr.ResetKeepSettings();
      }
    }
  }
}

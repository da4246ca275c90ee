# Elasticsearch `_bulk` ingestion, modelled in Dafny

This project models the `/insert/elasticsearch/_bulk` endpoint of VictoriaLogs
(`app/vlinsert/elasticsearch/elasticsearch.go`) and proves what it promises. The endpoint does the following:

- It reads a newline-delimited bulk body made of command/document line pairs.
- It decodes each document and takes its timestamp out of the time field, cleared in place.
- It renames the message field to `_msg`.
- It hands every row to the `processLogMessage` closure.
- That closure either drops the row (debug mode) or adds it to the request's batch, flushing the batch to storage whenever it is full.
- At the end, the handler hands the rest of the batch to storage, but only when the body was read without error.

Modules, one per part of the code:

- `Decimal` (`decimal.dfy`): Go's `strconv.ParseInt(s, 10, 64)`, its inverse `FormatInt`, fixed-width digit fields, and int64 wrap-around.
- `Calendar` (`calendar.dfy`):
  - `time.Parse("2006-01-02", s)` (full-date, section 5.6 of RFC 3339);
  - the proleptic Gregorian calendar;
  - `UnixNano` of a midnight UTC, which wraps around in int64.
- `Timestamp` (`timestamp.dfy`): `parseElasticsearchTimestamp`, the three-way dispatch on the shape of the string.
- `Fields` (`fields.dfy`): `extractTimestampFromFields` and `updateMessageFieldName`. Each is an in-place loop over an array of fields, proved against a function on sequences.
- `Rows` (`rows.dfy`):
  - the row and tenant types;
  - the batch `lr` (`logstorage.LogRows`), a class;
  - `Env`, the process-wide collaborators (storage, the metrics counters, the logger, the read-concurrency limiter), seen through the effects one request has on them;
  - `BulkSink`, the `processLogMessage` closure with what it captures. Its invariant `Valid` ties storage and `lr` to a flush plan of the rows processed so far.
- `Checkpoints` (`checkpoints.dfy`): the sequence of deltas `readBulkRequest` adds to `rowsIngestedTotal`. It covers the condition as written (`n >= 1000`) and the evidently intended one (`batchSize >= 1000`).
- `Bulk` (`bulk.dfy`):
  - the `bufio.Scanner` as a class over the lines it yields and the way the input ends;
  - the record reader `readBulkLine`, specified by the function `ReadRecord`;
  - the driver loop `readBulkRequest`, specified by the function `ReadFrom`, which reads the whole request.
- `Handler` (`handler.dfy`): the `/_bulk` branch of `RequestHandler`.
- `Wrappers` (`wrappers.dfy`): `Option` and `Result`.

Parameters stand for the code that is not part of this model:

- the JSON parser (`decode`);
- Go's RFC 3339 date-time parser followed by `UnixNano` (`rfc3339`);
- the clock (`clock(k)` is `time.Now().UnixNano()` while the k-th row is read);
- the flush threshold of `logstorage` (`needFlush`);
- the tenant read from the request (`BulkQuery.tenant`, `None` when `GetTenantIDFromRequest` fails).

Two places where the code does something other than what one would expect from a description of the endpoint. The model follows the code in both:

- In debug mode rows are dropped, but `readBulkRequest` still adds them to `rowsIngestedTotal`. `Handler.BulkRequest` states this.
- The time field is not removed from the document. Only its value is set to `""`, so the number and order of fields never change. `Fields.ExtractTimestamp` states this.

## Model

All source paths are relative to the repository root.

| member | source | states |
|---|---|---|
| Decimal.ParseInt64 | app/vlinsert/elasticsearch/elasticsearch.go:289 | `strconv.ParseInt(s, 10, 64)`: a result only for an optional sign followed by one or more digits; its sign follows the leading `-` |
| Decimal.Wrap64 | app/vlinsert/elasticsearch/elasticsearch.go:307 | the int64 that Go's arithmetic produces is congruent to the exact value modulo 2^64 and equals it whenever it fits |
| Decimal.DigitsValueBound | app/vlinsert/elasticsearch/elasticsearch.go:289 | k decimal digits denote less than 10^k |
| Decimal.FormatNatDenotes | app/vlinsert/elasticsearch/elasticsearch.go:289 | the decimal form of a number is a non-empty run of digits denoting that number |
| Decimal.ParseFormatRoundTrip | app/vlinsert/elasticsearch/elasticsearch.go:289 | every int64 written in base 10 parses back to itself |
| Decimal.FormatIntShape | app/vlinsert/elasticsearch/elasticsearch.go:287-289 | a written int64 is digits after an optional leading `-`, so its fifth character is never `-` |
| Decimal.PadDigits | app/vlinsert/elasticsearch/elasticsearch.go:303 | definition only: the last k digits of n with leading zeros, a field of the layout |
| Decimal.PadDigitsDenotes | app/vlinsert/elasticsearch/elasticsearch.go:303 | a fixed-width field of k digits is all digits and reads back as the number it was written from |
| Calendar.DaysIn | app/vlinsert/elasticsearch/elasticsearch.go:303 | month lengths lie in 28..31, and a month has 29 days exactly when it is February of a leap year |
| Decimal.PadDigitsOfDigits | app/vlinsert/elasticsearch/elasticsearch.go:303 | a run of k digits is the fixed-width field of the number it denotes |
| Calendar.ParseDate | app/vlinsert/elasticsearch/elasticsearch.go:303 | `time.Parse("2006-01-02", s)` accepts only a valid date written as four digits, `-`, two digits, `-`, two digits, and the date it returns is the one written there (formatting it gives back s) |
| Calendar.WriteDate | app/vlinsert/elasticsearch/elasticsearch.go:303 | definition only: year, month and day written with the layout, whether or not they form a date |
| Calendar.FormatDate | app/vlinsert/elasticsearch/elasticsearch.go:303 | definition only: a valid date written with the layout |
| Calendar.ParseWrittenDate | app/vlinsert/elasticsearch/elasticsearch.go:303 | digits written `YYYY-MM-DD` are read as written and accepted iff they form a valid date, so a month outside 1..12 or a day past the month's end is refused |
| Calendar.ParseLeapDayOfCommonYear | app/vlinsert/elasticsearch/elasticsearch.go:303 | 2023-02-29 is refused |
| Calendar.ParseLeapDayOfLeapYear | app/vlinsert/elasticsearch/elasticsearch.go:303 | 2024-02-29 is accepted |
| Calendar.ParseFormatDate | app/vlinsert/elasticsearch/elasticsearch.go:303 | every valid date written as `YYYY-MM-DD` parses back to the same date |
| Calendar.MidnightNanos | app/vlinsert/elasticsearch/elasticsearch.go:307 | definition only: `UnixNano` of midnight UTC, the day number times 86400 * 10^9 wrapped to int64; `MidnightNanosExact` and `MidnightNanosWrapsAfter2262` state when it wraps |
| Calendar.LeapYearsBeforeCounts | app/vlinsert/elasticsearch/elasticsearch.go:307 | the closed-form leap-year count used for day numbers equals counting the leap years one by one |
| Calendar.NextDayIsOneLater | app/vlinsert/elasticsearch/elasticsearch.go:307 | consecutive calendar days are consecutive day numbers since the epoch |
| Calendar.MidnightNanosExact | app/vlinsert/elasticsearch/elasticsearch.go:307 | for years 1678..2261 `UnixNano` of midnight is the exact nanosecond count, without wrap-around |
| Calendar.MidnightNanosExample | app/vlinsert/elasticsearch/elasticsearch.go:307 | midnight UTC of 2024-01-15 is 1705276800000000000 ns |
| Calendar.MidnightNanosWrapsAfter2262 | app/vlinsert/elasticsearch/elasticsearch.go:307 | midnight UTC of 2263-01-01, after the epoch, comes out negative |
| Timestamp.LayoutOf | app/vlinsert/elasticsearch/elasticsearch.go:287-313 | the integer branch is taken iff `len(s) < 10` or `s[4] != '-'`, the date branch iff `len(s) == 10` and `s[4] == '-'`, RFC 3339 otherwise |
| Timestamp.ParseElasticsearchTimestamp | app/vlinsert/elasticsearch/elasticsearch.go:286-314 | every error comes from the branch the shape selects. Milliseconds succeed only for a parsed int64 and give exactly `n * 10^6`, which fits int64 iff the guards pass. Dates succeed iff the date parses, giving its midnight. Date-times succeed iff the RFC 3339 parser does |
| Timestamp.MillisecondsOfFormatted | app/vlinsert/elasticsearch/elasticsearch.go:287-300 | any int64 in decimal takes the integer branch: above 9223372036854 it is too big, below -9223372036854 too small, and otherwise it is `n * 10^6` |
| Timestamp.MillisecondsExample | app/vlinsert/elasticsearch/elasticsearch.go:289-300 | `"1700000000000"` is 1700000000000000000 ns |
| Timestamp.MillisecondsTooBigExample | app/vlinsert/elasticsearch/elasticsearch.go:293-295 | `"9223372036854775"` is refused as too big |
| Timestamp.CalendarDateOfFormatted | app/vlinsert/elasticsearch/elasticsearch.go:302-308 | any valid date written `YYYY-MM-DD` takes the date branch and yields midnight UTC of that date |
| Timestamp.CalendarDateExample | app/vlinsert/elasticsearch/elasticsearch.go:302-308 | 2024-01-15 is read as 1705276800000000000 ns |
| Timestamp.CalendarDateWrapsAfter2262 | app/vlinsert/elasticsearch/elasticsearch.go:302-308 | 2263-01-01 is accepted but read as a negative time |
| Fields.FirstIndexOf | app/vlinsert/elasticsearch/elasticsearch.go:258-262 | the index found holds the name and no earlier field does; None iff no field has it |
| Fields.ExtractTimestamp | app/vlinsert/elasticsearch/elasticsearch.go:257-271 | only the first field named timeField may change, and only its value becomes `""` on success. With no such field the time is now and nothing changes. On a parse error nothing changes. The timestamp is that field's parse |
| Fields.RenameMessageField | app/vlinsert/elasticsearch/elasticsearch.go:273-284 | with a non-empty msgField only the first field of that name is renamed to `_msg`; values, length and all other fields are unchanged, and nothing changes without a match |
| Fields.ExtractTimestampFromFields | app/vlinsert/elasticsearch/elasticsearch.go:257-271 | the in-place loop returns the timestamp and leaves the array exactly as `ExtractTimestamp` says |
| Fields.UpdateMessageFieldName | app/vlinsert/elasticsearch/elasticsearch.go:273-284 | the in-place loop leaves the array exactly as `RenameMessageField` says |
| Fields.RenameLeavesLaterDuplicates | app/vlinsert/elasticsearch/elasticsearch.go:277-282 | a later field with the message field's name keeps its name |
| Fields.ExtractLeavesLaterDuplicates | app/vlinsert/elasticsearch/elasticsearch.go:258-268 | a later field with the time field's name keeps its value |
| Rows.FlattenAppend | app/vlinsert/elasticsearch/elasticsearch.go:132 | storing one more batch appends its rows to what storage holds |
| Rows.PlanFlushesKeepsEveryRow | app/vlinsert/elasticsearch/elasticsearch.go:131-134 | the batches flushed followed by the rows still in `lr` are exactly the rows added, in order; every flushed batch is non-empty and needed flushing; the rows left do not need flushing |
| Rows.LogRows.constructor | app/vlinsert/elasticsearch/elasticsearch.go:121 | `GetLogRows` yields an empty batch with the request's stream and ignore fields |
| Rows.LogRows.MustAdd | app/vlinsert/elasticsearch/elasticsearch.go:123 | appends one row with the request's tenant |
| Rows.LogRows.NeedFlush | app/vlinsert/elasticsearch/elasticsearch.go:131 | definition only: logstorage's flush threshold applied to the rows in the batch |
| Rows.LogRows.GetRow | app/vlinsert/elasticsearch/elasticsearch.go:125 | definition only: the row `GetRowString` renders |
| Rows.LogRows.ResetKeepSettings | app/vlinsert/elasticsearch/elasticsearch.go:126 | empties the batch |
| Rows.Env.MustAddRows | app/vlinsert/elasticsearch/elasticsearch.go:132 | storage receives the batch as it is |
| Rows.Env.AddRowsIngested | app/vlinsert/elasticsearch/elasticsearch.go:192 | records one delta of `rowsIngestedTotal` |
| Rows.Env.IncRowsDropped | app/vlinsert/elasticsearch/elasticsearch.go:128 | `rowsDroppedTotal` grows by one |
| Rows.Env.IncBulkRequests | app/vlinsert/elasticsearch/elasticsearch.go:89 | `bulkRequestsTotal` grows by one |
| Rows.Env.LogDebugRow | app/vlinsert/elasticsearch/elasticsearch.go:127 | the logger records the dropped row |
| Rows.Env.DecConcurrency | app/vlinsert/elasticsearch/elasticsearch.go:190 | one more read-concurrency unit released |
| Rows.BulkSink.constructor | app/vlinsert/elasticsearch/elasticsearch.go:121-122 | the closure starts with nothing processed over an empty batch, with the invariant established |
| Rows.BulkSink.ProcessLogMessage | app/vlinsert/elasticsearch/elasticsearch.go:122-135 | keeps the invariant. In debug mode the row is logged and counted as dropped, `lr` stays empty and storage is untouched. Otherwise the row joins `lr`, and `lr` goes to storage and is reset exactly when it then needs flushing |
| Checkpoints.CountOneMore | app/vlinsert/elasticsearch/elasticsearch.go:195-199 | counting one more row appends a delta and moves the checkpoint exactly when the condition holds |
| Checkpoints.CountFinal | app/vlinsert/elasticsearch/elasticsearch.go:192 | the delta on return completes the request's deltas |
| Checkpoints.SumAppend | app/vlinsert/elasticsearch/elasticsearch.go:192-197 | the counter's total over two runs of deltas is the sum of their totals |
| Checkpoints.LoopAddsSum | app/vlinsert/elasticsearch/elasticsearch.go:186-199 | the loop's deltas telescope to nCheckpoint, which never exceeds n |
| Checkpoints.IngestedAddsSum | app/vlinsert/elasticsearch/elasticsearch.go:186-199 | whatever the checkpoint condition, `rowsIngestedTotal` grows by exactly the number of rows decoded |
| Checkpoints.AsWrittenCheckpointsEveryRow | app/vlinsert/elasticsearch/elasticsearch.go:196-198 | as written, once 1000 rows are counted every row is a checkpoint: the deltas are 1000 then 1, 1, 1, … |
| Checkpoints.AsWrittenUpdatesFor2500Rows | app/vlinsert/elasticsearch/elasticsearch.go:196-198 | as written, 2500 rows cost 1502 counter updates |
| Checkpoints.IntendedCheckpointsAtMultiples | app/vlinsert/elasticsearch/elasticsearch.go:196-198 | with `batchSize >= 1000` the checkpoints fall on multiples of 1000 and each adds 1000 |
| Checkpoints.IntendedCheckpointsEvery1000 | app/vlinsert/elasticsearch/elasticsearch.go:196-198 | with `batchSize >= 1000` there are n / 1000 + 1 deltas, each within 0..1000 |
| Checkpoints.IntendedUpdatesFor2500Rows | app/vlinsert/elasticsearch/elasticsearch.go:196-198 | with `batchSize >= 1000`, 2500 rows cost 3 counter updates |
| Bulk.Scanner.constructor | app/vlinsert/elasticsearch/elasticsearch.go:183 | a scanner starts before its first line |
| Bulk.Scanner.Scan | app/vlinsert/elasticsearch/elasticsearch.go:214 | `Scan` succeeds exactly while lines remain, advancing by one line |
| Bulk.Scanner.Bytes | app/vlinsert/elasticsearch/elasticsearch.go:224 | definition only: the line the last successful `Scan` returned |
| Bulk.Scanner.Err | app/vlinsert/elasticsearch/elasticsearch.go:215-220 | definition only: nil while lines remain and at EOF, `ErrTooLong` after an over-long line, the reader's error otherwise |
| Bulk.Contains | app/vlinsert/elasticsearch/elasticsearch.go:227 | definition only: `strings.Contains`; `ContainsIffOccurs` states what it computes |
| Bulk.IsCommand | app/vlinsert/elasticsearch/elasticsearch.go:227 | definition only: the line contains `"create"` or `"index"` |
| Bulk.ContainsIffOccurs | app/vlinsert/elasticsearch/elasticsearch.go:227 | `strings.Contains` holds exactly when the substring occurs at some index |
| Bulk.SkipBlank | app/vlinsert/elasticsearch/elasticsearch.go:213-225 | the lines skipped are all empty, and the line reached, if any, is not |
| Bulk.DecodeDocument | app/vlinsert/elasticsearch/elasticsearch.go:242-252 | definition only: the document is parsed, its timestamp extracted and its message field renamed; the lemmas on `ReadFrom` and `DecodeLogMessage` use it |
| Bulk.ReadRecord | app/vlinsert/elasticsearch/elasticsearch.go:207-255 | a record never moves the scanner back, and a decoded record consumes at least a command line and a document line |
| Bulk.BlankLineSkipped | app/vlinsert/elasticsearch/elasticsearch.go:213-225 | an empty line where a command is expected makes no difference |
| Bulk.ReadRecordEnds | app/vlinsert/elasticsearch/elasticsearch.go:213-240 | a clean end iff no command is left at EOF; "missing log message" iff the command is the last line at EOF; the two too-long errors iff the over-long line is where the command, respectively the document, was expected; an unexpected command iff the first non-empty line lacks both `"create"` and `"index"` |
| Bulk.ReadFrom | app/vlinsert/elasticsearch/elasticsearch.go:186-200 | definition only: the whole request read from a scanner position, record after record, up to the first that does not decode; the four `ReadFrom…` lemmas state its properties |
| Bulk.ReadFromKeepsEarlierEntries | app/vlinsert/elasticsearch/elasticsearch.go:188-200 | reading on never drops or changes an entry already decoded |
| Bulk.ReadFromEntryBound | app/vlinsert/elasticsearch/elasticsearch.go:188-200 | a request yields at most half as many rows as it has lines |
| Bulk.ReadFromEntriesAreDocuments | app/vlinsert/elasticsearch/elasticsearch.go:188-252 | every row decoded is the decoding of a document line right after a command line, with the clock read for that row |
| Bulk.ReadFromStopReasons | app/vlinsert/elasticsearch/elasticsearch.go:188-240 | a request ends cleanly only at EOF; too-long errors only at an over-long line; read errors carry the reader's cause; an unexpected command is a non-empty, non-command line of the body |
| Bulk.RowsOf | app/vlinsert/elasticsearch/elasticsearch.go:252 | one row per decoded entry |
| Bulk.RowsOfSnoc | app/vlinsert/elasticsearch/elasticsearch.go:252 | one more entry gives one more row, at the end |
| Bulk.ScanRecord | app/vlinsert/elasticsearch/elasticsearch.go:210-241 | the scanning half of `readBulkLine` moves the scanner exactly as `ReadRecord` does and yields either its error or the document line itself, the line just scanned, which follows a command line |
| Bulk.DecodeLogMessage | app/vlinsert/elasticsearch/elasticsearch.go:241-254 | the document reaches `processLogMessage` exactly once iff it decodes, with the timestamp and fields `DecodeDocument` gives, and the error otherwise |
| Bulk.ReadBulkLine | app/vlinsert/elasticsearch/elasticsearch.go:207-255 | result `(true, nil)` iff the record decodes, and exactly then one row reaches `processLogMessage`; the error and the new scanner position are those of `ReadRecord` |
| Bulk.ReadBulkPass | app/vlinsert/elasticsearch/elasticsearch.go:189-199 | one loop pass keeps the loop invariant or, on its last pass, establishes the whole request's outcome, final counter delta and releases |
| Bulk.ReadBulkRequest | app/vlinsert/elasticsearch/elasticsearch.go:162-201 | the n returned is the number of records read up to the first that fails, and the error is that record's (nil at a clean end). `processLogMessage` got their rows in order, `rowsIngestedTotal` got the as-written deltas, and `DecConcurrency` ran n + 1 times, once per `readBulkLine` call |
| Bulk.AddFinalCount | app/vlinsert/elasticsearch/elasticsearch.go:192 | the final delta completes the request's deltas |
| Bulk.CountRow | app/vlinsert/elasticsearch/elasticsearch.go:195-199 | the row is counted and the checkpoint bookkeeping stays as the as-written policy describes |
| Handler.TimeFieldOf | app/vlinsert/elasticsearch/elasticsearch.go:98-103 | the time field is `_time` unless `_time_field` is given, and never empty |
| Handler.BulkRequest | app/vlinsert/elasticsearch/elasticsearch.go:88-150 | the request is always counted, and a tenant error leaves all else untouched. Otherwise, outside debug mode, storage receives the flushes of the decoded rows and, only after a clean read, the rest of the batch. In debug mode they are logged and counted as dropped instead. The reply carries the row count and the error; `rowsIngestedTotal` and the limiter are as `readBulkRequest` leaves them |
| Handler.StoredBatches | app/vlinsert/elasticsearch/elasticsearch.go:132-143 | definition only: the flushes of the closure, then `lr` only when reading completed (in debug mode, only the empty `lr`); the lemmas below state what it keeps and loses |
| Handler.Serve | app/vlinsert/elasticsearch/elasticsearch.go:121-150 | the same, once the tenant and the query arguments are known |
| Handler.SinkAccounts | app/vlinsert/elasticsearch/elasticsearch.go:121-143 | the closure's invariant means storage holds the flushes so far, and appending `lr` gives what a completed request stores |
| Handler.CompletedRequestStoresEveryRow | app/vlinsert/elasticsearch/elasticsearch.go:143 | after a clean read every decoded row is stored, once, in order |
| Handler.FailedRequestStoresFlushedRowsOnly | app/vlinsert/elasticsearch/elasticsearch.go:139-141 | after an error storage holds the rows flushed so far, and exactly the rows still in `lr` are missing |
| Handler.FailedRequestLosesPendingRows | app/vlinsert/elasticsearch/elasticsearch.go:139-143 | a request whose one decoded row did not fill the batch, followed by a bad record, stores nothing |
| Handler.StoredBatchesFlushingOnEveryExit | app/vlinsert/elasticsearch/elasticsearch.go:139-143 | definition only: the batches stored when `lr` is handed over whichever way reading ends |
| Handler.ServeFlushingOnEveryExit | app/vlinsert/elasticsearch/elasticsearch.go:121-150 | the handler with the intended hand-over of `lr` before either reply: the same reply, counters and logs as `Serve`, with storage receiving `StoredBatchesFlushingOnEveryExit` |
| Handler.FlushOnEveryExitKeepsEveryRow | app/vlinsert/elasticsearch/elasticsearch.go:139-143 | with `lr` handed over on every exit, every decoded row is stored, error or not |

## Left out

- The fake compatibility endpoints and the path routing of `RequestHandler` (lines 38-86, 152-153) are left out. They write constant responses.
- Gzip decompression (lines 167-175) is not modelled. The model reads the already decompressed body, and a gzip header error is not among its outcomes.
- The concurrency-limited reader is left out, except for the count of `DecConcurrency` calls. That covers its internals, the pooled line buffer and the `logjson` parser pool (lines 176-184, 242, 253).
- `bufio.Scanner` is a given sequence of lines plus the way the input ends: cleanly, on an over-long line, or on a reader error. Line splitting and buffer sizes are not modelled, and the limit is a number carried in the error.
- The JSON parser, Go's RFC 3339 parser and the clock are function parameters. The flush threshold of `NeedFlush` and the tenant lookup are too.
- Strings are sequences of characters, each standing for one byte. Multi-byte UTF-8 is not modelled.
- The text of the error messages is not modelled. It is replaced by the `BulkError` and `TimestampError` constructors. `strconv`'s syntax and range errors are both `None`.
- `logger.Warnf` on a decode error, the debug request URI and remote address, and the formatting of `GetRowString` are left out. The debug log records the row itself.
- The response (`WriteBulkResponse`, `tookMs`, `bufferedwriter`) and `PutLogRows` are modelled only as the reply `Acked(n)`.
- Bulk.ReadBulkRequest: the handler creates the scanner over the body and passes it in. The source creates it inside `readBulkRequest`.
- Bulk.ScanRecord, Bulk.DecodeLogMessage, Bulk.ReadBulkPass, Bulk.CountRow, Bulk.AddFinalCount and Handler.Serve are the source's functions cut into smaller methods, each with the statements of the cited lines. Their composition is `readBulkLine`, `readBulkRequest` and the handler.
- Bulk.RowsOf: its contract states only the length. Its contents are its definition, used by `ReadBulkRequest` and `BulkRequest`.
- Calendar.ParseDate: years are four digits, 0000 to 9999, as the layout demands. Go's other date layouts and time zones are not modelled.

## Findings

`Bulk.ReadBulkRequest` and `Handler.BulkRequest` keep the code as written. The corrected definitions sit beside them, each with its property proved. For the hand-over, `Handler.ServeFlushingOnEveryExit` is the corrected handler, and storage receives `StoredBatchesFlushingOnEveryExit`.

| source | as written | input that shows it | evidently intended | confidence | as-written member | corrected member |
|---|---|---|---|---|---|---|
| app/vlinsert/elasticsearch/elasticsearch.go:196 | `batchSize` is computed but the condition tests `n >= 1000`, so from the 1000th row on every row is its own checkpoint | a body of 2500 records: 1502 updates of `rowsIngestedTotal` (1000, then 1 per row, then 0) | checkpoint every 1000 rows, `batchSize >= 1000`: 3 updates (1000, 1000, 500) | not executed | Checkpoints.AsWrittenCheckpointsEveryRow | Checkpoints.IntendedCheckpointsEvery1000 |
| app/vlinsert/elasticsearch/elasticsearch.go:139-143 | on a decode error the handler returns before `vlstorage.MustAddRows(lr)`, so rows already accepted by `processLogMessage` but not yet flushed are never stored | a batch that does not need flushing, one valid record, then a line without `"create"`/`"index"`: the valid row is accepted and never stored | hand `lr` to storage on every exit, so every accepted row is stored | not executed | Handler.FailedRequestLosesPendingRows | Handler.FlushOnEveryExitKeepsEveryRow |

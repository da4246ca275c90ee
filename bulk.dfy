/**
 * The _bulk wire format read line by line: every record is a command line
 * ("create" or "index") followed by one JSON document line. readBulkLine
 * reads one record and hands it to processLogMessage; readBulkRequest loops
 * until the input ends or a record fails, counting rows and checkpointing
 * the ingested-rows counter.
 */
module Bulk {
  import opened Wrappers
  import opened Decimal
  import opened Timestamp
  import opened Fields
  import opened Rows
  import opened Checkpoints

  /** How the input ended after its last complete line. */
  datatype ScanEnd = Eof | TooLong | ReadError(cause: string)

  /** What bufio.Scanner.Err reports once Scan returned false on a non-EOF end. */
  datatype ScanError = ErrTooLong | IOError(cause: string)

  /**
   * bufio.Scanner over the (decompressed, concurrency-limited) request body:
   * the lines it will yield, then how the input ends. pos counts the lines
   * Scan has returned.
   */
  class Scanner {
    const lines: seq<string>
    const end: ScanEnd
    var pos: nat

    constructor (lines: seq<string>, end: ScanEnd)
      ensures this.lines == lines && this.end == end && pos == 0
    {
      this.lines := lines;
      this.end := end;
      pos := 0;
    }

    /** Advances to the next line; false, for good, once the lines are used up. */
    method Scan() returns (ok: bool)
      requires pos <= |lines|
      modifies this`pos
      ensures ok <==> old(pos) < |lines|
      ensures pos == if ok then old(pos) + 1 else old(pos)
    {
      ok := pos < |lines|;
      if ok {
        pos := pos + 1;
      }
    }

    /** The line the last successful Scan returned. */
    function Bytes(): string
      reads this
      requires 0 < pos <= |lines|
    {
      lines[pos - 1]
    }

    /** nil while lines remain and at a clean end of input. */
    function Err(): Option<ScanError>
      reads this
    {
      if pos < |lines| then None
      else
        match end
        case Eof => None
        case TooLong => Some(ErrTooLong)
        case ReadError(cause) => Some(IOError(cause))
    }
  }

  /** Why a request stops early; each is fatal to the rest of the request. */
  datatype BulkError =
    | CommandTooLong(limit: nat)       // a command line exceeds -insert.maxLineSizeBytes
    | MessageTooLong(limit: nat)       // a document line exceeds it
    | ReadFailed(cause: string)        // any other error of the underlying reader
    | UnexpectedCommand(line: string)  // neither "create" nor "index" in the command line
    | MissingMessage                   // the input ends right after a command
    | BadJson                          // the document is not a JSON object
    | BadTimestamp(tsError: TimestampError)

  /**
   * What the reader is configured with. The JSON parser (logjson), the RFC
   * 3339 parser and the clock (time.Now().UnixNano() while the k-th row is
   * read) are parameters.
   */
  datatype Config = Config(
    timeField: string,
    msgField: string,
    maxLineSize: nat,
    decode: string -> Option<seq<Field>>,
    rfc3339: string -> Option<Int64>,
    clock: nat -> Int64)

  /** strings.Contains. */
  function Contains(s: string, sub: string): bool
    decreases |s|
  {
    if |s| < |sub| then false
    else if s[..|sub|] == sub then true
    else Contains(s[1..], sub)
  }

  /** sub occurs in s starting at index i. */
  predicate OccursAt(s: string, sub: string, i: int)
  {
    0 <= i <= |s| - |sub| && s[i..i + |sub|] == sub
  }

  /** Contains finds sub exactly when it occurs somewhere in s. */
  lemma {:induction false} ContainsIffOccurs(s: string, sub: string)
    ensures Contains(s, sub) <==> exists i :: OccursAt(s, sub, i)
    decreases |s|
  {
    if |s| < |sub| {
    } else if s[..|sub|] == sub {
      assert OccursAt(s, sub, 0);
    } else {
      ContainsIffOccurs(s[1..], sub);
      if Contains(s[1..], sub) {
        var i :| OccursAt(s[1..], sub, i);
        assert s[i + 1..i + 1 + |sub|] == s[1..][i..i + |sub|];
        assert OccursAt(s, sub, i + 1);
      }
      if exists i :: OccursAt(s, sub, i) {
        var i :| OccursAt(s, sub, i);
        assert i != 0;
        assert s[1..][i - 1..i - 1 + |sub|] == s[i..i + |sub|];
        assert OccursAt(s[1..], sub, i - 1);
      }
    }
  }

  /** A bulk action line this endpoint accepts: it mentions "create" or "index" as a quoted word. */
  predicate IsCommand(line: string)
  {
    Contains(line, "\"create\"") || Contains(line, "\"index\"")
  }

  /** The first non-empty line at or after pos, or pos itself when the lines are used up. */
  function SkipBlank(lines: seq<string>, pos: nat): (k: nat)
    ensures pos <= k && (pos <= |lines| ==> k <= |lines|) && (pos >= |lines| ==> k == pos)
    ensures forall j :: pos <= j < k ==> lines[j] == ""
    ensures k < |lines| ==> lines[k] != ""
    decreases |lines| - pos
  {
    if pos >= |lines| || lines[pos] != "" then pos else SkipBlank(lines, pos + 1)
  }

  /** One decoded log entry before it is tied to a tenant. */
  datatype Entry = Entry(timestamp: Int64, fields: seq<Field>)

  /** The result of reading one record. */
  datatype Outcome = Decoded(entry: Entry) | Finished | Failed(error: BulkError)

  /** An outcome and the scanner position after it. */
  datatype Step = Step(outcome: Outcome, next: nat)

  /** The error readBulkLine returns for an outcome. */
  function ErrorOf(o: Outcome): Option<BulkError>
  {
    if o.Failed? then Some(o.error) else None
  }

  /** The input ends where a command is expected: the clean end of a request, or the scanner's error. */
  function EndBeforeCommand(end: ScanEnd, cfg: Config): Outcome
  {
    match end
    case Eof => Finished
    case TooLong => Failed(CommandTooLong(cfg.maxLineSize))
    case ReadError(cause) => Failed(ReadFailed(cause))
  }

  /** The input ends right after a command: the document is missing, or the scanner failed. */
  function EndAfterCommand(end: ScanEnd, cfg: Config): Outcome
  {
    match end
    case Eof => Failed(MissingMessage)
    case TooLong => Failed(MessageTooLong(cfg.maxLineSize))
    case ReadError(cause) => Failed(ReadFailed(cause))
  }

  /**
   * The document line is decoded, its timestamp taken (now when the time
   * field is absent) and its message field renamed.
   */
  function DecodeDocument(doc: string, cfg: Config, now: Int64): Outcome
  {
    match cfg.decode(doc)
    case None => Failed(BadJson)
    case Some(fields) =>
      var x := ExtractTimestamp(cfg.timeField, fields, now, cfg.rfc3339);
      match x.timestamp
      case Failure(e) => Failed(BadTimestamp(e))
      case Success(ts) => Decoded(Entry(ts, RenameMessageField(cfg.msgField, x.fields)))
  }

  /**
   * What readBulkLine does from scanner position pos: skip empty lines, then
   * read a command line and a document line.
   */
  function ReadRecord(lines: seq<string>, end: ScanEnd, pos: nat, cfg: Config, now: Int64): (st: Step)
    ensures pos <= st.next && (pos <= |lines| ==> st.next <= |lines|)
    ensures st.outcome.Decoded? ==> pos + 2 <= st.next <= |lines|
  {
    var k := SkipBlank(lines, pos);
    if k >= |lines| then Step(EndBeforeCommand(end, cfg), k)
    else if !IsCommand(lines[k]) then Step(Failed(UnexpectedCommand(lines[k])), k + 1)
    else if k + 1 == |lines| then Step(EndAfterCommand(end, cfg), k + 1)
    else Step(DecodeDocument(lines[k + 1], cfg, now), k + 2)
  }

  /** The entries a request yields and how it stopped: None at a clean end of input. */
  datatype Drained = Drained(entries: seq<Entry>, error: Option<BulkError>)

  /**
   * The request read on from scanner position pos, entries having been
   * decoded before it: each record that decodes adds its entry (the clock
   * read for it being the one for its index), and the first that does not
   * decode ends the request.
   */
  function ReadFrom(lines: seq<string>, end: ScanEnd, cfg: Config, entries: seq<Entry>, pos: nat): Drained
    decreases |lines| - pos
  {
    var st := ReadRecord(lines, end, pos, cfg, cfg.clock(|entries|));
    if st.outcome.Decoded? then ReadFrom(lines, end, cfg, entries + [st.outcome.entry], st.next)
    else Drained(entries, ErrorOf(st.outcome))
  }

  /** An empty line where a command is expected is skipped: reading from it is reading from the next line. */
  lemma BlankLineSkipped(lines: seq<string>, end: ScanEnd, pos: nat, cfg: Config, now: Int64)
    requires pos < |lines| && lines[pos] == ""
    ensures ReadRecord(lines, end, pos, cfg, now) == ReadRecord(lines, end, pos + 1, cfg, now)
  {
  }

  /**
   * How a record read from pos ends, k being the first non-empty line: the
   * clean end exactly when no command is left and the input ended at EOF, a
   * missing document exactly when the command is the last line and the input
   * ended at EOF, and the two too-long errors exactly when the scanner stopped
   * on an over-long line where the command, respectively the document, was
   * expected.
   */
  lemma ReadRecordEnds(lines: seq<string>, end: ScanEnd, pos: nat, cfg: Config, now: Int64)
    requires pos <= |lines|
    ensures var k, o := SkipBlank(lines, pos), ReadRecord(lines, end, pos, cfg, now).outcome;
      (o == Finished <==> k == |lines| && end == Eof) &&
      (o == Failed(MissingMessage) <==> k + 1 == |lines| && IsCommand(lines[k]) && end == Eof) &&
      (o == Failed(CommandTooLong(cfg.maxLineSize)) <==> k == |lines| && end == TooLong) &&
      (o == Failed(MessageTooLong(cfg.maxLineSize)) <==> k + 1 == |lines| && IsCommand(lines[k]) && end == TooLong) &&
      (o.Failed? && o.error.UnexpectedCommand? <==> k < |lines| && !IsCommand(lines[k])) &&
      (o.Decoded? ==> k + 1 < |lines| && IsCommand(lines[k]))
  {
  }

  /** Reading on never drops or changes an entry already decoded. */
  lemma {:induction false} ReadFromKeepsEarlierEntries(lines: seq<string>, end: ScanEnd, cfg: Config, entries: seq<Entry>, pos: nat)
    ensures var d := ReadFrom(lines, end, cfg, entries, pos);
      |entries| <= |d.entries| && d.entries[..|entries|] == entries
    decreases |lines| - pos
  {
    var st := ReadRecord(lines, end, pos, cfg, cfg.clock(|entries|));
    if st.outcome.Decoded? {
      var more := entries + [st.outcome.entry];
      ReadFromKeepsEarlierEntries(lines, end, cfg, more, st.next);
      var d := ReadFrom(lines, end, cfg, more, st.next);
      assert d.entries[..|entries|] == d.entries[..|more|][..|entries|];
    }
  }

  /** Each record that decodes takes a command line and a document line, so a request yields at most half its lines. */
  lemma {:induction false} ReadFromEntryBound(lines: seq<string>, end: ScanEnd, cfg: Config, entries: seq<Entry>, pos: nat)
    requires pos <= |lines|
    ensures 2 * (|ReadFrom(lines, end, cfg, entries, pos).entries| - |entries|) <= |lines| - pos
    decreases |lines| - pos
  {
    var st := ReadRecord(lines, end, pos, cfg, cfg.clock(|entries|));
    if st.outcome.Decoded? {
      ReadFromEntryBound(lines, end, cfg, entries + [st.outcome.entry], st.next);
    }
  }

  /**
   * Every entry a request yields is the decoding of a document line that
   * follows a command line, decoded with the clock's reading for its own
   * index.
   */
  lemma {:induction false} ReadFromEntriesAreDocuments(lines: seq<string>, end: ScanEnd, cfg: Config, entries: seq<Entry>, pos: nat)
    ensures var d := ReadFrom(lines, end, cfg, entries, pos);
      forall i :: |entries| <= i < |d.entries| ==>
        exists j :: pos < j < |lines| && IsCommand(lines[j - 1]) &&
          DecodeDocument(lines[j], cfg, cfg.clock(i)) == Decoded(d.entries[i])
    decreases |lines| - pos
  {
    var st := ReadRecord(lines, end, pos, cfg, cfg.clock(|entries|));
    if st.outcome.Decoded? {
      var more := entries + [st.outcome.entry];
      var d := ReadFrom(lines, end, cfg, entries, pos);
      assert d == ReadFrom(lines, end, cfg, more, st.next);
      ReadFromEntriesAreDocuments(lines, end, cfg, more, st.next);
      ReadFromKeepsEarlierEntries(lines, end, cfg, more, st.next);
      var k := SkipBlank(lines, pos);
      assert k + 1 < |lines| && IsCommand(lines[k]) && st == Step(DecodeDocument(lines[k + 1], cfg, cfg.clock(|entries|)), k + 2);
      forall i | |entries| <= i < |d.entries|
        ensures exists j :: pos < j < |lines| && IsCommand(lines[j - 1]) &&
                             DecodeDocument(lines[j], cfg, cfg.clock(i)) == Decoded(d.entries[i])
      {
        if i == |entries| {
          assert d.entries[i] == d.entries[..|more|][i] == st.outcome.entry;
          assert IsCommand(lines[k + 1 - 1]);
        }
      }
    }
  }

  /**
   * Why a request stops: a clean end only at EOF, a too-long error only when
   * the scanner hit an over-long line, a read failure only with the
   * underlying reader's cause, and an unexpected command only for a
   * non-empty line of the input that is not a command.
   */
  lemma {:induction false} ReadFromStopReasons(lines: seq<string>, end: ScanEnd, cfg: Config, entries: seq<Entry>, pos: nat)
    ensures var e := ReadFrom(lines, end, cfg, entries, pos).error;
      (e.None? ==> end == Eof) &&
      (e.Some? && (e.value.CommandTooLong? || e.value.MessageTooLong?) ==> end == TooLong) &&
      (e.Some? && e.value.ReadFailed? ==> end == ReadError(e.value.cause)) &&
      (e.Some? && e.value.UnexpectedCommand? ==> e.value.line in lines && e.value.line != "" && !IsCommand(e.value.line))
    decreases |lines| - pos
  {
    var st := ReadRecord(lines, end, pos, cfg, cfg.clock(|entries|));
    if st.outcome.Decoded? {
      ReadFromStopReasons(lines, end, cfg, entries + [st.outcome.entry], st.next);
    }
  }

  /** The rows processLogMessage receives for entries of one tenant. */
  function RowsOf(tenant: TenantID, entries: seq<Entry>): (rows: seq<Row>)
    ensures |rows| == |entries|
  {
    seq(|entries|, i requires 0 <= i < |entries| => Row(tenant, entries[i].timestamp, entries[i].fields))
  }

  lemma RowsOfSnoc(tenant: TenantID, entries: seq<Entry>, e: Entry)
    ensures RowsOf(tenant, entries + [e]) == RowsOf(tenant, entries) + [Row(tenant, e.timestamp, e.fields)]
  {
  }

  /**
   * The scanning half of readBulkLine: empty lines are skipped, the command
   * line is checked, and the document line after it is read. found tells
   * whether a document line was reached; otherwise err is what readBulkLine
   * returns, None at a clean end of input.
   */
  method ScanRecord(sc: Scanner, cfg: Config, ghost now: Int64) returns (found: bool, doc: string, err: Option<BulkError>)
    requires sc.pos <= |sc.lines|
    modifies sc`pos
    ensures var st := ReadRecord(sc.lines, sc.end, old(sc.pos), cfg, now);
      sc.pos == st.next &&
      (found ==> 1 < sc.pos <= |sc.lines| && doc == sc.lines[sc.pos - 1] && IsCommand(sc.lines[sc.pos - 2]) &&
                 st.outcome == DecodeDocument(doc, cfg, now)) &&
      (!found ==> !st.outcome.Decoded? && err == ErrorOf(st.outcome))
  {
    ghost var k := SkipBlank(sc.lines, sc.pos);
    ghost var st := ReadRecord(sc.lines, sc.end, sc.pos, cfg, now);
    var line := "";
    while |line| == 0
      invariant sc.pos <= |sc.lines|
      invariant |line| == 0 ==> sc.pos <= k == SkipBlank(sc.lines, sc.pos)
      invariant |line| != 0 ==> k < |sc.lines| && sc.pos == k + 1 && line == sc.lines[k]
      decreases |sc.lines| - sc.pos
    {
      var more := sc.Scan();
      if !more {
        assert st == Step(EndBeforeCommand(sc.end, cfg), sc.pos);
        var e := sc.Err();
        if e.Some? {
          if e.value == ErrTooLong {
            return false, "", Some(CommandTooLong(cfg.maxLineSize));
          }
          return false, "", Some(ReadFailed(e.value.cause));
        }
        return false, "", None;
      }
      line := sc.Bytes();
    }
    assert k < |sc.lines| && line == sc.lines[k] && sc.pos == k + 1;
    if !Contains(line, "\"create\"") && !Contains(line, "\"index\"") {
      assert st == Step(Failed(UnexpectedCommand(line)), k + 1);
      return false, "", Some(UnexpectedCommand(line));
    }

    var more := sc.Scan();
    if !more {
      assert st == Step(EndAfterCommand(sc.end, cfg), k + 1);
      var e := sc.Err();
      if e.Some? {
        if e.value == ErrTooLong {
          return false, "", Some(MessageTooLong(cfg.maxLineSize));
        }
        return false, "", Some(ReadFailed(e.value.cause));
      }
      return false, "", Some(MissingMessage);
    }
    doc := sc.Bytes();
    assert st == Step(DecodeDocument(doc, cfg, now), k + 2);
    found, err := true, None;
  }

  /**
   * readBulkLine: reads one record and, exactly when it decodes, hands its
   * timestamp and fields to processLogMessage.
   */
  method ReadBulkLine(sc: Scanner, cfg: Config, now: Int64, sink: BulkSink) returns (ok: bool, err: Option<BulkError>)
    requires sc.pos <= |sc.lines| && sink.Valid()
    modifies sc`pos, sink, sink.lr`rows, sink.env`stored, sink.env`rowsDropped, sink.env`debugLog
    ensures sink.Valid()
    ensures var st := ReadRecord(sc.lines, sc.end, old(sc.pos), cfg, now);
      sc.pos == st.next && ok == st.outcome.Decoded? && err == ErrorOf(st.outcome) &&
      sink.processed == old(sink.processed) +
        if ok then [Row(sink.tenant, st.outcome.entry.timestamp, st.outcome.entry.fields)] else []
  {
    var found, doc;
    found, doc, err := ScanRecord(sc, cfg, now);
    if !found {
      return false, err;
    }
    ok, err := DecodeLogMessage(doc, cfg, now, sink);
  }

  /**
   * The second half of readBulkLine: the document line is parsed as JSON,
   * its timestamp extracted and its message field renamed in place, and the
   * entry handed to processLogMessage, exactly when DecodeDocument succeeds.
   */
  method DecodeLogMessage(line: string, cfg: Config, now: Int64, sink: BulkSink) returns (ok: bool, err: Option<BulkError>)
    requires sink.Valid()
    modifies sink, sink.lr`rows, sink.env`stored, sink.env`rowsDropped, sink.env`debugLog
    ensures sink.Valid()
    ensures var o := DecodeDocument(line, cfg, now);
      ok == o.Decoded? && err == ErrorOf(o) &&
      sink.processed == old(sink.processed) + if ok then [Row(sink.tenant, o.entry.timestamp, o.entry.fields)] else []
  {
    var decoded := cfg.decode(line);
    if decoded.None? {
      return false, Some(BadJson);
    }
    var fields := new Field[|decoded.value|](i requires 0 <= i < |decoded.value| => decoded.value[i]);
    assert fields[..] == decoded.value;
    var timestamp := ExtractTimestampFromFields(cfg.timeField, fields, now, cfg.rfc3339);
    if timestamp.Failure? {
      return false, Some(BadTimestamp(timestamp.error));
    }
    UpdateMessageFieldName(cfg.msgField, fields);
    sink.ProcessLogMessage(timestamp.value, fields[..]);
    return true, None;
  }

  /**
   * What readBulkRequest's loop keeps once the entries so far are decoded,
   * in a request that began at scanner position pos0, with processLogMessage
   * having received processed0 and rowsIngestedTotal adds0 before it: the
   * request read on from the scanner's position completes those entries to
   * the whole request, processLogMessage received their rows, the counter
   * holds the loop's checkpoints and one read-concurrency unit was released
   * per entry.
   */
  ghost predicate Reading(sc: Scanner, cfg: Config, sink: BulkSink, pos0: nat, processed0: seq<Row>, adds0: seq<int>,
                          released0: nat, entries: seq<Entry>, nCheckpoint: int)
    reads sc, sink, sink.lr`rows, sink.env`stored, sink.env`debugLog, sink.env`rowsDropped
    reads sink.env`ingestedAdds, sink.env`released
  {
    sc.pos <= |sc.lines| && sink.Valid() &&
    ReadFrom(sc.lines, sc.end, cfg, entries, sc.pos) == ReadFrom(sc.lines, sc.end, cfg, [], pos0) &&
    sink.processed == processed0 + RowsOf(sink.tenant, entries) &&
    nCheckpoint == CheckpointAfter(AsWritten, |entries|) &&
    sink.env.ingestedAdds == adds0 + LoopAdds(AsWritten, |entries|) &&
    sink.env.released == released0 + |entries|
  }

  /**
   * One pass of readBulkRequest's loop, for the record after the n decoded
   * so far: readBulkLine with the clock's reading for entry n, the release
   * of one read-concurrency unit, and then either the final count as the
   * loop returns (done) or the count of the new row with a checkpoint once
   * n >= 1000.
   */
  method ReadBulkPass(sc: Scanner, cfg: Config, sink: BulkSink, n: nat, nCheckpoint: nat, ghost pos0: nat,
                      ghost processed0: seq<Row>, ghost adds0: seq<int>, ghost released0: nat, ghost entries: seq<Entry>)
    returns (done: bool, err: Option<BulkError>, n': nat, nCheckpoint': nat, ghost entries': seq<Entry>)
    requires n == |entries| && Reading(sc, cfg, sink, pos0, processed0, adds0, released0, entries, nCheckpoint)
    modifies sc`pos, sink, sink.lr`rows
    modifies sink.env`stored, sink.env`rowsDropped, sink.env`debugLog, sink.env`ingestedAdds, sink.env`released
    ensures n' == |entries'| && sc.pos <= |sc.lines| && sink.Valid()
    ensures sink.processed == processed0 + RowsOf(sink.tenant, entries')
    ensures done ==>
      entries' == entries && ReadFrom(sc.lines, sc.end, cfg, [], pos0) == Drained(entries, err) &&
      sink.env.ingestedAdds == adds0 + IngestedAdds(AsWritten, n) && sink.env.released == released0 + n + 1
    ensures !done ==> old(sc.pos) < sc.pos && Reading(sc, cfg, sink, pos0, processed0, adds0, released0, entries', nCheckpoint')
  {
    ghost var st := ReadRecord(sc.lines, sc.end, sc.pos, cfg, cfg.clock(n));
    var ok;
    ok, err := ReadBulkLine(sc, cfg, cfg.clock(n), sink);
    sink.env.DecConcurrency();
    if err.Some? || !ok {
      AddFinalCount(sink.env, adds0, n, nCheckpoint);
      return true, err, n, nCheckpoint, entries;
    }
    RowsOfSnoc(sink.tenant, entries, st.outcome.entry);
    entries' := entries + [st.outcome.entry];
    n', nCheckpoint' := CountRow(sink.env, adds0, n, nCheckpoint);
    done := false;
  }

  /**
   * readBulkRequest: reads records until the input ends or one fails. It
   * returns the number of rows decoded, releases one read-concurrency unit
   * per readBulkLine call, and adds the rows to rowsIngestedTotal in
   * checkpoints (the loop's condition is n >= 1000).
   */
  method ReadBulkRequest(sc: Scanner, cfg: Config, sink: BulkSink) returns (n: nat, err: Option<BulkError>)
    requires sc.pos <= |sc.lines| && sink.Valid()
    modifies sc`pos, sink, sink.lr`rows
    modifies sink.env`stored, sink.env`rowsDropped, sink.env`debugLog, sink.env`ingestedAdds, sink.env`released
    ensures sink.Valid()
    ensures var d := ReadFrom(sc.lines, sc.end, cfg, [], old(sc.pos));
      n == |d.entries| && err == d.error &&
      sink.processed == old(sink.processed) + RowsOf(sink.tenant, d.entries)
    ensures sink.env.ingestedAdds == old(sink.env.ingestedAdds) + IngestedAdds(AsWritten, n)
    ensures sink.env.released == old(sink.env.released) + n + 1
  {
    ghost var pos0 := sc.pos;
    ghost var processed0 := sink.processed;
    ghost var adds0 := sink.env.ingestedAdds;
    ghost var released0 := sink.env.released;
    ghost var entries: seq<Entry> := [];
    n := 0;
    var nCheckpoint := 0;
    while true
      invariant n == |entries| && Reading(sc, cfg, sink, pos0, processed0, adds0, released0, entries, nCheckpoint)
      decreases |sc.lines| - sc.pos
    {
      var done;
      done, err, n, nCheckpoint, entries :=
        ReadBulkPass(sc, cfg, sink, n, nCheckpoint, pos0, processed0, adds0, released0, entries);
      if done {
        return;
      }
    }
  }

  /** The rows since the last checkpoint go to rowsIngestedTotal as readBulkRequest returns. */
  method AddFinalCount(env: Env, ghost base: seq<int>, n: nat, nCheckpoint: nat)
    requires env.ingestedAdds == base + LoopAdds(AsWritten, n) && nCheckpoint == CheckpointAfter(AsWritten, n)
    modifies env`ingestedAdds
    ensures env.ingestedAdds == base + IngestedAdds(AsWritten, n)
  {
    CountFinal(AsWritten, base, env.ingestedAdds, n, nCheckpoint);
    env.AddRowsIngested(n - nCheckpoint);
  }

  /**
   * The end of readBulkRequest's loop body: the row is counted, and once
   * n >= 1000 the rows since the last checkpoint go to rowsIngestedTotal.
   */
  method CountRow(env: Env, ghost base: seq<int>, n: nat, nCheckpoint: nat) returns (n': nat, nCheckpoint': nat)
    requires env.ingestedAdds == base + LoopAdds(AsWritten, n) && nCheckpoint == CheckpointAfter(AsWritten, n)
    modifies env`ingestedAdds
    ensures n' == n + 1
    ensures env.ingestedAdds == base + LoopAdds(AsWritten, n') && nCheckpoint' == CheckpointAfter(AsWritten, n')
  {
    CountOneMore(AsWritten, base, env.ingestedAdds, n, nCheckpoint);
    n', nCheckpoint' := n + 1, nCheckpoint;
    var batchSize := n' - nCheckpoint;
    if n' >= CheckpointRows {
      env.AddRowsIngested(batchSize);
      nCheckpoint' := n';
    }
  }
}

/**
 * The decoded fields of one document and the two in-place edits made to
 * them before the row is built: extractTimestampFromFields clears the value
 * of the time field, and updateMessageFieldName renames the message field to
 * "_msg". Both act on the first field with the wanted name only, and neither
 * changes the number or the order of the fields.
 */
module Fields {
  import opened Wrappers
  import opened Decimal
  import opened Timestamp

  /** logstorage.Field: one (name, value) pair of a decoded document. */
  datatype Field = Field(name: string, value: string)

  /** The canonical name of the message field. */
  const MsgFieldName: string := "_msg"

  /** The index of the first field called name, if any. */
  function FirstIndexOf(fields: seq<Field>, name: string): (r: Option<nat>)
    ensures r.Some? ==> r.value < |fields| && fields[r.value].name == name
    ensures r.Some? ==> forall j :: 0 <= j < r.value ==> fields[j].name != name
    ensures r.None? ==> forall j :: 0 <= j < |fields| ==> fields[j].name != name
  {
    if fields == [] then None
    else if fields[0].name == name then Some(0)
    else
      match FirstIndexOf(fields[1..], name)
      case None => None
      case Some(i) => Some(i + 1)
  }

  /** The timestamp a document yields and its fields afterwards. */
  datatype Extraction = Extraction(timestamp: Result<Int64, TimestampError>, fields: seq<Field>)

  /**
   * What extractTimestampFromFields computes: the first field called
   * timeField is parsed; on success its value (not its name) is cleared. With
   * no such field the time is now and nothing changes; on a parse error
   * nothing changes either.
   */
  function ExtractTimestamp(timeField: string, fields: seq<Field>, now: Int64, rfc3339: string -> Option<Int64>): (x: Extraction)
    ensures |x.fields| == |fields|
    ensures forall j :: 0 <= j < |fields| ==> x.fields[j].name == fields[j].name
    ensures forall j :: 0 <= j < |fields| && x.fields[j] != fields[j] ==>
      FirstIndexOf(fields, timeField) == Some(j) && x.timestamp.Success? && x.fields[j].value == ""
    ensures FirstIndexOf(fields, timeField).None? ==> x.timestamp == Success(now) && x.fields == fields
    ensures x.timestamp.Failure? ==> x.fields == fields
    ensures FirstIndexOf(fields, timeField).Some? ==>
      var i := FirstIndexOf(fields, timeField).value;
      x.timestamp == ParseElasticsearchTimestamp(fields[i].value, rfc3339) &&
      (x.timestamp.Success? ==> x.fields[i] == Field(timeField, ""))
  {
    match FirstIndexOf(fields, timeField)
    case None => Extraction(Success(now), fields)
    case Some(i) =>
      var ts := ParseElasticsearchTimestamp(fields[i].value, rfc3339);
      if ts.Failure? then Extraction(ts, fields)
      else Extraction(ts, fields[i := Field(fields[i].name, "")])
  }

  /**
   * What updateMessageFieldName computes: with a non-empty msgField, the
   * first field of that name is renamed to "_msg"; every value, every other
   * field and the length stay as they were.
   */
  function RenameMessageField(msgField: string, fields: seq<Field>): (r: seq<Field>)
    ensures |r| == |fields|
    ensures forall j :: 0 <= j < |fields| ==> r[j].value == fields[j].value
    ensures msgField == "" || FirstIndexOf(fields, msgField).None? ==> r == fields
    ensures forall j :: 0 <= j < |fields| && r[j] != fields[j] ==>
      msgField != "" && FirstIndexOf(fields, msgField) == Some(j)
    ensures msgField != "" && FirstIndexOf(fields, msgField).Some? ==>
      r[FirstIndexOf(fields, msgField).value] == Field(MsgFieldName, fields[FirstIndexOf(fields, msgField).value].value)
  {
    if msgField == "" then fields
    else
      match FirstIndexOf(fields, msgField)
      case None => fields
      case Some(i) => fields[i := Field(MsgFieldName, fields[i].value)]
  }

  /**
   * extractTimestampFromFields: scans the fields in order and, at the first
   * one called timeField, parses it and clears its value in place.
   */
  method ExtractTimestampFromFields(timeField: string, fields: array<Field>, now: Int64, rfc3339: string -> Option<Int64>)
    returns (timestamp: Result<Int64, TimestampError>)
    modifies fields
    ensures Extraction(timestamp, fields[..]) == ExtractTimestamp(timeField, old(fields[..]), now, rfc3339)
  {
    var i := 0;
    while i < fields.Length
      invariant 0 <= i <= fields.Length
      invariant fields[..] == old(fields[..])
      invariant forall j :: 0 <= j < i ==> fields[j].name != timeField
    {
      if fields[i].name == timeField {
        assert FirstIndexOf(old(fields[..]), timeField) == Some(i);
        timestamp := ParseElasticsearchTimestamp(fields[i].value, rfc3339);
        if timestamp.Failure? {
          return;
        }
        fields[i] := Field(fields[i].name, "");
        return;
      }
      i := i + 1;
    }
    timestamp := Success(now);
  }

  /** updateMessageFieldName: renames, in place, the first field called msgField to "_msg". */
  method UpdateMessageFieldName(msgField: string, fields: array<Field>)
    modifies fields
    ensures fields[..] == RenameMessageField(msgField, old(fields[..]))
  {
    if msgField == "" {
      return;
    }
    var i := 0;
    while i < fields.Length
      invariant 0 <= i <= fields.Length
      invariant fields[..] == old(fields[..])
      invariant forall j :: 0 <= j < i ==> fields[j].name != msgField
    {
      if fields[i].name == msgField {
        assert FirstIndexOf(old(fields[..]), msgField) == Some(i);
        fields[i] := Field(MsgFieldName, fields[i].value);
        return;
      }
      i := i + 1;
    }
  }

  /**
   * A second field with the same name as the message field keeps its name:
   * only the first one is renamed.
   */
  lemma RenameLeavesLaterDuplicates(msgField: string, fields: seq<Field>, i: nat, j: nat)
    requires i < j < |fields| && fields[i].name == msgField && fields[j].name == msgField
    ensures RenameMessageField(msgField, fields)[j] == fields[j]
  {
    var k := FirstIndexOf(fields, msgField);
    assert k.Some? && k.value <= i;
  }

  /** Likewise, a later field with the time field's name keeps its value. */
  lemma ExtractLeavesLaterDuplicates(timeField: string, fields: seq<Field>, now: Int64, rfc3339: string -> Option<Int64>, i: nat, j: nat)
    requires i < j < |fields| && fields[i].name == timeField && fields[j].name == timeField
    ensures ExtractTimestamp(timeField, fields, now, rfc3339).fields[j] == fields[j]
  {
    var k := FirstIndexOf(fields, timeField);
    assert k.Some? && k.value <= i;
  }
}

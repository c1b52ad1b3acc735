/**
 * Writable metadata of the HBase sink: system values, such as the write
 * timestamp, that a row carries in slots past its physical columns.
 */
module WritableMetadata {
  import opened Wrappers

  /** The Flink data types a writable metadata key may have; only the one in use is modelled. */
  datatype DataType = TimestampLtz(precision: nat, nullable: bool)

  /** The key and type under which the write timestamp is registered. */
  const TimestampKey: string := "timestamp"
  const TimestampDataType: DataType := TimestampLtz(3, true)

  /** HBase's LATEST_TIMESTAMP (Long.MAX_VALUE): the region server stamps the cell itself. */
  const LatestTimestamp: int := 0x7FFF_FFFF_FFFF_FFFF

  /** The registry of metadata keys the sink can write, with their data types. */
  function List(): (m: map<string, DataType>)
    ensures m.Keys == {TimestampKey}
    ensures m[TimestampKey].precision == 3 && m[TimestampKey].nullable
  {
    map[TimestampKey := TimestampDataType]
  }

  /** Flink's TimestampData: milliseconds since the epoch plus the nanoseconds within that millisecond. */
  datatype TimestampData = TimestampData(millisecond: int, nanoOfMillisecond: int)

  /** One slot of the row handed to the sink, as far as the metadata reader looks at it. */
  datatype Field = NullField | TimestampField(ts: TimestampData) | OtherField

  datatype MetadataError = IllegalArgument(message: string)

  const NullTimestampMessage: string := "Writable metadata '" + TimestampKey + "' can not accept null value"

  /** The accessor for the write timestamp: a row position, or -1 when the key is not declared. */
  datatype TimestampMetadata = TimestampMetadata(pos: int)

  /** Java's List.indexOf: the first position of `k` in `keys`, or -1. */
  function IndexOf(keys: seq<string>, k: string): (i: int)
    ensures -1 <= i < |keys|
    ensures i == -1 <==> k !in keys
    ensures i >= 0 ==> keys[i] == k && forall j :: 0 <= j < i ==> keys[j] != k
  {
    if keys == [] then -1
    else if keys[0] == k then 0
    else
      var i := IndexOf(keys[1..], k);
      if i < 0 then -1 else i + 1
  }

  /**
   * Resolves the write-timestamp accessor from the declared metadata keys and
   * the number of fields of the physical row type: metadata columns follow the
   * physical ones in declaration order.
   */
  function Of(metadataKeys: seq<string>, physicalFieldCount: nat): (m: TimestampMetadata)
    ensures m.pos == -1 <==> TimestampKey !in metadataKeys
    ensures m.pos != -1 ==>
      physicalFieldCount <= m.pos < physicalFieldCount + |metadataKeys| &&
      metadataKeys[m.pos - physicalFieldCount] == TimestampKey &&
      forall j :: 0 <= j < m.pos - physicalFieldCount ==> metadataKeys[j] != TimestampKey
  {
    var pos := IndexOf(metadataKeys, TimestampKey);
    if pos < 0 then TimestampMetadata(-1)
    else TimestampMetadata(pos + physicalFieldCount)
  }

  /**
   * The write timestamp of `row`: LATEST_TIMESTAMP when the key is not
   * declared, an error when the declared slot is null, otherwise the slot's
   * millisecond value.  The row is the sink's row type, so a declared position
   * is in range and holds a TIMESTAMP_LTZ(3).
   */
  function Read(m: TimestampMetadata, row: seq<Field>): (r: Result<int, MetadataError>)
    requires m.pos >= 0 ==> m.pos < |row| && !row[m.pos].OtherField?
    ensures m.pos < 0 ==> r == Ok(LatestTimestamp)
    ensures m.pos >= 0 ==> (r.Err? <==> row[m.pos].NullField?)
    ensures r.Err? ==> r.error == IllegalArgument(NullTimestampMessage)
    ensures m.pos >= 0 && r.Ok? ==> r.value == row[m.pos].ts.millisecond
  {
    if m.pos < 0 then Ok(LatestTimestamp)
    else if row[m.pos].NullField? then Err(IllegalArgument(NullTimestampMessage))
    else Ok(row[m.pos].ts.millisecond)
  }

  /** An undeclared timestamp never looks at the row. */
  lemma ReadUndeclaredIgnoresRow(metadataKeys: seq<string>, physicalFieldCount: nat, row1: seq<Field>, row2: seq<Field>)
    requires TimestampKey !in metadataKeys
    ensures Read(Of(metadataKeys, physicalFieldCount), row1) == Read(Of(metadataKeys, physicalFieldCount), row2) == Ok(LatestTimestamp)
  {
  }

  /** `t` occurs in `s` starting at position `i`. */
  predicate OccursAt(s: string, t: string, i: nat)
  {
    i + |t| <= |s| && s[i..i + |t|] == t
  }

  /** The null-slot error names the metadata key. */
  lemma NullTimestampMessageNamesKey()
    ensures exists i :: OccursAt(NullTimestampMessage, TimestampKey, i)
  {
    assert OccursAt(NullTimestampMessage, TimestampKey, 19);
  }

  /**
   * The accessor resolved against a physical row type reads only the metadata
   * slots: reading `physical + metadata` gives what reading `metadata` alone
   * with no physical fields gives, whatever the physical fields hold.
   */
  lemma ReadSkipsPhysicalFields(metadataKeys: seq<string>, physical: seq<Field>, metadata: seq<Field>)
    requires |metadata| == |metadataKeys|
    requires forall i :: 0 <= i < |metadata| && metadataKeys[i] == TimestampKey ==> !metadata[i].OtherField?
    ensures Read(Of(metadataKeys, |physical|), physical + metadata) == Read(Of(metadataKeys, 0), metadata)
  {
    var m := Of(metadataKeys, |physical|);
    if m.pos >= 0 {
      assert (physical + metadata)[m.pos] == metadata[m.pos - |physical|];
    }
  }

  /** A declared, non-null timestamp is read back as its millisecond value. */
  lemma ReadDeclaredTimestamp(metadataKeys: seq<string>, physical: seq<Field>, metadata: seq<Field>, ts: TimestampData)
    requires |metadata| == |metadataKeys|
    requires forall i :: 0 <= i < |metadata| && metadataKeys[i] == TimestampKey ==> metadata[i] == TimestampField(ts)
    requires TimestampKey in metadataKeys
    ensures Read(Of(metadataKeys, |physical|), physical + metadata) == Ok(ts.millisecond)
  {
    var m := Of(metadataKeys, |physical|);
    assert (physical + metadata)[m.pos] == metadata[m.pos - |physical|];
  }
}

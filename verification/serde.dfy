/**
 * The HBase row codec: decoding the cells of one HBase row into a row record
 * laid out by the table schema, and encoding a row record into a Put.
 */
module Serde {
  import opened Wrappers
  import opened Types
  import opened Schema

  /** How a serde is configured: the table schema, the null-string literal and the write null policy. */
  datatype SerdeConfig = SerdeConfig(schema: TableSchema, nullStringLiteral: Bytes, writeIgnoreNullValue: bool)

  // ---------------------------------------------------------------------------
  // Field codec: one nullable column value to and from the bytes of one cell.
  // ---------------------------------------------------------------------------

  /**
   * The bytes written for one slot.  A null STRING is written as the
   * null-string literal and a null of any other type as an empty value.
   */
  function EncodeField(t: LogicalType, nullStringLiteral: Bytes, v: Option<Value>): (b: Bytes)
    ensures v.Some? && TypeOf(v.value) == t && t != StringType ==> |b| == FixedWidth(t).value
    ensures v.None? && t != StringType ==> b == []
  {
    match v
    case None => if t == StringType then nullStringLiteral else []
    case Some(x) => Encode(x)
  }

  /**
   * The slot read from a cell value: null when the cell is absent, when a
   * STRING cell holds the null-string literal, or when a cell of any other
   * type is empty; otherwise the decoded value.
   */
  function DecodeField(t: LogicalType, nullStringLiteral: Bytes, b: Option<Bytes>): (r: Result<Option<Value>, DecodeError>)
    ensures b.None? ==> r == Ok(None)
    ensures b.Some? && t == StringType && b.value == nullStringLiteral ==> r == Ok(None)
    ensures b.Some? && t != StringType && |b.value| == 0 ==> r == Ok(None)
    ensures r.Err? <==> b.Some? && 0 < |b.value| && !Readable(t, |b.value|)
    ensures r.Err? ==> r == Err(MalformedValue(FixedWidth(t).value, |b.value|))
    ensures r.Ok? ==> Typed(t, r.value)
  {
    match b
    case None => Ok(None)
    case Some(bytes) =>
      if t == StringType then
        if bytes == nullStringLiteral then Ok(None) else Ok(Some(StringValue(bytes)))
      else if |bytes| == 0 then Ok(None)
      else
        match Decode(t, bytes)
        case Ok(x) => Ok(Some(x))
        case Err(e) => Err(e)
  }

  /** A STRING slot equal to the null-string literal. */
  predicate IsNullLiteral(nullStringLiteral: Bytes, v: Option<Value>)
  {
    v.Some? && v.value.StringValue? && v.value.utf8 == nullStringLiteral
  }

  /** Every slot, null or not, reads back as written, unless it is a STRING equal to the null-string literal. */
  lemma DecodeEncodeField(t: LogicalType, nullStringLiteral: Bytes, v: Option<Value>)
    requires Typed(t, v) && !IsNullLiteral(nullStringLiteral, v)
    ensures DecodeField(t, nullStringLiteral, Some(EncodeField(t, nullStringLiteral, v))) == Ok(v)
  {
    if v.Some? {
      DecodeEncode(v.value);
    }
  }

  /** A STRING equal to the null-string literal is written like a null and reads back as null. */
  lemma NullLiteralReadsAsNull(nullStringLiteral: Bytes)
    ensures EncodeField(StringType, nullStringLiteral, Some(StringValue(nullStringLiteral)))
         == EncodeField(StringType, nullStringLiteral, None)
    ensures DecodeField(StringType, nullStringLiteral,
                        Some(EncodeField(StringType, nullStringLiteral, Some(StringValue(nullStringLiteral))))) == Ok(None)
  {
  }

  // ---------------------------------------------------------------------------
  // Cells of one HBase row, as a scan Result hands them over.
  // ---------------------------------------------------------------------------

  /** One cell: its row identifier, family, qualifier and value; family and qualifier bytes are the names' bytes. */
  datatype Cell = Cell(row: Bytes, family: string, qualifier: string, value: Bytes)

  /** Result.getRow: the row identifier of the cells, none when there are no cells. */
  function GetRow(cells: seq<Cell>): Option<Bytes>
  {
    if cells == [] then None else Some(cells[0].row)
  }

  predicate Matches(c: Cell, family: string, qualifier: string)
  {
    c.family == family && c.qualifier == qualifier
  }

  /** Result.getValue: the value of the first cell with this family and qualifier, none when there is none. */
  function GetValue(cells: seq<Cell>, family: string, qualifier: string): (r: Option<Bytes>)
    ensures r.None? <==> forall i :: 0 <= i < |cells| ==> !Matches(cells[i], family, qualifier)
    ensures r.Some? ==>
      exists i :: 0 <= i < |cells| && Matches(cells[i], family, qualifier) && cells[i].value == r.value &&
                  forall j :: 0 <= j < i ==> !Matches(cells[j], family, qualifier)
  {
    if cells == [] then None
    else if Matches(cells[0], family, qualifier) then Some(cells[0].value)
    else
      var r := GetValue(cells[1..], family, qualifier);
      assert forall i :: 1 <= i < |cells| ==> cells[i] == cells[1..][i - 1];
      r
  }

  // ---------------------------------------------------------------------------
  // Decoding: cells to a row record.
  // ---------------------------------------------------------------------------

  /** The slot of `column` in `family` read from the cells. */
  function DecodeCell(family: string, column: Column, nullStringLiteral: Bytes, cells: seq<Cell>): Result<Option<Value>, DecodeError>
  {
    DecodeField(column.typ, nullStringLiteral, GetValue(cells, family, column.name))
  }

  /**
   * The group of one family: one slot per qualifier in schema order.  The
   * first qualifier whose cell is malformed fails the whole group.
   */
  function DecodeColumns(family: string, columns: seq<Column>, nullStringLiteral: Bytes, cells: seq<Cell>)
    : (r: Result<seq<Option<Value>>, DecodeError>)
    ensures r.Ok? ==> |r.value| == |columns|
  {
    if columns == [] then Ok([])
    else
      match DecodeCell(family, columns[0], nullStringLiteral, cells)
      case Err(e) => Err(e)
      case Ok(v) =>
        match DecodeColumns(family, columns[1..], nullStringLiteral, cells)
        case Err(e) => Err(e)
        case Ok(vs) => Ok([v] + vs)
  }

  /**
   * A family's group succeeds exactly when every qualifier's cell decodes,
   * then holds each qualifier's slot at the qualifier's position; otherwise
   * it fails with the error of the first qualifier that fails.
   */
  lemma {:induction false} DecodeColumnsCells(family: string, columns: seq<Column>, nullStringLiteral: Bytes, cells: seq<Cell>)
    ensures var r := DecodeColumns(family, columns, nullStringLiteral, cells);
      (r.Ok? <==> forall q :: 0 <= q < |columns| ==> DecodeCell(family, columns[q], nullStringLiteral, cells).Ok?) &&
      (r.Ok? ==> forall q :: 0 <= q < |columns| ==> r.value[q] == DecodeCell(family, columns[q], nullStringLiteral, cells).value) &&
      (r.Err? ==> exists q :: 0 <= q < |columns| && DecodeCell(family, columns[q], nullStringLiteral, cells) == Err(r.error) &&
                   forall p :: 0 <= p < q ==> DecodeCell(family, columns[p], nullStringLiteral, cells).Ok?)
  {
    if columns != [] {
      var tail := columns[1..];
      DecodeColumnsCells(family, tail, nullStringLiteral, cells);
      assert forall q :: 1 <= q < |columns| ==> columns[q] == tail[q - 1];
      var r := DecodeColumns(family, columns, nullStringLiteral, cells);
      var rest := DecodeColumns(family, tail, nullStringLiteral, cells);
      if DecodeCell(family, columns[0], nullStringLiteral, cells).Ok? && rest.Err? {
        var q :| 0 <= q < |tail| && DecodeCell(family, tail[q], nullStringLiteral, cells) == Err(rest.error) &&
                 forall p :: 0 <= p < q ==> DecodeCell(family, tail[p], nullStringLiteral, cells).Ok?;
        assert DecodeCell(family, columns[q + 1], nullStringLiteral, cells) == Err(r.error);
        assert forall p :: 0 <= p < q + 1 ==> DecodeCell(family, columns[p], nullStringLiteral, cells).Ok? by {
          forall p | 0 <= p < q + 1 ensures DecodeCell(family, columns[p], nullStringLiteral, cells).Ok? {
            if p > 0 { assert DecodeCell(family, tail[p - 1], nullStringLiteral, cells).Ok?; }
          }
        }
      }
    }
  }

  /** The groups of all families in schema order; the first malformed family fails them all. */
  function DecodeGroups(families: seq<Family>, nullStringLiteral: Bytes, cells: seq<Cell>)
    : (r: Result<seq<seq<Option<Value>>>, DecodeError>)
    ensures r.Ok? ==> |r.value| == |families|
  {
    if families == [] then Ok([])
    else
      match DecodeColumns(families[0].name, families[0].columns, nullStringLiteral, cells)
      case Err(e) => Err(e)
      case Ok(g) =>
        match DecodeGroups(families[1..], nullStringLiteral, cells)
        case Err(e) => Err(e)
        case Ok(gs) => Ok([g] + gs)
  }

  /** The group of family `f` as decoded on its own. */
  function FamilyGroup(families: seq<Family>, f: nat, nullStringLiteral: Bytes, cells: seq<Cell>)
    : Result<seq<Option<Value>>, DecodeError>
    requires f < |families|
  {
    DecodeColumns(families[f].name, families[f].columns, nullStringLiteral, cells)
  }

  /**
   * The groups succeed exactly when every family's group does, then hold those
   * groups in order; otherwise they fail with the error of the first family
   * that fails.
   */
  lemma {:induction false} DecodeGroupsFamilies(families: seq<Family>, nullStringLiteral: Bytes, cells: seq<Cell>)
    ensures var r := DecodeGroups(families, nullStringLiteral, cells);
      (r.Ok? <==> forall f :: 0 <= f < |families| ==> FamilyGroup(families, f, nullStringLiteral, cells).Ok?) &&
      (r.Ok? ==> forall f :: 0 <= f < |families| ==> r.value[f] == FamilyGroup(families, f, nullStringLiteral, cells).value) &&
      (r.Err? ==> exists f :: 0 <= f < |families| && FamilyGroup(families, f, nullStringLiteral, cells) == Err(r.error) &&
                   forall g :: 0 <= g < f ==> FamilyGroup(families, g, nullStringLiteral, cells).Ok?)
  {
    if families != [] {
      var tail := families[1..];
      DecodeGroupsFamilies(tail, nullStringLiteral, cells);
      forall f | 1 <= f < |families|
        ensures FamilyGroup(families, f, nullStringLiteral, cells) == FamilyGroup(tail, f - 1, nullStringLiteral, cells)
      {
        assert families[f] == tail[f - 1];
      }
      var r := DecodeGroups(families, nullStringLiteral, cells);
      var rest := DecodeGroups(tail, nullStringLiteral, cells);
      if FamilyGroup(families, 0, nullStringLiteral, cells).Ok? && rest.Err? {
        var f :| 0 <= f < |tail| && FamilyGroup(tail, f, nullStringLiteral, cells) == Err(rest.error) &&
                 forall g :: 0 <= g < f ==> FamilyGroup(tail, g, nullStringLiteral, cells).Ok?;
        assert FamilyGroup(families, f + 1, nullStringLiteral, cells) == Err(r.error);
        assert forall g :: 0 <= g < f + 1 ==> FamilyGroup(families, g, nullStringLiteral, cells).Ok? by {
          forall g | 0 <= g < f + 1 ensures FamilyGroup(families, g, nullStringLiteral, cells).Ok? {
            if g > 0 { assert FamilyGroup(tail, g - 1, nullStringLiteral, cells).Ok?; }
          }
        }
      }
    }
  }

  /**
   * Decoding one HBase row (convertToNewRow / convertToReusedRow): the row key
   * from the row identifier, then every qualifier of every family looked up
   * by name and placed at its position in its family's group.
   */
  function DecodeRow(config: SerdeConfig, cells: seq<Cell>): (r: Result<Row, DecodeError>)
    ensures cells == [] ==> r == Err(MissingRowKey)
    ensures r.Ok? ==> r.value.key.Some? && Conforms(config.schema, r.value)
  {
    DecodeGroupsSlots(config, cells);
    match KeyOf(config, cells)
    case Err(e) => Err(e)
    case Ok(key) =>
      match DecodeGroups(config.schema.families, config.nullStringLiteral, cells)
      case Err(e) => Err(e)
      case Ok(groups) => Ok(Row(Some(key), groups))
  }

  /** The slot of qualifier `q` of family `f` of the schema, read from the cells. */
  function SlotOf(config: SerdeConfig, f: nat, q: nat, cells: seq<Cell>): Result<Option<Value>, DecodeError>
    requires f < |config.schema.families| && q < |config.schema.families[f].columns|
  {
    DecodeCell(config.schema.families[f].name, config.schema.families[f].columns[q], config.nullStringLiteral, cells)
  }

  /**
   * The row key read from the cells' row identifier.  The key is never null:
   * it has no null-string literal and no empty-value rule, and a result with
   * no cells has no row identifier to read.
   */
  function KeyOf(config: SerdeConfig, cells: seq<Cell>): Result<Value, DecodeError>
  {
    match GetRow(cells)
    case None => Err(MissingRowKey)
    case Some(b) => Decode(config.schema.rowKeyType, b)
  }

  /**
   * The groups of the schema's families succeed exactly when every declared
   * cell decodes, and then hold each cell's slot at its qualifier's position.
   */
  lemma DecodeGroupsSlots(config: SerdeConfig, cells: seq<Cell>)
    ensures var r := DecodeGroups(config.schema.families, config.nullStringLiteral, cells);
      var fs := config.schema.families;
      (r.Ok? <==> forall f, q :: 0 <= f < |fs| && 0 <= q < |fs[f].columns| ==> SlotOf(config, f, q, cells).Ok?) &&
      (r.Ok? ==> Shaped(config.schema, r.value)) &&
      (r.Ok? ==> forall f, q :: 0 <= f < |fs| && 0 <= q < |fs[f].columns| ==> r.value[f][q] == SlotOf(config, f, q, cells).value)
  {
    var fs := config.schema.families;
    var lit := config.nullStringLiteral;
    DecodeGroupsFamilies(fs, lit, cells);
    forall f | 0 <= f < |fs|
      ensures FamilyGroup(fs, f, lit, cells).Ok? <==> forall q :: 0 <= q < |fs[f].columns| ==> SlotOf(config, f, q, cells).Ok?
      ensures FamilyGroup(fs, f, lit, cells).Ok? ==> |FamilyGroup(fs, f, lit, cells).value| == |fs[f].columns|
      ensures FamilyGroup(fs, f, lit, cells).Ok? ==>
        forall q :: 0 <= q < |fs[f].columns| ==> FamilyGroup(fs, f, lit, cells).value[q] == SlotOf(config, f, q, cells).value
    {
      DecodeColumnsCells(fs[f].name, fs[f].columns, lit, cells);
      assert forall q :: 0 <= q < |fs[f].columns| ==>
        SlotOf(config, f, q, cells) == DecodeCell(fs[f].name, fs[f].columns[q], lit, cells);
    }
  }

  /**
   * A row decodes exactly when its key and every declared cell decode; then
   * its key and every slot are what their cells decode to, and the row has
   * the schema's layout with every slot of its column's type.
   */
  lemma DecodeRowCells(config: SerdeConfig, cells: seq<Cell>)
    ensures var r := DecodeRow(config, cells);
      var fs := config.schema.families;
      (r.Ok? <==> KeyOf(config, cells).Ok? &&
                  forall f, q :: 0 <= f < |fs| && 0 <= q < |fs[f].columns| ==> SlotOf(config, f, q, cells).Ok?) &&
      (r.Ok? ==> Conforms(config.schema, r.value)) &&
      (r.Ok? ==> r.value.key == Some(KeyOf(config, cells).value) &&
                 forall f, q :: 0 <= f < |fs| && 0 <= q < |fs[f].columns| ==> r.value.groups[f][q] == SlotOf(config, f, q, cells).value)
  {
    DecodeGroupsSlots(config, cells);
  }

  // ---------------------------------------------------------------------------
  // Encoding: a row record to a Put.
  // ---------------------------------------------------------------------------

  datatype PutEntry = PutEntry(family: string, qualifier: string, timestamp: int, value: Bytes)

  /** A Put: the row identifier and the cells to write, in the order they were added. */
  datatype Put = Put(row: Bytes, entries: seq<PutEntry>)

  /** The values of the entries for one family and qualifier, in order. */
  function EntriesGet(entries: seq<PutEntry>, family: string, qualifier: string): (vs: seq<Bytes>)
    ensures |vs| <= |entries|
  {
    if entries == [] then []
    else
      (if entries[0].family == family && entries[0].qualifier == qualifier then [entries[0].value] else []) +
      EntriesGet(entries[1..], family, qualifier)
  }

  /** The values for a family and qualifier are empty exactly when no entry has both, and each comes from such an entry. */
  lemma {:induction false} EntriesGetMembers(entries: seq<PutEntry>, family: string, qualifier: string)
    ensures EntriesGet(entries, family, qualifier) == [] <==>
      forall i :: 0 <= i < |entries| ==> entries[i].family != family || entries[i].qualifier != qualifier
    ensures forall v :: v in EntriesGet(entries, family, qualifier) ==>
      exists i :: 0 <= i < |entries| && entries[i].family == family && entries[i].qualifier == qualifier && entries[i].value == v
  {
    if entries != [] {
      assert forall i :: 1 <= i < |entries| ==> entries[i] == entries[1..][i - 1];
      EntriesGetMembers(entries[1..], family, qualifier);
    }
  }

  /** Put.get: the values the Put holds for one family and qualifier. */
  function PutGet(p: Put, family: string, qualifier: string): (vs: seq<Bytes>)
    ensures vs == [] <==> forall e :: e in p.entries ==> e.family != family || e.qualifier != qualifier
    ensures forall v :: v in vs ==> exists e :: e in p.entries && e.family == family && e.qualifier == qualifier && e.value == v
  {
    EntriesGetMembers(p.entries, family, qualifier);
    EntriesGet(p.entries, family, qualifier)
  }

  /**
   * The entries for one family: a column whose slot is null is skipped when
   * the serde ignores null values, and written as its null encoding otherwise.
   */
  function EncodeColumns(family: string, columns: seq<Column>, group: seq<Option<Value>>,
                         nullStringLiteral: Bytes, writeIgnoreNullValue: bool, timestamp: int): (es: seq<PutEntry>)
    requires |group| == |columns|
    ensures forall e :: e in es ==> e.family == family && e.timestamp == timestamp
    ensures |es| <= |columns|
    ensures !writeIgnoreNullValue ==> |es| == |columns|
  {
    if columns == [] then []
    else
      (if writeIgnoreNullValue && group[0].None? then []
       else [PutEntry(family, columns[0].name, timestamp, EncodeField(columns[0].typ, nullStringLiteral, group[0]))]) +
      EncodeColumns(family, columns[1..], group[1..], nullStringLiteral, writeIgnoreNullValue, timestamp)
  }

  /** The entries for all families, in schema order. */
  function EncodeGroups(families: seq<Family>, groups: seq<seq<Option<Value>>>,
                        nullStringLiteral: Bytes, writeIgnoreNullValue: bool, timestamp: int): (es: seq<PutEntry>)
    requires |groups| == |families|
    requires forall f :: 0 <= f < |families| ==> |groups[f]| == |families[f].columns|
    ensures forall e :: e in es ==> e.timestamp == timestamp
  {
    if families == [] then []
    else
      EncodeColumns(families[0].name, families[0].columns, groups[0], nullStringLiteral, writeIgnoreNullValue, timestamp) +
      EncodeGroups(families[1..], groups[1..], nullStringLiteral, writeIgnoreNullValue, timestamp)
  }

  /**
   * createPutMutation: the Put for `row`, every cell stamped with `timestamp`,
   * or none when the row key encodes to no bytes (such a record is dropped).
   * The row key is written with the non-nullable codec: a null key is a
   * caller error, and only an empty STRING key encodes to no bytes.
   */
  function CreatePutMutation(config: SerdeConfig, row: Row, timestamp: int): (p: Option<Put>)
    requires Conforms(config.schema, row)
    requires row.key.Some?
    ensures p.None? <==> row.key.value == StringValue([])
    ensures p.Some? ==> p.value.row == Encode(row.key.value)
    ensures p.Some? ==> forall e :: e in p.value.entries ==> e.timestamp == timestamp
  {
    var s := config.schema;
    var rowKey := Encode(row.key.value);
    if |rowKey| == 0 then None
    else Some(Put(rowKey, EncodeGroups(s.families, row.groups, config.nullStringLiteral, config.writeIgnoreNullValue, timestamp)))
  }

  /** The cells a Put writes, as a later read of that row sees them. */
  function CellsOf(p: Put): seq<Cell>
  {
    seq(|p.entries|, i requires 0 <= i < |p.entries| =>
      Cell(p.row, p.entries[i].family, p.entries[i].qualifier, p.entries[i].value))
  }

  // ---------------------------------------------------------------------------
  // What a Put holds for each column.
  // ---------------------------------------------------------------------------

  lemma {:induction false} EntriesGetAppend(es1: seq<PutEntry>, es2: seq<PutEntry>, family: string, qualifier: string)
    ensures EntriesGet(es1 + es2, family, qualifier) == EntriesGet(es1, family, qualifier) + EntriesGet(es2, family, qualifier)
  {
    if es1 != [] {
      var head := if es1[0].family == family && es1[0].qualifier == qualifier then [es1[0].value] else [];
      assert (es1 + es2)[0] == es1[0];
      assert (es1 + es2)[1..] == es1[1..] + es2;
      EntriesGetAppend(es1[1..], es2, family, qualifier);
      calc {
        EntriesGet(es1 + es2, family, qualifier);
        head + EntriesGet(es1[1..] + es2, family, qualifier);
        head + (EntriesGet(es1[1..], family, qualifier) + EntriesGet(es2, family, qualifier));
        (head + EntriesGet(es1[1..], family, qualifier)) + EntriesGet(es2, family, qualifier);
      }
    } else {
      assert es1 + es2 == es2;
    }
  }

  /** What the Put holds for a declared column: nothing when the slot is null and nulls are ignored, else its encoding. */
  function ColumnWrite(t: LogicalType, nullStringLiteral: Bytes, writeIgnoreNullValue: bool, v: Option<Value>): seq<Bytes>
  {
    if writeIgnoreNullValue && v.None? then [] else [EncodeField(t, nullStringLiteral, v)]
  }

  /** The entries of one family hold, for each of its qualifiers, exactly that qualifier's write, and nothing else. */
  lemma {:induction false} EncodeColumnsGet(family: string, columns: seq<Column>, group: seq<Option<Value>>,
                                            nullStringLiteral: Bytes, writeIgnoreNullValue: bool, timestamp: int,
                                            f: string, q: string)
    requires |group| == |columns|
    requires DistinctColumns(columns)
    ensures f != family ==>
      EntriesGet(EncodeColumns(family, columns, group, nullStringLiteral, writeIgnoreNullValue, timestamp), f, q) == []
    ensures (forall i :: 0 <= i < |columns| ==> columns[i].name != q) ==>
      EntriesGet(EncodeColumns(family, columns, group, nullStringLiteral, writeIgnoreNullValue, timestamp), f, q) == []
    ensures forall i :: 0 <= i < |columns| && f == family && columns[i].name == q ==>
      EntriesGet(EncodeColumns(family, columns, group, nullStringLiteral, writeIgnoreNullValue, timestamp), f, q)
        == ColumnWrite(columns[i].typ, nullStringLiteral, writeIgnoreNullValue, group[i])
  {
    if columns != [] {
      var cs, gs := columns[1..], group[1..];
      var head := if writeIgnoreNullValue && group[0].None? then []
                  else [PutEntry(family, columns[0].name, timestamp, EncodeField(columns[0].typ, nullStringLiteral, group[0]))];
      var tail := EncodeColumns(family, cs, gs, nullStringLiteral, writeIgnoreNullValue, timestamp);
      assert EncodeColumns(family, columns, group, nullStringLiteral, writeIgnoreNullValue, timestamp) == head + tail;
      EntriesGetAppend(head, tail, f, q);
      assert EntriesGet(head, f, q) ==
        if f == family && columns[0].name == q then ColumnWrite(columns[0].typ, nullStringLiteral, writeIgnoreNullValue, group[0])
        else [];
      forall i | 1 <= i < |columns| ensures columns[i] == cs[i - 1] && group[i] == gs[i - 1] {
      }
      assert DistinctColumns(cs);
      EncodeColumnsGet(family, cs, gs, nullStringLiteral, writeIgnoreNullValue, timestamp, f, q);
      if f == family && columns[0].name == q {
        assert forall i :: 0 <= i < |cs| ==> cs[i].name != q;
      }
    }
  }

  /** The entries of all families hold, for each declared column, exactly that column's write, and nothing for any other column. */
  lemma {:induction false} EncodeGroupsGet(families: seq<Family>, groups: seq<seq<Option<Value>>>,
                                           nullStringLiteral: Bytes, writeIgnoreNullValue: bool, timestamp: int,
                                           f: string, q: string)
    requires |groups| == |families|
    requires forall i :: 0 <= i < |families| ==> |groups[i]| == |families[i].columns|
    requires DistinctNames(families)
    ensures var vs := EntriesGet(EncodeGroups(families, groups, nullStringLiteral, writeIgnoreNullValue, timestamp), f, q);
      ((forall i, j :: 0 <= i < |families| && 0 <= j < |families[i].columns| ==>
          families[i].name != f || families[i].columns[j].name != q) ==> vs == []) &&
      (forall i, j :: (0 <= i < |families| && 0 <= j < |families[i].columns| &&
                       families[i].name == f && families[i].columns[j].name == q) ==>
         vs == ColumnWrite(families[i].columns[j].typ, nullStringLiteral, writeIgnoreNullValue, groups[i][j]))
  {
    if families != [] {
      var head := EncodeColumns(families[0].name, families[0].columns, groups[0], nullStringLiteral, writeIgnoreNullValue, timestamp);
      var tail := EncodeGroups(families[1..], groups[1..], nullStringLiteral, writeIgnoreNullValue, timestamp);
      EntriesGetAppend(head, tail, f, q);
      EncodeColumnsGet(families[0].name, families[0].columns, groups[0], nullStringLiteral, writeIgnoreNullValue, timestamp, f, q);
      forall i | 1 <= i < |families| ensures families[i] == families[1..][i - 1] && groups[i] == groups[1..][i - 1] {
      }
      assert DistinctNames(families[1..]);
      EncodeGroupsGet(families[1..], groups[1..], nullStringLiteral, writeIgnoreNullValue, timestamp, f, q);
      if f == families[0].name {
        // No later family shares the first family's name, so the tail holds nothing for `f`.
        assert EntriesGet(tail, f, q) == [];
      }
    }
  }

  /**
   * Put.get on the Put of a conforming row: for every declared column the
   * Put holds one entry with the slot's encoding, except that a null slot has
   * none when the serde ignores null values; it holds nothing for any
   * undeclared family or qualifier.
   */
  lemma PutGetColumns(config: SerdeConfig, row: Row, timestamp: int, f: string, q: string)
    requires WellFormed(config.schema) && Conforms(config.schema, row) && row.key.Some?
    requires CreatePutMutation(config, row, timestamp).Some?
    ensures var p := CreatePutMutation(config, row, timestamp).value;
      var fs := config.schema.families;
      ((forall i, j :: 0 <= i < |fs| && 0 <= j < |fs[i].columns| ==> fs[i].name != f || fs[i].columns[j].name != q) ==>
         PutGet(p, f, q) == []) &&
      (forall i, j :: 0 <= i < |fs| && 0 <= j < |fs[i].columns| && fs[i].name == f && fs[i].columns[j].name == q ==>
         PutGet(p, f, q) == ColumnWrite(fs[i].columns[j].typ, config.nullStringLiteral, config.writeIgnoreNullValue, row.groups[i][j]))
  {
    EncodeGroupsGet(config.schema.families, row.groups, config.nullStringLiteral, config.writeIgnoreNullValue, timestamp, f, q);
  }

  /** With writeIgnoreNullValue off, the Put has an entry for every declared column, null slots included. */
  lemma PutWritesNullColumns(config: SerdeConfig, row: Row, timestamp: int, i: nat, j: nat)
    requires WellFormed(config.schema) && Conforms(config.schema, row) && row.key.Some?
    requires !config.writeIgnoreNullValue
    requires CreatePutMutation(config, row, timestamp).Some?
    requires i < |config.schema.families| && j < |config.schema.families[i].columns|
    ensures |PutGet(CreatePutMutation(config, row, timestamp).value,
                    config.schema.families[i].name, config.schema.families[i].columns[j].name)| == 1
  {
    PutGetColumns(config, row, timestamp, config.schema.families[i].name, config.schema.families[i].columns[j].name);
  }

  /** With writeIgnoreNullValue on, the Put has an entry for a declared column exactly when its slot is not null. */
  lemma PutSkipsNullColumns(config: SerdeConfig, row: Row, timestamp: int, i: nat, j: nat)
    requires WellFormed(config.schema) && Conforms(config.schema, row) && row.key.Some?
    requires config.writeIgnoreNullValue
    requires CreatePutMutation(config, row, timestamp).Some?
    requires i < |config.schema.families| && j < |config.schema.families[i].columns|
    ensures var vs := PutGet(CreatePutMutation(config, row, timestamp).value,
                             config.schema.families[i].name, config.schema.families[i].columns[j].name);
      (|vs| > 0 <==> row.groups[i][j].Some?) && |vs| <= 1
  {
    PutGetColumns(config, row, timestamp, config.schema.families[i].name, config.schema.families[i].columns[j].name);
  }

  /** A row whose key is not null and of a fixed-width type always yields a Put, with a non-empty row identifier. */
  lemma PutRowFromNonNullKey(config: SerdeConfig, row: Row, timestamp: int)
    requires Conforms(config.schema, row)
    requires row.key.Some? && config.schema.rowKeyType != StringType
    ensures CreatePutMutation(config, row, timestamp).Some?
    ensures |CreatePutMutation(config, row, timestamp).value.row| == FixedWidth(config.schema.rowKeyType).value > 0
  {
  }

  // ---------------------------------------------------------------------------
  // Round trip: reading back what a Put wrote.
  // ---------------------------------------------------------------------------

  /** Result.getValue over the cells a Put writes is the first value Put.get holds. */
  lemma {:induction false} GetValueOfPut(p: Put, f: string, q: string)
    decreases |p.entries|
    ensures var vs := EntriesGet(p.entries, f, q);
      GetValue(CellsOf(p), f, q) == if vs == [] then None else Some(vs[0])
  {
    if p.entries != [] {
      var rest := Put(p.row, p.entries[1..]);
      assert CellsOf(p)[1..] == CellsOf(rest);
      GetValueOfPut(rest, f, q);
    }
  }

  /** Result.getRow over the cells a Put writes is the Put's row, absent when it writes no cell. */
  lemma GetRowOfPut(p: Put)
    ensures GetRow(CellsOf(p)) == if p.entries == [] then None else Some(p.row)
  {
  }

  /** No STRING slot of the row's families equals the null-string literal. */
  predicate NoNullLiteral(nullStringLiteral: Bytes, row: Row)
  {
    forall i, j :: 0 <= i < |row.groups| && 0 <= j < |row.groups[i]| ==> !IsNullLiteral(nullStringLiteral, row.groups[i][j])
  }

  /**
   * Decoding the cells a Put wrote gives back the row it was made from,
   * nulls included, under either null policy.  The Put must have written at
   * least one cell (a row with no cells has no row identifier to read back),
   * and no STRING may equal the null-string literal (it reads back as null).
   */
  lemma DecodeEncodeRow(config: SerdeConfig, row: Row, timestamp: int)
    requires WellFormed(config.schema) && Conforms(config.schema, row) && row.key.Some?
    requires NoNullLiteral(config.nullStringLiteral, row)
    requires CreatePutMutation(config, row, timestamp).Some?
    requires |CreatePutMutation(config, row, timestamp).value.entries| > 0
    ensures DecodeRow(config, CellsOf(CreatePutMutation(config, row, timestamp).value)) == Ok(row)
  {
    var s := config.schema;
    var lit := config.nullStringLiteral;
    var p := CreatePutMutation(config, row, timestamp).value;
    var cells := CellsOf(p);
    DecodeEncode(row.key.value);
    assert KeyOf(config, cells) == Ok(row.key.value);
    forall i, j | 0 <= i < |s.families| && 0 <= j < |s.families[i].columns|
      ensures SlotOf(config, i, j, cells) == Ok(row.groups[i][j])
    {
      var fam := s.families[i];
      PutGetColumns(config, row, timestamp, fam.name, fam.columns[j].name);
      GetValueOfPut(p, fam.name, fam.columns[j].name);
      DecodeEncodeField(fam.columns[j].typ, lit, row.groups[i][j]);
    }
    DecodeRowCells(config, cells);
    var r := DecodeRow(config, cells).value;
    assert |r.groups| == |row.groups|;
    forall i | 0 <= i < |row.groups| ensures r.groups[i] == row.groups[i] {
      assert |r.groups[i]| == |row.groups[i]|;
    }
    assert r.groups == row.groups;
  }

  // ---------------------------------------------------------------------------
  // Order independence: cells are looked up by name, not by position.
  // ---------------------------------------------------------------------------

  /** No two cells share a family and qualifier: the one version of each column the read hands over. */
  predicate UniqueColumns(cells: seq<Cell>)
  {
    forall i, j :: 0 <= i < |cells| && 0 <= j < |cells| && i != j ==>
      !Matches(cells[j], cells[i].family, cells[i].qualifier)
  }

  /** A column present among some cells is present among any reordering of them. */
  lemma MatchTransfers(c1: seq<Cell>, c2: seq<Cell>, f: string, q: string)
    requires multiset(c1) == multiset(c2)
    requires GetValue(c1, f, q).Some?
    ensures GetValue(c2, f, q).Some?
  {
    var i :| 0 <= i < |c1| && Matches(c1[i], f, q);
    assert c1[i] in multiset(c2);
    var k :| 0 <= k < |c2| && c2[k] == c1[i];
    assert Matches(c2[k], f, q);
  }

  lemma GetValueAgrees(c1: seq<Cell>, c2: seq<Cell>, f: string, q: string)
    requires UniqueColumns(c1) && UniqueColumns(c2)
    requires multiset(c1) == multiset(c2)
    ensures GetValue(c1, f, q) == GetValue(c2, f, q)
  {
    var r1, r2 := GetValue(c1, f, q), GetValue(c2, f, q);
    if r1.Some? {
      MatchTransfers(c1, c2, f, q);
      var i :| 0 <= i < |c1| && Matches(c1[i], f, q) && c1[i].value == r1.value;
      assert c1[i] in multiset(c2);
      var k :| 0 <= k < |c2| && c2[k] == c1[i];
      var j :| 0 <= j < |c2| && Matches(c2[j], f, q) && c2[j].value == r2.value;
      assert j == k;
    } else if r2.Some? {
      MatchTransfers(c2, c1, f, q);
      assert false;
    }
  }

  lemma {:induction false} DecodeColumnsCongruent(family: string, columns: seq<Column>, nullStringLiteral: Bytes,
                                                  c1: seq<Cell>, c2: seq<Cell>)
    requires forall q :: GetValue(c1, family, q) == GetValue(c2, family, q)
    ensures DecodeColumns(family, columns, nullStringLiteral, c1) == DecodeColumns(family, columns, nullStringLiteral, c2)
  {
    if columns != [] {
      DecodeColumnsCongruent(family, columns[1..], nullStringLiteral, c1, c2);
    }
  }

  lemma {:induction false} DecodeGroupsCongruent(families: seq<Family>, nullStringLiteral: Bytes, c1: seq<Cell>, c2: seq<Cell>)
    requires forall f, q :: GetValue(c1, f, q) == GetValue(c2, f, q)
    ensures DecodeGroups(families, nullStringLiteral, c1) == DecodeGroups(families, nullStringLiteral, c2)
  {
    if families != [] {
      DecodeColumnsCongruent(families[0].name, families[0].columns, nullStringLiteral, c1, c2);
      DecodeGroupsCongruent(families[1..], nullStringLiteral, c1, c2);
    }
  }

  /**
   * Decoding does not depend on the order of the cells: two orderings of the
   * same cells of one row, one version per column, decode alike.
   */
  lemma DecodeRowOrderIndependent(config: SerdeConfig, c1: seq<Cell>, c2: seq<Cell>, rowId: Bytes)
    requires forall i :: 0 <= i < |c1| ==> c1[i].row == rowId
    requires UniqueColumns(c1) && UniqueColumns(c2)
    requires multiset(c1) == multiset(c2)
    ensures DecodeRow(config, c1) == DecodeRow(config, c2)
  {
    forall f, q ensures GetValue(c1, f, q) == GetValue(c2, f, q) {
      GetValueAgrees(c1, c2, f, q);
    }
    if |c2| > 0 {
      assert c2[0] in multiset(c1);
    }
    assert |c1| == |multiset(c1)| == |multiset(c2)| == |c2|;
    DecodeGroupsCongruent(config.schema.families, config.nullStringLiteral, c1, c2);
  }

  /**
   * Decoding fails with the error of the first malformed cell in schema
   * order: the row key, then the families in order, each qualifier in order.
   */
  lemma FirstMalformedCell(config: SerdeConfig, cells: seq<Cell>, f: nat, q: nat)
    requires KeyOf(config, cells).Ok?
    requires f < |config.schema.families| && q < |config.schema.families[f].columns|
    requires forall g, p :: 0 <= g < f && 0 <= p < |config.schema.families[g].columns| ==> SlotOf(config, g, p, cells).Ok?
    requires forall p :: 0 <= p < q ==> SlotOf(config, f, p, cells).Ok?
    requires SlotOf(config, f, q, cells).Err?
    ensures DecodeRow(config, cells) == Err(SlotOf(config, f, q, cells).error)
  {
    var fs := config.schema.families;
    var lit := config.nullStringLiteral;
    DecodeGroupsFamilies(fs, lit, cells);
    forall g | 0 <= g < |fs|
      ensures FamilyGroup(fs, g, lit, cells).Ok? <==> forall p :: 0 <= p < |fs[g].columns| ==> SlotOf(config, g, p, cells).Ok?
      ensures FamilyGroup(fs, g, lit, cells).Err? ==>
        exists p :: 0 <= p < |fs[g].columns| && SlotOf(config, g, p, cells) == Err(FamilyGroup(fs, g, lit, cells).error) &&
                    forall o :: 0 <= o < p ==> SlotOf(config, g, o, cells).Ok?
    {
      DecodeColumnsCells(fs[g].name, fs[g].columns, lit, cells);
      assert forall p :: 0 <= p < |fs[g].columns| ==>
        SlotOf(config, g, p, cells) == DecodeCell(fs[g].name, fs[g].columns[p], lit, cells);
    }
    var groups := DecodeGroups(fs, lit, cells);
    assert FamilyGroup(fs, f, lit, cells).Err?;
    var g :| 0 <= g < |fs| && FamilyGroup(fs, g, lit, cells) == Err(groups.error) &&
             forall h :: 0 <= h < g ==> FamilyGroup(fs, h, lit, cells).Ok?;
    assert g == f;
    var p :| 0 <= p < |fs[f].columns| && SlotOf(config, f, p, cells) == Err(FamilyGroup(fs, f, lit, cells).error) &&
             forall o :: 0 <= o < p ==> SlotOf(config, f, o, cells).Ok?;
    assert p == q;
  }

  // ---------------------------------------------------------------------------
  // Row objects and the serde's two decode modes.
  // ---------------------------------------------------------------------------

  /** A row object: the row key slot and one nested row per family, each slot set in place. */
  class RowData {
    var key: Option<Value>
    var groups: seq<seq<Option<Value>>>

    /** The record the object holds now. */
    function Contents(): Row
      reads this
    {
      Row(key, groups)
    }

    /** A row laid out by the schema with every slot null. */
    constructor (s: TableSchema)
      ensures key.None? && Shaped(s, groups)
      ensures forall f, q :: 0 <= f < |groups| && 0 <= q < |groups[f]| ==> groups[f][q].None?
    {
      key := None;
      groups := seq(|s.families|, f requires 0 <= f < |s.families| => seq(|s.families[f].columns|, _ => None));
    }

    /** Sets the row key slot. */
    method SetKey(v: Option<Value>)
      modifies this
      ensures key == v && groups == old(groups)
    {
      key := v;
    }

    /** Sets slot `q` of family `f`'s nested row. */
    method SetField(f: nat, q: nat, v: Option<Value>)
      requires f < |groups| && q < |groups[f]|
      modifies this
      ensures key == old(key) && groups == old(groups)[f := old(groups)[f][q := v]]
    {
      groups := groups[f := groups[f][q := v]];
    }
  }

  /** The serde: its configuration and the one row object it reuses. */
  class HBaseSerde {
    const config: SerdeConfig
    const reusedRow: RowData

    ghost predicate Valid()
      reads this, reusedRow
    {
      Shaped(config.schema, reusedRow.groups)
    }

    constructor (schema: TableSchema, nullStringLiteral: Bytes, writeIgnoreNullValue: bool)
      ensures config == SerdeConfig(schema, nullStringLiteral, writeIgnoreNullValue)
      ensures Valid() && fresh(reusedRow)
    {
      config := SerdeConfig(schema, nullStringLiteral, writeIgnoreNullValue);
      reusedRow := new RowData(schema);
    }

    /**
     * Decodes the cells into `target` slot by slot, the row key first and then
     * each family's qualifiers in order, stopping at the first malformed cell.
     */
    method DecodeInto(target: RowData, cells: seq<Cell>) returns (err: Option<DecodeError>)
      requires Shaped(config.schema, target.groups)
      modifies target
      ensures Shaped(config.schema, target.groups)
      ensures err.None? <==> DecodeRow(config, cells).Ok?
      ensures err.None? ==> target.Contents() == DecodeRow(config, cells).value
      ensures err.Some? ==> err.value == DecodeRow(config, cells).error
    {
      var fs := config.schema.families;
      var lit := config.nullStringLiteral;
      var key := KeyOf(config, cells);
      if key.Err? {
        return Some(key.error);
      }
      target.SetKey(Some(key.value));
      var f := 0;
      while f < |fs|
        invariant 0 <= f <= |fs|
        invariant Shaped(config.schema, target.groups)
        invariant target.key == Some(KeyOf(config, cells).value)
        invariant forall g, p :: 0 <= g < f && 0 <= p < |fs[g].columns| ==>
          SlotOf(config, g, p, cells).Ok? && target.groups[g][p] == SlotOf(config, g, p, cells).value
      {
        var columns := fs[f].columns;
        var q := 0;
        while q < |columns|
          invariant 0 <= q <= |columns|
          invariant Shaped(config.schema, target.groups)
          invariant target.key == Some(KeyOf(config, cells).value)
          invariant forall g, p :: 0 <= g < f && 0 <= p < |fs[g].columns| ==>
            SlotOf(config, g, p, cells).Ok? && target.groups[g][p] == SlotOf(config, g, p, cells).value
          invariant forall p :: 0 <= p < q ==>
            SlotOf(config, f, p, cells).Ok? && target.groups[f][p] == SlotOf(config, f, p, cells).value
        {
          var v := DecodeField(columns[q].typ, lit, GetValue(cells, fs[f].name, columns[q].name));
          assert v == SlotOf(config, f, q, cells);
          if v.Err? {
            FirstMalformedCell(config, cells, f, q);
            return Some(v.error);
          }
          target.SetField(f, q, v.value);
          q := q + 1;
        }
        f := f + 1;
      }
      DecodeRowCells(config, cells);
      var r := DecodeRow(config, cells).value;
      forall g | 0 <= g < |fs| ensures target.groups[g] == r.groups[g] {
      }
      assert target.groups == r.groups;
      return None;
    }

    /** convertToNewRow: decodes into a new row object on every call. */
    method ConvertToNewRow(cells: seq<Cell>) returns (r: Result<RowData, DecodeError>)
      ensures r.Ok? <==> DecodeRow(config, cells).Ok?
      ensures r.Ok? ==> fresh(r.value) && r.value.Contents() == DecodeRow(config, cells).value
      ensures r.Err? ==> r.error == DecodeRow(config, cells).error
    {
      var row := new RowData(config.schema);
      var err := DecodeInto(row, cells);
      if err.Some? {
        return Err(err.value);
      }
      return Ok(row);
    }

    /**
     * convertToReusedRow: decodes into the serde's one row object, overwriting
     * every slot, and returns that object; after a success it holds exactly what
     * a fresh decode of these cells gives, whatever it held before.
     */
    method ConvertToReusedRow(cells: seq<Cell>) returns (r: Result<RowData, DecodeError>)
      requires Valid()
      modifies reusedRow
      ensures Valid()
      ensures r.Ok? <==> DecodeRow(config, cells).Ok?
      ensures r.Ok? ==> r.value == reusedRow && reusedRow.Contents() == DecodeRow(config, cells).value
      ensures r.Err? ==> r.error == DecodeRow(config, cells).error
    {
      var err := DecodeInto(reusedRow, cells);
      if err.Some? {
        return Err(err.value);
      }
      return Ok(reusedRow);
    }
  }
}

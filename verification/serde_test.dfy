/**
 * The fixtures of the serde test and the outcomes it expects: the schema
 * ROW(rowkey INT, family1 ROW(col1 INT), family2 ROW(col1 STRING, col2 BIGINT),
 * family3 ROW(col1 DOUBLE, col2 BOOLEAN, col3 STRING)), two rows of cells, and
 * a row with null slots to encode.
 */
module HBaseSerdeTest {
  import opened Wrappers
  import opened Types
  import opened Schema
  import opened Serde
  import WritableMetadata

  /** The UTF-8 bytes of an ASCII string. */
  function Ascii(s: string): Bytes
    requires forall i :: 0 <= i < |s| ==> s[i] as int < 128
  {
    seq(|s|, i requires 0 <= i < |s| => s[i] as int)
  }

  /** Distinct ASCII strings have distinct UTF-8 bytes. */
  lemma AsciiInjective(s: string, t: string)
    requires forall i :: 0 <= i < |s| ==> s[i] as int < 128
    requires forall i :: 0 <= i < |t| ==> t[i] as int < 128
    requires Ascii(s) == Ascii(t)
    ensures s == t
  {
    assert |s| == |t|;
    forall i | 0 <= i < |s| ensures s[i] == t[i] {
      assert Ascii(s)[i] == Ascii(t)[i];
    }
  }

  /** The null-string literal of the test serdes and the strings of the prepared rows, as UTF-8. */
  const NullLiteral: Bytes := Ascii("null")
  const Hello1: Bytes := Ascii("Hello-1")
  const Welt1: Bytes := Ascii("Welt-1")
  const Hello2: Bytes := Ascii("Hello-2")
  const Welt2: Bytes := Ascii("Welt-2")

  /**
   * createHBaseTableSchema: row key `rowkey` INT, then family1(col1 INT),
   * family2(col1 STRING, col2 BIGINT) and family3(col1 DOUBLE, col2 BOOLEAN,
   * col3 STRING).
   */
  function CreateHBaseTableSchema(): (s: TableSchema)
    ensures s.rowKeyType == IntType && PhysicalFieldCount(s) == 4
    ensures WellFormed(s)
  {
    var fs := [
      Family("family1", [Column("col1", IntType)]),
      Family("family2", [Column("col1", StringType), Column("col2", BigIntType)]),
      Family("family3", [Column("col1", DoubleType), Column("col2", BooleanType), Column("col3", StringType)])
    ];
    assert fs[0].name != fs[1].name && fs[0].name != fs[2].name && fs[1].name != fs[2].name by {
      assert fs[0].name[6] == '1' && fs[1].name[6] == '2' && fs[2].name[6] == '3';
    }
    assert DistinctColumns(fs[0].columns);
    assert DistinctColumns(fs[1].columns) by {
      assert fs[1].columns[0].name[3] == '1' && fs[1].columns[1].name[3] == '2';
    }
    assert DistinctColumns(fs[2].columns) by {
      assert fs[2].columns[0].name[3] == '1' && fs[2].columns[1].name[3] == '2' && fs[2].columns[2].name[3] == '3';
    }
    TableSchema("rowkey", IntType, fs)
  }

  /** The configuration createHBaseSerde gives a serde: the test schema, the literal "null" and the given null policy. */
  function Config(writeIgnoreNullValue: bool): SerdeConfig
  {
    SerdeConfig(CreateHBaseTableSchema(), NullLiteral, writeIgnoreNullValue)
  }

  /** createHBaseSerde: a new serde over the test schema with the null-string literal "null". */
  method CreateHBaseSerde(writeIgnoreNullValue: bool) returns (serde: HBaseSerde)
    ensures serde.config.schema == CreateHBaseTableSchema()
    ensures serde.config.nullStringLiteral == Ascii("null")
    ensures serde.config.writeIgnoreNullValue == writeIgnoreNullValue
    ensures serde.Valid() && fresh(serde.reusedRow)
  {
    serde := new HBaseSerde(CreateHBaseTableSchema(), NullLiteral, writeIgnoreNullValue);
  }

  /** The IEEE 754 bit patterns of the doubles 1.01 and 2.02. */
  const Double101: uint64 := 0x3FF0_28F5_C28F_5C29
  const Double202: uint64 := 0x4000_28F5_C28F_5C29

  /** The cells of one row of prepareCells, in the order the test adds them. */
  function RowCells(key: int32, i: int32, s: Bytes, l: int64, d: uint64, b: bool, t: Bytes): (cells: seq<Cell>)
    ensures |cells| == 6 && UniqueColumns(cells)
    ensures forall k :: 0 <= k < |cells| ==> cells[k].row == Encode(IntValue(key))
  {
    var row := Encode(IntValue(key));
    var cells := [ Cell(row, "family1", "col1", Encode(IntValue(i))),
      Cell(row, "family2", "col1", Encode(StringValue(s))),
      Cell(row, "family2", "col2", Encode(BigIntValue(l))),
      Cell(row, "family3", "col1", Encode(DoubleValue(d))),
      Cell(row, "family3", "col2", Encode(BooleanValue(b))),
      Cell(row, "family3", "col3", Encode(StringValue(t))) ];
    assert UniqueColumns(cells) by {
      assert cells[0].family[6] == '1' && cells[1].family[6] == '2' && cells[2].family[6] == '2';
      assert cells[3].family[6] == '3' && cells[4].family[6] == '3' && cells[5].family[6] == '3';
      assert cells[1].qualifier[3] == '1' && cells[2].qualifier[3] == '2';
      assert cells[3].qualifier[3] == '1' && cells[4].qualifier[3] == '2' && cells[5].qualifier[3] == '3';
    }
    cells
  }

  /** The row record those cells describe. */
  function RowOf(key: int32, i: int32, s: Bytes, l: int64, d: uint64, b: bool, t: Bytes): Row
  {
    Row(Some(IntValue(key)), [
      [Some(IntValue(i))],
      [Some(StringValue(s)), Some(BigIntValue(l))],
      [Some(DoubleValue(d)), Some(BooleanValue(b)), Some(StringValue(t))]
    ])
  }

  /** prepareCells: the cells of rows 1 and 2. */
  function PrepareCells(): (cellsList: seq<seq<Cell>>)
    ensures |cellsList| == 2
    ensures forall k :: 0 <= k < 2 ==> |cellsList[k]| == 6 && UniqueColumns(cellsList[k])
  {
    [ RowCells(1, 10, Hello1, 100, Double101, false, Welt1),
      RowCells(2, 20, Hello2, 200, Double202, true, Welt2) ]
  }

  /** +I(1,+I(10),+I(Hello-1,100),+I(1.01,false,Welt-1)) */
  function Row1(): Row
  {
    RowOf(1, 10, Hello1, 100, Double101, false, Welt1)
  }

  /** +I(2,+I(20),+I(Hello-2,200),+I(2.02,true,Welt-2)) */
  function Row2(): Row
  {
    RowOf(2, 20, Hello2, 200, Double202, true, Welt2)
  }

  lemma EncodeOneColumn(family: string, c: Column, v: Value, lit: Bytes, ign: bool, ts: int)
    ensures EncodeColumns(family, [c], [Some(v)], lit, ign, ts) == [PutEntry(family, c.name, ts, Encode(v))]
  {
    assert [c][1..] == [];
  }

  lemma EncodeTwoColumns(family: string, c1: Column, c2: Column, v1: Value, v2: Value, lit: Bytes, ign: bool, ts: int)
    ensures EncodeColumns(family, [c1, c2], [Some(v1), Some(v2)], lit, ign, ts) ==
      [PutEntry(family, c1.name, ts, Encode(v1)), PutEntry(family, c2.name, ts, Encode(v2))]
  {
    assert [c1, c2][1..] == [c2] && [Some(v1), Some(v2)][1..] == [Some(v2)];
    EncodeOneColumn(family, c2, v2, lit, ign, ts);
  }

  lemma EncodeThreeColumns(family: string, c1: Column, c2: Column, c3: Column, v1: Value, v2: Value, v3: Value,
                           lit: Bytes, ign: bool, ts: int)
    ensures EncodeColumns(family, [c1, c2, c3], [Some(v1), Some(v2), Some(v3)], lit, ign, ts) ==
      [PutEntry(family, c1.name, ts, Encode(v1)), PutEntry(family, c2.name, ts, Encode(v2)), PutEntry(family, c3.name, ts, Encode(v3))]
  {
    assert [c1, c2, c3][1..] == [c2, c3] && [Some(v1), Some(v2), Some(v3)][1..] == [Some(v2), Some(v3)];
    EncodeTwoColumns(family, c2, c3, v2, v3, lit, ign, ts);
  }

  /** The entries the Put of a prepared row holds, in the order the test adds its cells. */
  function RowEntries(ts: int, i: int32, s: Bytes, l: int64, d: uint64, b: bool, t: Bytes): seq<PutEntry>
  {
    [ PutEntry("family1", "col1", ts, Encode(IntValue(i))),
      PutEntry("family2", "col1", ts, Encode(StringValue(s))),
      PutEntry("family2", "col2", ts, Encode(BigIntValue(l))),
      PutEntry("family3", "col1", ts, Encode(DoubleValue(d))),
      PutEntry("family3", "col2", ts, Encode(BooleanValue(b))),
      PutEntry("family3", "col3", ts, Encode(StringValue(t))) ]
  }

  lemma RowOfConforms(key: int32, i: int32, s: Bytes, l: int64, d: uint64, b: bool, t: Bytes)
    ensures Conforms(CreateHBaseTableSchema(), RowOf(key, i, s, l, d, b, t))
  {
  }

  lemma RowOfEntries(config: SerdeConfig, ts: int, key: int32, i: int32, s: Bytes, l: int64, d: uint64, b: bool, t: Bytes)
    requires config.schema == CreateHBaseTableSchema()
    ensures var row := RowOf(key, i, s, l, d, b, t);
      EncodeGroups(config.schema.families, row.groups, config.nullStringLiteral, config.writeIgnoreNullValue, ts)
        == RowEntries(ts, i, s, l, d, b, t)
  {
    var lit, ign := config.nullStringLiteral, config.writeIgnoreNullValue;
    var f1 := Family("family1", [Column("col1", IntType)]);
    var f2 := Family("family2", [Column("col1", StringType), Column("col2", BigIntType)]);
    var f3 := Family("family3", [Column("col1", DoubleType), Column("col2", BooleanType), Column("col3", StringType)]);
    var g1 := [Some(IntValue(i))];
    var g2 := [Some(StringValue(s)), Some(BigIntValue(l))];
    var g3 := [Some(DoubleValue(d)), Some(BooleanValue(b)), Some(StringValue(t))];
    EncodeOneColumn("family1", Column("col1", IntType), IntValue(i), lit, ign, ts);
    EncodeTwoColumns("family2", Column("col1", StringType), Column("col2", BigIntType),
                     StringValue(s), BigIntValue(l), lit, ign, ts);
    EncodeThreeColumns("family3", Column("col1", DoubleType), Column("col2", BooleanType), Column("col3", StringType),
                       DoubleValue(d), BooleanValue(b), StringValue(t), lit, ign, ts);
    EncodeThreeGroups(f1, f2, f3, g1, g2, g3, lit, ign, ts);
  }

  lemma EncodeOneGroup(f1: Family, g1: seq<Option<Value>>, lit: Bytes, ign: bool, ts: int)
    requires |g1| == |f1.columns|
    ensures EncodeGroups([f1], [g1], lit, ign, ts) == EncodeColumns(f1.name, f1.columns, g1, lit, ign, ts)
  {
    assert [f1][1..] == [] && [g1][1..] == [];
    var e1 := EncodeColumns(f1.name, f1.columns, g1, lit, ign, ts);
    assert e1 + [] == e1;
  }

  lemma EncodeTwoGroups(f1: Family, f2: Family, g1: seq<Option<Value>>, g2: seq<Option<Value>>, lit: Bytes, ign: bool, ts: int)
    requires |g1| == |f1.columns| && |g2| == |f2.columns|
    ensures EncodeGroups([f1, f2], [g1, g2], lit, ign, ts) ==
      EncodeColumns(f1.name, f1.columns, g1, lit, ign, ts) + EncodeColumns(f2.name, f2.columns, g2, lit, ign, ts)
  {
    assert [f1, f2][1..] == [f2] && [g1, g2][1..] == [g2];
    EncodeOneGroup(f2, g2, lit, ign, ts);
  }

  lemma EncodeThreeGroups(f1: Family, f2: Family, f3: Family, g1: seq<Option<Value>>, g2: seq<Option<Value>>, g3: seq<Option<Value>>,
                          lit: Bytes, ign: bool, ts: int)
    requires |g1| == |f1.columns| && |g2| == |f2.columns| && |g3| == |f3.columns|
    ensures EncodeGroups([f1, f2, f3], [g1, g2, g3], lit, ign, ts) ==
      EncodeColumns(f1.name, f1.columns, g1, lit, ign, ts) +
      (EncodeColumns(f2.name, f2.columns, g2, lit, ign, ts) + EncodeColumns(f3.name, f3.columns, g3, lit, ign, ts))
  {
    assert [f1, f2, f3][1..] == [f2, f3] && [g1, g2, g3][1..] == [g2, g3];
    EncodeTwoGroups(f2, f3, g2, g3, lit, ign, ts);
  }

  /** Each row's cells are exactly the cells the Put of that row writes, in the same order. */
  lemma RowCellsArePutCells(config: SerdeConfig, key: int32, i: int32, s: Bytes, l: int64, d: uint64, b: bool, t: Bytes)
    requires config.schema == CreateHBaseTableSchema()
    ensures Conforms(config.schema, RowOf(key, i, s, l, d, b, t))
    ensures CreatePutMutation(config, RowOf(key, i, s, l, d, b, t), WritableMetadata.LatestTimestamp).Some?
    ensures RowCells(key, i, s, l, d, b, t) ==
      CellsOf(CreatePutMutation(config, RowOf(key, i, s, l, d, b, t), WritableMetadata.LatestTimestamp).value)
  {
    var ts := WritableMetadata.LatestTimestamp;
    RowOfConforms(key, i, s, l, d, b, t);
    RowOfEntries(config, ts, key, i, s, l, d, b, t);
    var p := CreatePutMutation(config, RowOf(key, i, s, l, d, b, t), ts).value;
    assert p == Put(Encode(IntValue(key)), RowEntries(ts, i, s, l, d, b, t));
  }

  /** A prepared row's cells decode to its row, whatever the null policy. */
  lemma RowCellsDecode(config: SerdeConfig, key: int32, i: int32, s: Bytes, l: int64, d: uint64, b: bool, t: Bytes)
    requires config.schema == CreateHBaseTableSchema()
    requires s != config.nullStringLiteral && t != config.nullStringLiteral
    ensures DecodeRow(config, RowCells(key, i, s, l, d, b, t)) == Ok(RowOf(key, i, s, l, d, b, t))
  {
    RowCellsArePutCells(config, key, i, s, l, d, b, t);
    DecodeEncodeRow(config, RowOf(key, i, s, l, d, b, t), WritableMetadata.LatestTimestamp);
  }

  /** The prepared strings differ from the null-string literal "null". */
  lemma PreparedStringsAreNotNull()
    ensures Hello1 != NullLiteral && Welt1 != NullLiteral
    ensures Hello2 != NullLiteral && Welt2 != NullLiteral
  {
    assert |NullLiteral| == 4;
    assert |Hello1| == 7 && |Welt1| == 6;
    assert |Hello2| == 7 && |Welt2| == 6;
  }

  /** The first prepared row of cells decodes to the first expected row. */
  lemma Row1Decodes(writeIgnoreNullValue: bool)
    ensures DecodeRow(Config(writeIgnoreNullValue), PrepareCells()[0]) == Ok(Row1())
  {
    PreparedStringsAreNotNull();
    RowCellsDecode(Config(writeIgnoreNullValue), 1, 10, Hello1, 100, Double101, false, Welt1);
  }

  /** The second prepared row of cells decodes to the second expected row. */
  lemma Row2Decodes(writeIgnoreNullValue: bool)
    ensures DecodeRow(Config(writeIgnoreNullValue), PrepareCells()[1]) == Ok(Row2())
  {
    PreparedStringsAreNotNull();
    RowCellsDecode(Config(writeIgnoreNullValue), 2, 20, Hello2, 200, Double202, true, Welt2);
  }

  /** Each prepared row of cells decodes to the row expected at its position. */
  lemma PreparedCellsDecode(writeIgnoreNullValue: bool, k: nat)
    requires k < 2
    ensures |PrepareCells()| == 2
    ensures DecodeRow(Config(writeIgnoreNullValue), PrepareCells()[k]) == Ok(if k == 0 then Row1() else Row2())
  {
    if k == 0 {
      Row1Decodes(writeIgnoreNullValue);
    } else {
      Row2Decodes(writeIgnoreNullValue);
    }
  }

  /**
   * The loop of convertToNewRowTest: decodes every list of cells with
   * convertToNewRow, keeping each returned object and what it held right then.
   */
  method DecodeEachNew(serde: HBaseSerde, cellsList: seq<seq<Cell>>) returns (results: seq<RowData>, contents: seq<Row>)
    requires forall m :: 0 <= m < |cellsList| ==> DecodeRow(serde.config, cellsList[m]).Ok?
    ensures |results| == |cellsList| && |contents| == |cellsList|
    ensures forall m, n :: 0 <= m < n < |results| ==> results[m] != results[n]
    ensures forall m :: 0 <= m < |cellsList| ==> contents[m] == DecodeRow(serde.config, cellsList[m]).value
  {
    results, contents := [], [];
    var k := 0;
    while k < |cellsList|
      invariant 0 <= k <= |cellsList| && |results| == k && |contents| == k
      invariant forall m :: 0 <= m < k ==> fresh(results[m])
      invariant forall m, n :: 0 <= m < n < k ==> results[m] != results[n]
      invariant forall m :: 0 <= m < k ==> contents[m] == DecodeRow(serde.config, cellsList[m]).value
    {
      var r := serde.ConvertToNewRow(cellsList[k]);
      results := results + [r.value];
      contents := contents + [r.value.Contents()];
      k := k + 1;
    }
  }

  /**
   * The loop of convertToReusedRowTest: decodes every list of cells with
   * convertToReusedRow, keeping each returned object and what it held right then.
   */
  method DecodeEachReused(serde: HBaseSerde, cellsList: seq<seq<Cell>>) returns (results: seq<RowData>, contents: seq<Row>)
    requires serde.Valid()
    requires forall m :: 0 <= m < |cellsList| ==> DecodeRow(serde.config, cellsList[m]).Ok?
    modifies serde.reusedRow
    ensures serde.Valid()
    ensures |results| == |cellsList| && |contents| == |cellsList|
    ensures forall m :: 0 <= m < |results| ==> results[m] == serde.reusedRow
    ensures forall m :: 0 <= m < |cellsList| ==> contents[m] == DecodeRow(serde.config, cellsList[m]).value
  {
    results, contents := [], [];
    var k := 0;
    while k < |cellsList|
      invariant 0 <= k <= |cellsList| && |results| == k && |contents| == k
      invariant serde.Valid()
      invariant forall m :: 0 <= m < k ==> results[m] == serde.reusedRow
      invariant forall m :: 0 <= m < k ==> contents[m] == DecodeRow(serde.config, cellsList[m]).value
    {
      var r := serde.ConvertToReusedRow(cellsList[k]);
      results := results + [r.value];
      contents := contents + [r.value.Contents()];
      k := k + 1;
    }
  }

  /** Every prepared row of cells decodes under the test serde's configuration. */
  lemma PreparedCellsAllDecode()
    ensures forall m :: 0 <= m < |PrepareCells()| ==> DecodeRow(Config(false), PrepareCells()[m]).Ok?
  {
    forall m | 0 <= m < |PrepareCells()| ensures DecodeRow(Config(false), PrepareCells()[m]).Ok? {
      PreparedCellsDecode(false, m);
    }
  }

  /**
   * convertToNewRowTest: decoding the prepared rows with convertToNewRow gives
   * two distinct row objects, holding rows 1 and 2.
   */
  method ConvertToNewRowTest() returns (results: seq<RowData>, contents: seq<Row>)
    ensures |results| == 2 && results[0] != results[1]
    ensures |contents| == 2 && contents[0] == Row1() && contents[1] == Row2()
  {
    var serde := CreateHBaseSerde(false);
    var cellsList := PrepareCells();
    PreparedCellsDecode(false, 0);
    PreparedCellsDecode(false, 1);
    PreparedCellsAllDecode();
    results, contents := DecodeEachNew(serde, cellsList);
  }

  /**
   * convertToReusedRowTest: decoding the prepared rows with convertToReusedRow
   * returns the same row object both times, holding row 1 after the first call
   * and row 2 after the second.
   */
  method ConvertToReusedRowTest() returns (results: seq<RowData>, contents: seq<Row>)
    ensures |results| == 2 && results[0] == results[1]
    ensures |contents| == 2 && contents[0] == Row1() && contents[1] == Row2()
  {
    var serde := CreateHBaseSerde(false);
    var cellsList := PrepareCells();
    PreparedCellsDecode(false, 0);
    PreparedCellsDecode(false, 1);
    PreparedCellsAllDecode();
    results, contents := DecodeEachReused(serde, cellsList);
  }

  /** prepareRowData: row key 10, and null in family1.col1, family2.col2 and family3.col3. */
  function PrepareRowData(): (row: Row)
    ensures Conforms(CreateHBaseTableSchema(), row) && row.key == Some(IntValue(10))
    ensures forall f, q :: 0 <= f < |row.groups| && 0 <= q < |row.groups[f]| ==> (row.groups[f][q].None? <==> q == f)
  {
    Row(Some(IntValue(10)), [
      [None],
      [Some(StringValue(Hello1)), None],
      [Some(DoubleValue(Double202)), Some(BooleanValue(true)), None]
    ])
  }

  /** The Put writeIgnoreNullValueTest builds from prepareRowData with the given null policy. */
  function TestPut(writeIgnoreNullValue: bool): Option<Put>
  {
    CreatePutMutation(Config(writeIgnoreNullValue), PrepareRowData(), WritableMetadata.LatestTimestamp)
  }

  /** The number of values the Put holds for a family and qualifier of the test schema. */
  function TestPutCount(writeIgnoreNullValue: bool, family: string, qualifier: string): nat
    requires TestPut(writeIgnoreNullValue).Some?
  {
    |PutGet(TestPut(writeIgnoreNullValue).value, family, qualifier)|
  }

  /**
   * writeIgnoreNullValueTest, first half: with writeIgnoreNullValue off the
   * Put exists, its row is not empty, and every column has a value, null or not.
   */
  lemma WriteNullValueTest()
    ensures TestPut(false).Some? && |TestPut(false).value.row| > 0
    ensures TestPutCount(false, "family1", "col1") == 1
    ensures TestPutCount(false, "family2", "col1") == 1 && TestPutCount(false, "family2", "col2") == 1
    ensures TestPutCount(false, "family3", "col1") == 1 && TestPutCount(false, "family3", "col2") == 1
    ensures TestPutCount(false, "family3", "col3") == 1
  {
    var config := Config(false);
    var row := PrepareRowData();
    var ts := WritableMetadata.LatestTimestamp;
    PutRowFromNonNullKey(config, row, ts);
    PutWritesNullColumns(config, row, ts, 0, 0);
    PutWritesNullColumns(config, row, ts, 1, 0);
    PutWritesNullColumns(config, row, ts, 1, 1);
    PutWritesNullColumns(config, row, ts, 2, 0);
    PutWritesNullColumns(config, row, ts, 2, 1);
    PutWritesNullColumns(config, row, ts, 2, 2);
  }

  /**
   * writeIgnoreNullValueTest, second half: with writeIgnoreNullValue on the
   * Put exists, its row is not empty, and exactly the non-null columns have a value.
   */
  lemma WriteIgnoreNullValueTest()
    ensures TestPut(true).Some? && |TestPut(true).value.row| > 0
    ensures TestPutCount(true, "family1", "col1") == 0
    ensures TestPutCount(true, "family2", "col1") == 1 && TestPutCount(true, "family2", "col2") == 0
    ensures TestPutCount(true, "family3", "col1") == 1 && TestPutCount(true, "family3", "col2") == 1
    ensures TestPutCount(true, "family3", "col3") == 0
  {
    var config := Config(true);
    var row := PrepareRowData();
    var ts := WritableMetadata.LatestTimestamp;
    PutRowFromNonNullKey(config, row, ts);
    PutSkipsNullColumns(config, row, ts, 0, 0);
    PutSkipsNullColumns(config, row, ts, 1, 0);
    PutSkipsNullColumns(config, row, ts, 1, 1);
    PutSkipsNullColumns(config, row, ts, 2, 0);
    PutSkipsNullColumns(config, row, ts, 2, 1);
    PutSkipsNullColumns(config, row, ts, 2, 2);
  }

  /** The timestamp metadata column of the test table sits right after its four physical fields. */
  lemma TimestampMetadataPosition()
    ensures WritableMetadata.Of([WritableMetadata.TimestampKey], PhysicalFieldCount(CreateHBaseTableSchema())).pos == 4
  {
  }
}

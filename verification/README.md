# HBase row codec and writable metadata, in Dafny

This project models two pieces of the Flink HBase connector:

- **The writable metadata of the HBase sink.** A row written to HBase can carry
  a `timestamp` metadata column after its physical columns. `list()` registers
  the key with type `TIMESTAMP_LTZ(3)`. `TimestampMetadata.of` resolves the key
  to a row position, or to -1 when the key is not declared. `read` returns
  HBase's `LATEST_TIMESTAMP` for an undeclared key. It fails with an
  `IllegalArgumentException` for a null slot. Otherwise it returns the slot's
  millisecond value.
- **The row codec `HBaseSerde`, as its test pins it down.** The codec decodes
  the cells of one HBase row into a row record laid out by the table schema:
  the row key first, then one nested row per column family, with one slot per
  qualifier. `convertToNewRow` decodes into a fresh record on every call.
  `convertToReusedRow` overwrites one record that the serde owns and returns
  that same object each time. `createPutMutation` encodes a record into a
  `Put` stamped with the given timestamp. A null field is written as the
  null-string literal for STRING and as an empty value for other types, unless
  `writeIgnoreNullValue` is set, in which case it is skipped. The row key
  goes through the non-nullable codec instead: a row with no cells has no row
  id and fails to decode, a null key is not a valid input to
  `createPutMutation`, and only an empty STRING key gives no Put. The test's
  fixtures are modelled as well:
  - the four-family schema;
  - the two prepared rows of cells;
  - the row with null slots.

The modules follow the program's structure:

| file | module | contents |
|---|---|---|
| `wrappers.dfy` | `Wrappers` | `Option`, `Result` |
| `types.dfy` | `Types` | logical types, values and their byte encoding (`Bytes.toBytes` and back) |
| `metadata.dfy` | `WritableMetadata` | `list`, `TimestampMetadata.of`, `read` |
| `schema.dfy` | `Schema` | the table schema and row records |
| `serde.dfy` | `Serde` | decoding, encoding, the `RowData` and `HBaseSerde` classes |
| `serde_test.dfy` | `HBaseSerdeTest` | the test's fixtures, its three scenarios and the outcomes it asserts |

Decoding and encoding are specified as functions on values (`DecodeRow`,
`CreatePutMutation`). The row object and the serde that reuses it are
classes. `HBaseSerde.DecodeInto` fills a row object slot by slot in nested
loops and is proved to leave exactly `DecodeRow`'s result in it.

The main results:
- `DecodeEncodeRow`: decoding the cells of a Put gives back the row it was built from.
- `DecodeRowOrderIndependent`: the model looks cells up by family and qualifier, so with one cell per column their order does not change the decoded row. HBase's `Result` agrees with this lookup only on cells sorted by family and qualifier (see "Left out").
- `ConvertToNewRowTest` and `ConvertToReusedRowTest`: the two prepared rows of cells decode to the expected records. The first gives two distinct objects; the second gives the same object twice.
- `WriteNullValueTest` and `WriteIgnoreNullValueTest`: null columns are written without `writeIgnoreNullValue` and skipped with it.
- `ReadSkipsPhysicalFields` and `ReadDeclaredTimestamp`: the timestamp is read from its metadata slot after the physical fields.

## Model

| member | source | states |
|---|---|---|
| WritableMetadata.List | flink-connector-hbase-base/src/main/java/org/apache/flink/connector/hbase/sink/WritableMetadata.java:44-57 | the registry holds exactly one key, `timestamp`, typed as a nullable TIMESTAMP_LTZ with precision 3 |
| WritableMetadata.IndexOf | flink-connector-hbase-base/src/main/java/org/apache/flink/connector/hbase/sink/WritableMetadata.java:78 | List.indexOf: -1 exactly when the key is absent; otherwise the key sits at the result and at no earlier position |
| WritableMetadata.Of | flink-connector-hbase-base/src/main/java/org/apache/flink/connector/hbase/sink/WritableMetadata.java:77-84 | pos is -1 exactly when `timestamp` is not declared; otherwise pos lies past the physical fields and points at the first `timestamp` among the metadata keys |
| WritableMetadata.Read | flink-connector-hbase-base/src/main/java/org/apache/flink/connector/hbase/sink/WritableMetadata.java:66-75 | LATEST_TIMESTAMP for a negative pos; an IllegalArgument error exactly when the slot is null, with the fixed message; otherwise the slot's millisecond value |
| WritableMetadata.ReadUndeclaredIgnoresRow | flink-connector-hbase-base/src/main/java/org/apache/flink/connector/hbase/sink/WritableMetadata.java:67-69 | with the key undeclared, any two rows read the same, LATEST_TIMESTAMP |
| WritableMetadata.NullTimestampMessageNamesKey | flink-connector-hbase-base/src/main/java/org/apache/flink/connector/hbase/sink/WritableMetadata.java:70-73 | the null-slot error message contains the key `timestamp` |
| WritableMetadata.ReadSkipsPhysicalFields | flink-connector-hbase-base/src/main/java/org/apache/flink/connector/hbase/sink/WritableMetadata.java:77-84 | the accessor resolved against the physical row type reads physical ++ metadata exactly as it reads the metadata slots alone, whatever the physical slots hold |
| WritableMetadata.ReadDeclaredTimestamp | flink-connector-hbase-base/src/main/java/org/apache/flink/connector/hbase/sink/WritableMetadata.java:66-84 | a declared, non-null timestamp slot is read back as its millisecond value |
| Schema.PhysicalFieldCount | flink-connector-hbase-base/src/main/java/org/apache/flink/connector/hbase/sink/WritableMetadata.java:83 | the children of the physical row type, the row key followed by one field per family, number one more than the families |
| Types.FixedWidth | flink-connector-hbase-base/src/test/java/org/apache/flink/connector/hbase/util/HBaseSerdeTest.java:166-181 | every type except STRING has a fixed, positive byte width |
| Types.BigEndian | flink-connector-hbase-base/src/test/java/org/apache/flink/connector/hbase/util/HBaseSerdeTest.java:166-171 | a number below 256^w is written in exactly w bytes |
| Types.FromBigEndianInverse | flink-connector-hbase-base/src/test/java/org/apache/flink/connector/hbase/util/HBaseSerdeTest.java:166-181 | reading w big-endian bytes back gives the number written |
| Types.FromUnsigned | flink-connector-hbase-base/src/test/java/org/apache/flink/connector/hbase/util/HBaseSerdeTest.java:166-171 | the two's-complement reading lies in the signed range and is inverted by ToUnsigned |
| Types.Encode | flink-connector-hbase-base/src/test/java/org/apache/flink/connector/hbase/util/HBaseSerdeTest.java:166-181 | a fixed-width value takes exactly its type's width; a string is written as its UTF-8 bytes |
| Types.Decode | flink-connector-hbase-base/src/test/java/org/apache/flink/connector/hbase/util/HBaseSerdeTest.java:63-81 | fails exactly when the bytes are too short for INT, BIGINT or DOUBLE, or are not exactly one byte for BOOLEAN, naming both lengths; a success has the requested type |
| Types.DecodeReadsPrefix | flink-connector-hbase-base/src/test/java/org/apache/flink/connector/hbase/util/HBaseSerdeTest.java:63-81 | INT, BIGINT and DOUBLE read only their leading bytes: bytes appended after them change nothing |
| Types.DecodeEncode | flink-connector-hbase-base/src/test/java/org/apache/flink/connector/hbase/util/HBaseSerdeTest.java:166-181 | every value decodes back from its bytes under its own type |
| Types.EncodeInjective | flink-connector-hbase-base/src/test/java/org/apache/flink/connector/hbase/util/HBaseSerdeTest.java:166-181 | two values of one type with the same bytes are equal |
| Serde.EncodeField | flink-connector-hbase-base/src/test/java/org/apache/flink/connector/hbase/util/HBaseSerdeTest.java:106-117 | a non-null fixed-width slot takes its type's width; a null non-string slot is written as an empty value |
| Serde.DecodeField | flink-connector-hbase-base/src/test/java/org/apache/flink/connector/hbase/util/HBaseSerdeTest.java:63-81 | an absent cell, an empty non-string value and a STRING equal to the null-string literal read as null; it fails exactly when a non-empty value is unreadable for its type, naming both lengths; a success has the column's type |
| Serde.DecodeEncodeField | flink-connector-hbase-base/src/test/java/org/apache/flink/connector/hbase/util/HBaseSerdeTest.java:106-117 | every slot, null or not, reads back as written, unless it is a STRING equal to the null-string literal |
| Serde.NullLiteralReadsAsNull | flink-connector-hbase-base/src/test/java/org/apache/flink/connector/hbase/util/HBaseSerdeTest.java:148-150 | a STRING equal to the null-string literal is written like a null and reads back as null |
| Serde.GetRowOfPut | flink-connector-hbase-base/src/test/java/org/apache/flink/connector/hbase/util/HBaseSerdeTest.java:70 | Result.getRow over the cells a Put writes is the Put's row, and absent when the Put writes no cell |
| Serde.GetValue | flink-connector-hbase-base/src/test/java/org/apache/flink/connector/hbase/util/HBaseSerdeTest.java:70 | Result.getValue: absent exactly when no cell matches the family and qualifier; otherwise the value of the first matching cell |
| Serde.DecodeColumns | flink-connector-hbase-base/src/test/java/org/apache/flink/connector/hbase/util/HBaseSerdeTest.java:63-81 | a decoded family has one slot per qualifier |
| Serde.DecodeColumnsCells | flink-connector-hbase-base/src/test/java/org/apache/flink/connector/hbase/util/HBaseSerdeTest.java:63-81 | a family decodes exactly when each of its qualifiers' cells does; slot q is qualifier q's cell; a failure is the first failing qualifier |
| Serde.DecodeGroups | flink-connector-hbase-base/src/test/java/org/apache/flink/connector/hbase/util/HBaseSerdeTest.java:63-81 | the decoded groups have one entry per family |
| Serde.DecodeGroupsFamilies | flink-connector-hbase-base/src/test/java/org/apache/flink/connector/hbase/util/HBaseSerdeTest.java:63-81 | the families decode exactly when each family does; group f is family f's; a failure is the first failing family |
| Serde.DecodeGroupsSlots | flink-connector-hbase-base/src/test/java/org/apache/flink/connector/hbase/util/HBaseSerdeTest.java:63-81 | the groups decode exactly when every (family, qualifier) slot does; they are shaped by the schema; slot (f, q) is the decoded cell of family f, qualifier q |
| Serde.DecodeRowCells | flink-connector-hbase-base/src/test/java/org/apache/flink/connector/hbase/util/HBaseSerdeTest.java:63-81 | a row decodes exactly when its row id and every slot do; the record conforms to the schema; its key is the decoded row id and each slot the decoded cell of its column |
| Serde.FirstMalformedCell | flink-connector-hbase-base/src/test/java/org/apache/flink/connector/hbase/util/HBaseSerdeTest.java:63-81 | decoding reports the first malformed slot in schema order |
| Serde.DecodeRow | flink-connector-hbase-base/src/test/java/org/apache/flink/connector/hbase/util/HBaseSerdeTest.java:63-103 | a result without cells has no row id and fails with MissingRowKey; a decoded record has a non-null key and conforms to the schema |
| Serde.EntriesGetMembers | flink-connector-hbase-base/src/test/java/org/apache/flink/connector/hbase/util/HBaseSerdeTest.java:111-117 | Put.get of a family and qualifier is empty exactly when no entry has both, and each value it returns is the value of such an entry |
| Serde.PutGet | flink-connector-hbase-base/src/test/java/org/apache/flink/connector/hbase/util/HBaseSerdeTest.java:112-130 | Put.get is empty exactly when no entry of the Put has the family and qualifier, and each value it returns comes from such an entry |
| Serde.EntriesGetAppend | flink-connector-hbase-base/src/test/java/org/apache/flink/connector/hbase/util/HBaseSerdeTest.java:111-117 | Put.get over two runs of entries is the concatenation of the lookups |
| Serde.EncodeColumns | flink-connector-hbase-base/src/test/java/org/apache/flink/connector/hbase/util/HBaseSerdeTest.java:106-131 | every entry carries its family and the timestamp; there are at most as many entries as columns, and exactly as many when nulls are not ignored |
| Serde.EncodeGroups | flink-connector-hbase-base/src/test/java/org/apache/flink/connector/hbase/util/HBaseSerdeTest.java:106-131 | every entry carries the timestamp |
| Serde.CreatePutMutation | flink-connector-hbase-base/src/test/java/org/apache/flink/connector/hbase/util/HBaseSerdeTest.java:106-131 | for a non-null key, there is no Put exactly when the key is the empty STRING; otherwise the Put's row is the key's encoding and every entry carries the given timestamp |
| Serde.EncodeColumnsGet | flink-connector-hbase-base/src/test/java/org/apache/flink/connector/hbase/util/HBaseSerdeTest.java:106-131 | within one family, get of another family or an undeclared qualifier is empty, and get of a declared qualifier is what that column's slot writes |
| Serde.EncodeGroupsGet | flink-connector-hbase-base/src/test/java/org/apache/flink/connector/hbase/util/HBaseSerdeTest.java:106-131 | across families with distinct names, get of an undeclared column is empty and get of a declared one is what its slot writes |
| Serde.PutGetColumns | flink-connector-hbase-base/src/test/java/org/apache/flink/connector/hbase/util/HBaseSerdeTest.java:106-131 | Put.get of a created Put: empty for columns outside the schema, and what the column's slot writes for columns in it |
| Serde.PutWritesNullColumns | flink-connector-hbase-base/src/test/java/org/apache/flink/connector/hbase/util/HBaseSerdeTest.java:106-116 | without writeIgnoreNullValue, every declared column has exactly one value in the Put, null or not |
| Serde.PutSkipsNullColumns | flink-connector-hbase-base/src/test/java/org/apache/flink/connector/hbase/util/HBaseSerdeTest.java:118-130 | with writeIgnoreNullValue, a declared column has a value in the Put exactly when its slot is not null, and never more than one |
| Serde.PutRowFromNonNullKey | flink-connector-hbase-base/src/test/java/org/apache/flink/connector/hbase/util/HBaseSerdeTest.java:108-111 | a non-null fixed-width row key always yields a Put whose row is non-empty, of the key type's width |
| Serde.GetValueOfPut | flink-connector-hbase-base/src/test/java/org/apache/flink/connector/hbase/util/HBaseSerdeTest.java:63-81 | Result.getValue over a Put's cells is the first value Put.get holds, or absent when it holds none |
| Serde.DecodeEncodeRow | flink-connector-hbase-base/src/test/java/org/apache/flink/connector/hbase/util/HBaseSerdeTest.java:63-131 | decoding the cells of the Put created from a conforming row with a non-null key gives that row back, for either null policy |
| Serde.MatchTransfers | flink-connector-hbase-base/src/test/java/org/apache/flink/connector/hbase/util/HBaseSerdeTest.java:70 | a column found among some cells is found among any rearrangement of them |
| Serde.GetValueAgrees | flink-connector-hbase-base/src/test/java/org/apache/flink/connector/hbase/util/HBaseSerdeTest.java:70 | with at most one cell per column, Result.getValue is the same over any rearrangement of the cells |
| Serde.DecodeColumnsCongruent | flink-connector-hbase-base/src/test/java/org/apache/flink/connector/hbase/util/HBaseSerdeTest.java:63-81 | a family decodes the same from two cell lists that agree on every lookup in it |
| Serde.DecodeGroupsCongruent | flink-connector-hbase-base/src/test/java/org/apache/flink/connector/hbase/util/HBaseSerdeTest.java:63-81 | all families decode the same from two cell lists that agree on every lookup |
| Serde.DecodeRowOrderIndependent | flink-connector-hbase-base/src/test/java/org/apache/flink/connector/hbase/util/HBaseSerdeTest.java:182-197 | a row's cells, one per column, decode to the same result in any order |
| Serde.RowData.constructor | flink-connector-hbase-base/src/test/java/org/apache/flink/connector/hbase/util/HBaseSerdeTest.java:201-212 | a new row object has the schema's layout with every slot null |
| Serde.RowData.SetKey | flink-connector-hbase-base/src/test/java/org/apache/flink/connector/hbase/util/HBaseSerdeTest.java:214-215 | sets the row key slot and nothing else |
| Serde.RowData.SetField | flink-connector-hbase-base/src/test/java/org/apache/flink/connector/hbase/util/HBaseSerdeTest.java:202-218 | sets one slot of one family and nothing else |
| Serde.HBaseSerde.constructor | flink-connector-hbase-base/src/test/java/org/apache/flink/connector/hbase/util/HBaseSerdeTest.java:148-150 | a serde holds its schema, null-string literal and null policy, and a fresh reusable row object of the schema's layout |
| Serde.HBaseSerde.DecodeInto | flink-connector-hbase-base/src/test/java/org/apache/flink/connector/hbase/util/HBaseSerdeTest.java:63-103 | filling a row object succeeds exactly when DecodeRow does, leaves DecodeRow's record in it, and otherwise reports DecodeRow's error |
| Serde.HBaseSerde.ConvertToNewRow | flink-connector-hbase-base/src/test/java/org/apache/flink/connector/hbase/util/HBaseSerdeTest.java:63-81 | a success is a fresh object holding DecodeRow's record; a failure is DecodeRow's error |
| Serde.HBaseSerde.ConvertToReusedRow | flink-connector-hbase-base/src/test/java/org/apache/flink/connector/hbase/util/HBaseSerdeTest.java:84-103 | a success returns the serde's own row object, now holding DecodeRow's record whatever it held before; a failure is DecodeRow's error |
| HBaseSerdeTest.AsciiInjective | flink-connector-hbase-base/src/test/java/org/apache/flink/connector/hbase/util/HBaseSerdeTest.java:170 | Bytes.toBytes of ASCII strings: distinct strings never share their bytes |
| HBaseSerdeTest.CreateHBaseTableSchema | flink-connector-hbase-base/src/test/java/org/apache/flink/connector/hbase/util/HBaseSerdeTest.java:133-146 | createHBaseTableSchema: an INT row key and three families, with distinct family names and distinct qualifiers within each family |
| HBaseSerdeTest.CreateHBaseSerde | flink-connector-hbase-base/src/test/java/org/apache/flink/connector/hbase/util/HBaseSerdeTest.java:148-150 | createHBaseSerde: a serde over the test schema with the literal "null" and the given null policy, owning a fresh reusable row |
| HBaseSerdeTest.RowCells | flink-connector-hbase-base/src/test/java/org/apache/flink/connector/hbase/util/HBaseSerdeTest.java:169-195 | the cells the test adds for one row: six, all on the encoded row key, with no two for the same column |
| HBaseSerdeTest.PrepareCells | flink-connector-hbase-base/src/test/java/org/apache/flink/connector/hbase/util/HBaseSerdeTest.java:152-199 | prepareCells: two lists of six cells, each with at most one cell per column |
| HBaseSerdeTest.RowOfConforms | flink-connector-hbase-base/src/test/java/org/apache/flink/connector/hbase/util/HBaseSerdeTest.java:133-146 | a row of the prepared shape conforms to the test schema |
| HBaseSerdeTest.RowOfEntries | flink-connector-hbase-base/src/test/java/org/apache/flink/connector/hbase/util/HBaseSerdeTest.java:169-195 | the entries encoded from a prepared row are its six cells' values, in the order the test adds them |
| HBaseSerdeTest.RowCellsArePutCells | flink-connector-hbase-base/src/test/java/org/apache/flink/connector/hbase/util/HBaseSerdeTest.java:152-199 | each prepared row of cells is exactly the cells of the Put created from its expected record |
| HBaseSerdeTest.RowCellsDecode | flink-connector-hbase-base/src/test/java/org/apache/flink/connector/hbase/util/HBaseSerdeTest.java:63-81 | a prepared row of cells decodes to its expected record under either null policy, given its strings are not the null literal |
| HBaseSerdeTest.PreparedStringsAreNotNull | flink-connector-hbase-base/src/test/java/org/apache/flink/connector/hbase/util/HBaseSerdeTest.java:170-181 | none of the prepared strings is the null-string literal "null" |
| HBaseSerdeTest.Row1Decodes | flink-connector-hbase-base/src/test/java/org/apache/flink/connector/hbase/util/HBaseSerdeTest.java:78-81 | the first prepared row of cells decodes to +I(1,+I(10),+I(Hello-1,100),+I(1.01,false,Welt-1)) |
| HBaseSerdeTest.Row2Decodes | flink-connector-hbase-base/src/test/java/org/apache/flink/connector/hbase/util/HBaseSerdeTest.java:78-81 | the second prepared row of cells decodes to +I(2,+I(20),+I(Hello-2,200),+I(2.02,true,Welt-2)) |
| HBaseSerdeTest.PreparedCellsDecode | flink-connector-hbase-base/src/test/java/org/apache/flink/connector/hbase/util/HBaseSerdeTest.java:66-81 | prepareCells holds two rows, and the k-th decodes to the k-th expected record |
| HBaseSerdeTest.PreparedCellsAllDecode | flink-connector-hbase-base/src/test/java/org/apache/flink/connector/hbase/util/HBaseSerdeTest.java:66-70 | every prepared row of cells decodes without error under the test serde |
| HBaseSerdeTest.DecodeEachNew | flink-connector-hbase-base/src/test/java/org/apache/flink/connector/hbase/util/HBaseSerdeTest.java:69-73 | the decode loop with convertToNewRow yields pairwise distinct objects whose snapshots are the decoded records |
| HBaseSerdeTest.DecodeEachReused | flink-connector-hbase-base/src/test/java/org/apache/flink/connector/hbase/util/HBaseSerdeTest.java:90-94 | the decode loop with convertToReusedRow yields the serde's one object every time, and each snapshot is that call's decoded record |
| HBaseSerdeTest.ConvertToNewRowTest | flink-connector-hbase-base/src/test/java/org/apache/flink/connector/hbase/util/HBaseSerdeTest.java:63-81 | the two returned objects are not the same object, and their contents are the two expected rows |
| HBaseSerdeTest.ConvertToReusedRowTest | flink-connector-hbase-base/src/test/java/org/apache/flink/connector/hbase/util/HBaseSerdeTest.java:84-103 | the two returned objects are the same object, and it held the first expected row after the first call and the second after the second |
| HBaseSerdeTest.PrepareRowData | flink-connector-hbase-base/src/test/java/org/apache/flink/connector/hbase/util/HBaseSerdeTest.java:201-220 | prepareRowData conforms to the test schema, has row key 10, and is null exactly at family1.col1, family2.col2 and family3.col3 |
| HBaseSerdeTest.WriteNullValueTest | flink-connector-hbase-base/src/test/java/org/apache/flink/connector/hbase/util/HBaseSerdeTest.java:106-116 | without writeIgnoreNullValue, the Put exists, has a non-empty row, and holds one value for each of the six columns, the null ones included |
| HBaseSerdeTest.WriteIgnoreNullValueTest | flink-connector-hbase-base/src/test/java/org/apache/flink/connector/hbase/util/HBaseSerdeTest.java:118-130 | with writeIgnoreNullValue, the Put exists, has a non-empty row, holds one value for each non-null column and none for family1.col1, family2.col2 and family3.col3 |
| HBaseSerdeTest.TimestampMetadataPosition | flink-connector-hbase-base/src/main/java/org/apache/flink/connector/hbase/sink/WritableMetadata.java:77-84 | declaring only `timestamp` against the test table puts the timestamp at position 4, right after the row key and three families |

## Left out

- The source of `HBaseSerde.java`, `HBaseTableSchema.java` and HBase's `Bytes`, `Result`, `Put` and `KeyValue` is not part of this model. Their behaviour is modelled from how the test uses them:
  - a null field is written as the null-string literal for STRING and as an empty value for other types;
  - an absent cell, an empty non-string value, or a STRING equal to the literal reads back as null;
  - the row key is written and read without any null handling; there is no Put when the encoded row key is empty.
- `Serde.DecodeRow`: a `Result` without cells has no row id. The model reports `MissingRowKey` where the Java code would fail on the null row id with an exception.
- `Serde.CreatePutMutation`: a null row key is excluded by the precondition. The Java code would fail with a `NullPointerException` on it.
- `Serde.CreatePutMutation`: HBase's `Put` constructor throws on a negative timestamp and on a row longer than 32767 bytes. The model takes any integer timestamp and any key length and builds the Put regardless.
- `Serde.EncodeField` and `Serde.DecodeField`: every column is treated as nullable. A NOT NULL column, which gets a codec without the null-string literal and the empty-value rule, is not modelled.
- Byte encoding: `Types.Encode` stands in for `Bytes.toBytes`.
  - int and bigint are big-endian two's complement, in 4 and 8 bytes;
  - a double is carried as its IEEE 754 bit pattern, so floating-point arithmetic and conversion are not modelled;
  - a boolean is one byte, 0xFF for true and 0 for false, and any non-zero byte reads as true;
  - `Types.Decode` reads INT, BIGINT and DOUBLE from the leading bytes of a longer value, as `Bytes.toInt`, `toLong` and `toDouble` do, and wants exactly one byte for BOOLEAN, as `Bytes.toBoolean` does;
  - a string is its UTF-8 bytes. `HBaseSerdeTest.Ascii` covers only ASCII, which is all the test uses.
- Only the INT, BIGINT, DOUBLE, BOOLEAN and STRING types are modelled, the ones the test's schema uses. DECIMAL, dates, times, timestamps, binary and the other Flink types are left out.
- `Serde.GetValue`: the real `Result` expects its cells sorted by family and qualifier and looks a column up by binary search. The model takes the first matching cell in the order given. The two agree on sorted cells with at most one cell per column. On unsorted cells the binary search can miss a cell that is present, so `Serde.DecodeRowOrderIndependent` is a fact about the model's lookup by name, not about `Result`.
- The row key is assumed to be the first top-level field of the schema. A schema that places it elsewhere, or one without a row key, is not modelled.
- `Serde.RowData`: the per-family nested rows are values inside the row object, not objects of their own. So the model does not capture that reuse mode also reuses them, that fresh mode allocates new ones, or aliasing through a family row kept by a caller.
- `Serde.HBaseSerde.ConvertToReusedRow`: as above, only the top-level row object is reused; the nested family rows are modelled as values. After a failed decode, the reused row may have been partly overwritten. The model states nothing about its contents in that case, beyond its layout.
- `Serde.DecodeEncodeRow` requires that no STRING slot equals the null-string literal, because such a slot reads back as null (see `Serde.NullLiteralReadsAsNull`). It also requires at least one entry in the Put, because a Put with no cells yields an empty `Result` without a row.
- `WritableMetadata.Of`: `pos + size` is a Java `int` sum. Its overflow past 2^31 - 1 is not modelled, since it would need more than two billion fields.
- `WritableMetadata.Read`: the row is the sink's row type, so a declared position is in range and holds a TIMESTAMP_LTZ(3). The precondition says so, rather than modelling a `ClassCastException` or an index error.
- `read` on a `RowData` is modelled on a sequence of slots that records only null, a timestamp, or some other value. The sink converter that combines the timestamp with the Put is not part of this model, and neither are `createScan`, the input format (`HBaseRowDataInputFormat`), connection handling and `toString`. The test's string comparison of rows is modelled as equality of records.
- Null columns and `writeIgnoreNullValue`: the model follows HBaseSerdeTest.java:106-117, which expects a value for every null column when the flag is off (`Serde.PutWritesNullColumns`).
- Line 128 of the test looks up `family3` with the constant `F2COL1`. Its value is `col1`, the same as `F3COL1`, so the model checks `family3`/`col1`.

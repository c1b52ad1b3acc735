/**
 * The HBase table schema: a row key followed by column families, each an
 * ordered list of typed qualifiers, and the row records laid out by it.
 */
module Schema {
  import opened Wrappers
  import opened Types

  datatype Column = Column(name: string, typ: LogicalType)
  datatype Family = Family(name: string, columns: seq<Column>)

  /**
   * The physical row type ROW(rowkey, family1 ROW(...), family2 ROW(...), ...):
   * the row key is the first top-level field and every other field is a family.
   */
  datatype TableSchema = TableSchema(rowKeyName: string, rowKeyType: LogicalType, families: seq<Family>)

  /** No two qualifiers of one family share a name. */
  predicate DistinctColumns(columns: seq<Column>)
  {
    forall i, j :: 0 <= i < |columns| && 0 <= j < |columns| && i != j ==> columns[i].name != columns[j].name
  }

  /** Family names are distinct and every family's qualifier names are distinct. */
  predicate DistinctNames(families: seq<Family>)
  {
    (forall i, j :: 0 <= i < |families| && 0 <= j < |families| && i != j ==> families[i].name != families[j].name) &&
    (forall i :: 0 <= i < |families| ==> DistinctColumns(families[i].columns))
  }

  /**
   * The table schema keeps its families and each family's qualifiers in maps
   * keyed by name, so names are unique at both levels.
   */
  predicate WellFormed(s: TableSchema)
  {
    DistinctNames(s.families)
  }

  /** The names of the top-level fields of the physical row type: the row key, then one field per family. */
  function PhysicalFieldNames(s: TableSchema): seq<string>
  {
    [s.rowKeyName] + seq(|s.families|, i requires 0 <= i < |s.families| => s.families[i].name)
  }

  /** The number of top-level fields (children) of the physical row type: the row key and one per family. */
  function PhysicalFieldCount(s: TableSchema): (n: nat)
    ensures n == |s.families| + 1
  {
    |PhysicalFieldNames(s)|
  }

  /** A row record: the row key and, per family, one slot per qualifier; a slot may be null. */
  datatype Row = Row(key: Option<Value>, groups: seq<seq<Option<Value>>>)

  /** `v` is null or of type `t`. */
  predicate Typed(t: LogicalType, v: Option<Value>)
  {
    v.None? || TypeOf(v.value) == t
  }

  /** The groups have one slot per qualifier of each family. */
  predicate Shaped(s: TableSchema, groups: seq<seq<Option<Value>>>)
  {
    |groups| == |s.families| &&
    forall f :: 0 <= f < |groups| ==> |groups[f]| == |s.families[f].columns|
  }

  /** The row has the schema's layout and every non-null slot holds a value of its column's type. */
  predicate Conforms(s: TableSchema, row: Row)
  {
    Typed(s.rowKeyType, row.key) &&
    Shaped(s, row.groups) &&
    forall f, q :: 0 <= f < |row.groups| && 0 <= q < |row.groups[f]| ==>
      Typed(s.families[f].columns[q].typ, row.groups[f][q])
  }
}

/**
 * Schema inference (BQLite.__to_bq_schema): one BigQuery field per data
 * frame column, typed by the kind character of the column's dtype.
 */
module SchemaInference {
  import opened Common
  import Materialize

  /** A data frame column as the inference sees it: its name and its dtype's kind character. */
  datatype DtypeColumn = DtypeColumn(name: string, kind: char)

  /** The fixed table from dtype kind to BigQuery type. */
  const TypeMapping: map<char, string> := map[
    'i' := "INTEGER",
    'b' := "BOOLEAN",
    'f' := "FLOAT",
    'O' := "STRING",
    'S' := "STRING",
    'U' := "STRING",
    'M' := "TIMESTAMP"
  ]

  /** The table's BigQuery type for a dtype kind, or STRING for a kind the table does not list. */
  function BqTypeOf(kind: char): string {
    if kind in TypeMapping then TypeMapping[kind] else "STRING"
  }

  /** The mode SchemaField gives a field when none is passed. */
  const DefaultMode := "NULLABLE"

  /** The mapping is total: the listed kinds map as tabled and every other kind falls back to STRING. */
  lemma KindMappingTotal(kind: char)
    ensures BqTypeOf('i') == "INTEGER" && BqTypeOf('b') == "BOOLEAN" && BqTypeOf('f') == "FLOAT"
    ensures BqTypeOf('O') == "STRING" && BqTypeOf('S') == "STRING" && BqTypeOf('U') == "STRING"
    ensures BqTypeOf('M') == "TIMESTAMP"
    ensures kind !in "ibfOSUM" ==> BqTypeOf(kind) == "STRING"
    ensures BqTypeOf(kind) in {"INTEGER", "BOOLEAN", "FLOAT", "STRING", "TIMESTAMP"}
  {
  }

  /** Every inferred type is one the read path knows how to cast. */
  lemma InferredTypesAreReadable(kind: char)
    ensures Materialize.LookupCast(BqTypeOf(kind)).Some?
  {
  }

  /**
   * __to_bq_schema: walks the columns in order, appending one field per
   * column, named by the column and typed by its dtype kind; never REPEATED.
   */
  method ToBqSchema(columns: seq<DtypeColumn>) returns (fields: seq<Field>)
    ensures |fields| == |columns|
    ensures forall k :: 0 <= k < |columns| ==>
      fields[k] == Field(columns[k].name, BqTypeOf(columns[k].kind), DefaultMode)
    ensures forall k :: 0 <= k < |fields| ==> fields[k].mode != "REPEATED"
  {
    fields := [];
    for k := 0 to |columns|
      invariant |fields| == k
      invariant forall j :: 0 <= j < k ==>
        fields[j] == Field(columns[j].name, BqTypeOf(columns[j].kind), DefaultMode)
    {
      fields := fields + [Field(columns[k].name, BqTypeOf(columns[k].kind), DefaultMode)];
    }
  }

  /**
   * The dtype kind pandas reports for a materialised column: float64 is 'f',
   * bool is 'b', datetime64[ns] is 'M', and a column built without a dtype
   * from text and None values is held as objects, 'O'.
   */
  function KindOf(d: Materialize.Dtype): char {
    match d
    case NoDtype => 'O'
    case Float64 => 'f'
    case BoolDtype => 'b'
    case Datetime64ns => 'M'
  }

  /**
   * Reading a non-REPEATED column back and inferring its schema again gives:
   * FLOAT for FLOAT and INTEGER, STRING for the text-like types, and BOOLEAN
   * and TIMESTAMP unchanged.
   */
  lemma InferAfterMaterialize(f: Field, col: seq<Value>)
    requires f.mode != "REPEATED" && f.fieldType in Materialize.CastMapping
    ensures Materialize.ColumnsOf(f, col).Ok? && |Materialize.ColumnsOf(f, col).value| == 1
    ensures
      var t := BqTypeOf(KindOf(Materialize.ColumnsOf(f, col).value[0].dtype));
      && (f.fieldType in {"FLOAT", "INTEGER"} ==> t == "FLOAT")
      && (f.fieldType in {"STRING", "DATETIME", "DATE", "TIME"} ==> t == "STRING")
      && (f.fieldType == "BOOLEAN" ==> t == "BOOLEAN")
      && (f.fieldType == "TIMESTAMP" ==> t == "TIMESTAMP")
  {
  }
}

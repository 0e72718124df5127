/**
 * Result materialisation: turning the column-major raw values of a query
 * result and its schema into an ordered list of named, typed columns
 * (BQLite.__to_df with its inner helpers to_flg, cast_all_column and
 * cast_column).
 */
module Materialize {
  import opened Common

  /** The storage type handed to pandas with a cast column; NoDtype lets pandas infer it. */
  datatype Dtype = NoDtype | Float64 | BoolDtype | Datetime64ns

  /** One physical output column. */
  datatype Column = Column(name: string, dtype: Dtype, cells: seq<Value>)

  /** to_flg: a BOOLEAN cell is true exactly when it is the text 'true'. */
  function ToFlag(v: Value): bool {
    v == Str("true")
  }

  function Cast(c: Caster, v: Value): Value {
    if c == FlagCast then Bool(ToFlag(v)) else Converted(c, v)
  }

  /** The fixed cast table of cast_all_column: field type to (cast function, storage type). */
  const CastMapping: map<string, (Caster, Dtype)> := map[
    "STRING"    := (StrCast, NoDtype),
    "DATETIME"  := (StrCast, NoDtype),
    "DATE"      := (StrCast, NoDtype),
    "TIME"      := (StrCast, NoDtype),
    "FLOAT"     := (FloatCast, Float64),
    "INTEGER"   := (FloatCast, Float64),
    "BOOLEAN"   := (FlagCast, BoolDtype),
    "TIMESTAMP" := (TimestampCast, Datetime64ns)
  ]

  /** The cast table's entry for a field type, or nothing when the type is not in the table. */
  function LookupCast(valuesType: string): Option<(Caster, Dtype)> {
    if valuesType in CastMapping then Some(CastMapping[valuesType]) else None
  }

  /** The message of the exception raised for a type missing from the table. */
  function UnsupportedMessage(valuesType: string): string {
    "Not Support to type:" + valuesType + "."
  }

  predicate AllArr(values: seq<Value>) {
    forall i :: 0 <= i < |values| ==> values[i].Arr?
  }

  /** A scalar cell after casting: None stays None, anything else is cast. */
  function CastCell(c: Caster, v: Value): Value {
    if v == Null then Null else Cast(c, v)
  }

  /** Entry `rowNo` of a nested cell after casting: None when the list is too short or holds None there. */
  function NestedCell(c: Caster, v: Value, rowNo: nat): Value
    requires v.Arr?
  {
    if rowNo < |v.items| && v.items[rowNo] != Null then Cast(c, v.items[rowNo]) else Null
  }

  /** A non-REPEATED column after casting. */
  function CastCells(values: seq<Value>, c: Caster): (r: seq<Value>)
    ensures |r| == |values|
    ensures forall i :: 0 <= i < |values| ==> r[i] == CastCell(c, values[i])
    ensures forall i :: 0 <= i < |values| ==> (r[i] == Null <==> values[i] == Null)
  {
    if values == [] then []
    else CastCells(values[..|values| - 1], c) + [CastCell(c, values[|values| - 1])]
  }

  /** Physical column `rowNo` of a REPEATED column: one cell per row. */
  function RepeatedCells(values: seq<Value>, rowNo: nat, c: Caster): (r: seq<Value>)
    requires AllArr(values)
    ensures |r| == |values|
    ensures forall i :: 0 <= i < |values| ==> r[i] == NestedCell(c, values[i], rowNo)
  {
    if values == [] then []
    else RepeatedCells(values[..|values| - 1], rowNo, c) + [NestedCell(c, values[|values| - 1], rowNo)]
  }

  /** The longest nested list among the rows of a REPEATED column. */
  function MaxLength(values: seq<Value>): (m: nat)
    requires values != [] && AllArr(values)
    ensures forall i :: 0 <= i < |values| ==> |values[i].items| <= m
    ensures exists i :: 0 <= i < |values| && |values[i].items| == m
  {
    if |values| == 1 then |values[0].items|
    else
      var init := values[..|values| - 1];
      var rest := MaxLength(init);
      assert forall i :: 0 <= i < |init| ==> init[i] == values[i];
      var last := |values[|values| - 1].items|;
      if last >= rest then last else rest
  }

  function Digit(d: nat): char
    requires d < 10
  {
    "0123456789"[d]
  }

  /** str(n) for a natural number: decimal digits, with no leading zero unless n is 0. */
  function DecimalString(n: nat): (s: string)
    ensures |s| >= 1
    ensures forall i :: 0 <= i < |s| ==> '0' <= s[i] <= '9'
    ensures s[0] != '0' || n == 0
  {
    if n < 10 then [Digit(n)] else DecimalString(n / 10) + [Digit(n % 10)]
  }

  /** The value of a string of decimal digits. */
  function DecimalValue(s: string): nat
    requires forall i :: 0 <= i < |s| ==> '0' <= s[i] <= '9'
  {
    if s == [] then 0 else 10 * DecimalValue(s[..|s| - 1]) + (s[|s| - 1] as int - '0' as int)
  }

  lemma {:induction false} DecimalRoundTrip(n: nat)
    ensures DecimalValue(DecimalString(n)) == n
  {
    if n >= 10 {
      DecimalRoundTrip(n / 10);
      var s := DecimalString(n);
      assert s[..|s| - 1] == DecimalString(n / 10);
    }
  }

  /** Physical columns of a REPEATED column are named name_0, name_1, ...; no two alike. */
  lemma RepeatedNamesDistinct(name: string, i: nat, j: nat)
    requires i != j
    ensures name + "_" + DecimalString(i) != name + "_" + DecimalString(j)
  {
    var prefix := name + "_";
    if prefix + DecimalString(i) == prefix + DecimalString(j) {
      assert DecimalString(i) == (prefix + DecimalString(i))[|prefix|..];
      assert DecimalString(j) == (prefix + DecimalString(j))[|prefix|..];
      DecimalRoundTrip(i);
      DecimalRoundTrip(j);
    }
  }

  /** What a schema entry requires of its raw column before the loop reaches it. */
  predicate ColumnAdmissible(f: Field, col: seq<Value>) {
    f.mode == "REPEATED" ==> col != [] && AllArr(col)
  }

  /**
   * The physical columns one schema entry contributes. A REPEATED entry whose
   * rows are all empty contributes none, and its type is never looked up.
   */
  function ColumnsOf(f: Field, col: seq<Value>): Result<seq<Column>>
    requires ColumnAdmissible(f, col)
  {
    if f.mode == "REPEATED" then
      var maxLen := MaxLength(col);
      if maxLen == 0 then Ok([])
      else match LookupCast(f.fieldType)
        case None => Err(UnsupportedType(UnsupportedMessage(f.fieldType)))
        case Some(cd) =>
          Ok(seq(maxLen, (i: int) requires 0 <= i < maxLen =>
            Column(f.name + "_" + DecimalString(i), cd.1, RepeatedCells(col, i, cd.0))))
    else match LookupCast(f.fieldType)
      case None => Err(UnsupportedType(UnsupportedMessage(f.fieldType)))
      case Some(cd) => Ok([Column(f.name, cd.1, CastCells(col, cd.0))])
  }

  /**
   * What __to_df relies on without checking: when there are rows at all, one
   * raw column for each schema entry (extra raw columns are never read), and
   * every REPEATED column has at least one row, each a nested list.
   */
  predicate Admissible(rows: seq<seq<Value>>, schema: seq<Field>) {
    |rows| == 0 ||
    (|schema| <= |rows| && forall k :: 0 <= k < |schema| ==> ColumnAdmissible(schema[k], rows[k]))
  }

  /** The outcome after the first n schema entries, each consuming the raw column at its own position. */
  function Emitted(rows: seq<seq<Value>>, schema: seq<Field>, n: nat): Result<seq<Column>>
    requires Admissible(rows, schema) && |rows| > 0 && n <= |schema|
  {
    if n == 0 then Ok([])
    else match Emitted(rows, schema, n - 1)
      case Err(e) => Err(e)
      case Ok(cols) =>
        match ColumnsOf(schema[n - 1], rows[n - 1])
        case Err(e) => Err(e)
        case Ok(cs) => Ok(cols + cs)
  }

  /** Once an entry fails, the entries after it are never processed: the first failure is the outcome. */
  lemma {:induction false} FirstFailureSticks(rows: seq<seq<Value>>, schema: seq<Field>, n: nat, m: nat)
    requires Admissible(rows, schema) && |rows| > 0 && n <= m <= |schema|
    requires Emitted(rows, schema, n).Err?
    ensures Emitted(rows, schema, m) == Emitted(rows, schema, n)
  {
    if m > n {
      FirstFailureSticks(rows, schema, n, m - 1);
    }
  }

  /** The result of __to_df. */
  function Materialized(rows: seq<seq<Value>>, schema: seq<Field>): Result<seq<Column>>
    requires Admissible(rows, schema)
  {
    if |rows| == 0 then Ok([]) else Emitted(rows, schema, |schema|)
  }

  /**
   * cast_column: the non-REPEATED branch overwrites each non-None entry with
   * its cast; the REPEATED branch fills a list of `size` Nones (the length of
   * the enclosing raw column) with entry `rowNo` of each row.
   */
  method CastColumn(values: seq<Value>, c: Caster, rowNo: Option<nat>, size: nat) returns (r: seq<Value>)
    requires rowNo.Some? ==> |values| <= size && AllArr(values)
    ensures rowNo.None? ==> r == CastCells(values, c)
    ensures rowNo.Some? ==> |r| == size
    ensures rowNo.Some? ==> r[..|values|] == RepeatedCells(values, rowNo.value, c)
    ensures rowNo.Some? ==> forall i :: |values| <= i < size ==> r[i] == Null
  {
    match rowNo {
      case None =>
        r := values;
        for i := 0 to |r|
          invariant |r| == |values|
          invariant forall j :: 0 <= j < i ==> r[j] == CastCell(c, values[j])
          invariant forall j :: i <= j < |r| ==> r[j] == values[j]
        {
          if r[i] != Null {
            r := r[i := Cast(c, r[i])];
          }
        }
      case Some(no) =>
        // The guard against a missing row number in this branch can never fire here.
        r := seq(size, _ => Null);
        for i := 0 to |values|
          invariant |r| == size
          invariant forall j :: 0 <= j < i ==> r[j] == NestedCell(c, values[j], no)
          invariant forall j :: i <= j < size ==> r[j] == Null
        {
          var value := values[i];
          if no < |value.items| && value.items[no] != Null {
            r := r[i := Cast(c, value.items[no])];
          }
        }
    }
  }

  /** cast_all_column: look the type up, fail on an unknown one, otherwise cast the column. */
  method CastAllColumn(values: seq<Value>, valuesType: string, rowNo: Option<nat>, size: nat)
    returns (r: Result<(seq<Value>, Dtype)>)
    requires rowNo.Some? ==> |values| <= size && AllArr(values)
    ensures r.Err? <==> valuesType !in CastMapping
    ensures r.Err? ==> r.error == UnsupportedType("Not Support to type:" + valuesType + ".")
    ensures r.Ok? ==> r.value.1 == CastMapping[valuesType].1
    ensures r.Ok? && rowNo.None? ==> r.value.0 == CastCells(values, CastMapping[valuesType].0)
    ensures r.Ok? && rowNo.Some? ==> |r.value.0| == size
    ensures r.Ok? && rowNo.Some? ==>
      r.value.0[..|values|] == RepeatedCells(values, rowNo.value, CastMapping[valuesType].0)
    ensures r.Ok? && rowNo.Some? ==> forall i :: |values| <= i < size ==> r.value.0[i] == Null
  {
    var mapping := LookupCast(valuesType);
    if mapping.None? {
      return Err(UnsupportedType(UnsupportedMessage(valuesType)));
    }
    var (castFunction, newValuesType) := mapping.value;
    var cast := CastColumn(values, castFunction, rowNo, size);
    return Ok((cast, newValuesType));
  }

  // ---- Properties of the materialised result ----

  /** BOOLEAN casting is exact, case-sensitive equality with 'true'; None is left alone by the caller. */
  lemma FlagCastIsExactTrue(v: Value)
    ensures Cast(FlagCast, v) == Bool(v == Str("true"))
    ensures Cast(FlagCast, Str("true")) == Bool(true)
    ensures Cast(FlagCast, Str("True")) == Bool(false)
    ensures Cast(FlagCast, Str("1")) == Bool(false)
    ensures Cast(FlagCast, Str("false")) == Bool(false)
    ensures Cast(FlagCast, Str("")) == Bool(false)
  {
  }

  /** The cast table: FLOAT and INTEGER read as float, text-like types as str, and exactly eight types known. */
  lemma CastTableFixed(t: string)
    ensures LookupCast("FLOAT") == Some((FloatCast, Float64))
    ensures LookupCast("INTEGER") == Some((FloatCast, Float64))
    ensures LookupCast("BOOLEAN") == Some((FlagCast, BoolDtype))
    ensures LookupCast("TIMESTAMP") == Some((TimestampCast, Datetime64ns))
    ensures LookupCast("STRING") == Some((StrCast, NoDtype))
    ensures LookupCast("DATETIME") == Some((StrCast, NoDtype))
    ensures LookupCast("DATE") == Some((StrCast, NoDtype))
    ensures LookupCast("TIME") == Some((StrCast, NoDtype))
    ensures LookupCast(t).Some? <==>
      t in {"STRING", "DATETIME", "DATE", "TIME", "FLOAT", "INTEGER", "BOOLEAN", "TIMESTAMP"}
  {
  }

  /**
   * A non-REPEATED entry of a known type yields one column under its own
   * name: same length, None kept at the same positions, every other cell cast.
   */
  lemma ScalarColumnCast(f: Field, col: seq<Value>)
    requires f.mode != "REPEATED" && f.fieldType in CastMapping
    ensures ColumnsOf(f, col).Ok? && |ColumnsOf(f, col).value| == 1
    ensures ColumnsOf(f, col).value[0].name == f.name
    ensures ColumnsOf(f, col).value[0].dtype == CastMapping[f.fieldType].1
    ensures |ColumnsOf(f, col).value[0].cells| == |col|
    ensures forall i :: 0 <= i < |col| ==>
      var cell := ColumnsOf(f, col).value[0].cells[i];
      (col[i] == Null ==> cell == Null) &&
      (col[i] != Null ==> cell == Cast(CastMapping[f.fieldType].0, col[i]))
  {
  }

  /**
   * An unknown type fails with a message naming it, unless the entry is
   * REPEATED with no nested values at all: then no cast is attempted and the
   * entry contributes no column.
   */
  lemma UnknownTypeFails(f: Field, col: seq<Value>)
    requires ColumnAdmissible(f, col) && f.fieldType !in CastMapping
    ensures f.mode == "REPEATED" && MaxLength(col) == 0 ==> ColumnsOf(f, col) == Ok([])
    ensures f.mode != "REPEATED" || MaxLength(col) > 0 ==>
      ColumnsOf(f, col) == Err(UnsupportedType("Not Support to type:" + f.fieldType + "."))
  {
  }

  /**
   * A REPEATED entry of a known type expands into exactly max_len columns
   * named name_0 .. name_{max_len-1}, each one cell per row: entry i of the
   * row's nested list cast, or None when the list is shorter or holds None.
   */
  lemma RepeatedExpansion(f: Field, col: seq<Value>)
    requires f.mode == "REPEATED" && col != [] && AllArr(col) && f.fieldType in CastMapping
    ensures ColumnsOf(f, col).Ok?
    ensures |ColumnsOf(f, col).value| == MaxLength(col)
    ensures forall i :: 0 <= i < MaxLength(col) ==>
      var column := ColumnsOf(f, col).value[i];
      && column.name == f.name + "_" + DecimalString(i)
      && column.dtype == CastMapping[f.fieldType].1
      && |column.cells| == |col|
      && forall r :: 0 <= r < |col| ==>
           column.cells[r] ==
             if i < |col[r].items| && col[r].items[i] != Null
             then Cast(CastMapping[f.fieldType].0, col[r].items[i])
             else Null
  {
  }

  /** Processing more entries only appends: the columns of earlier entries are never moved. */
  lemma {:induction false} EmittedGrows(rows: seq<seq<Value>>, schema: seq<Field>, k: nat, n: nat)
    requires Admissible(rows, schema) && |rows| > 0 && k <= n <= |schema|
    requires Emitted(rows, schema, n).Ok?
    ensures Emitted(rows, schema, k).Ok?
    ensures Emitted(rows, schema, k).value <= Emitted(rows, schema, n).value
  {
    if k < n {
      EmittedGrows(rows, schema, k, n - 1);
    }
  }

  /**
   * Schema order: on success, schema entry k consumed exactly raw column k,
   * and its columns sit right after those of entries 0 .. k-1.
   */
  lemma EntryPlacement(rows: seq<seq<Value>>, schema: seq<Field>, k: nat)
    requires Admissible(rows, schema) && |rows| > 0 && k < |schema|
    requires Materialized(rows, schema).Ok?
    ensures ColumnsOf(schema[k], rows[k]).Ok?
    ensures Emitted(rows, schema, k).Ok?
    ensures
      var all := Materialized(rows, schema).value;
      var start := |Emitted(rows, schema, k).value|;
      var cs := ColumnsOf(schema[k], rows[k]).value;
      start + |cs| <= |all| && all[start..start + |cs|] == cs
  {
    EmittedGrows(rows, schema, k + 1, |schema|);
    EmittedGrows(rows, schema, k, k + 1);
  }

  /**
   * Failure: materialisation fails exactly when some entry fails, and then
   * with the error of the first failing entry in schema order.
   */
  lemma {:induction false} FirstFailureReported(rows: seq<seq<Value>>, schema: seq<Field>, n: nat)
    requires Admissible(rows, schema) && |rows| > 0 && n <= |schema|
    ensures Emitted(rows, schema, n).Err? <==>
      exists k :: 0 <= k < n && ColumnsOf(schema[k], rows[k]).Err?
    ensures forall k ::
      (0 <= k < n && ColumnsOf(schema[k], rows[k]).Err? &&
       forall j :: 0 <= j < k ==> ColumnsOf(schema[j], rows[j]).Ok?)
      ==> Emitted(rows, schema, n) == ColumnsOf(schema[k], rows[k])
  {
    if n > 0 {
      FirstFailureReported(rows, schema, n - 1);
    }
  }

  /** No rows at all: no columns, whatever the schema says. */
  lemma EmptyResultHasNoColumns(schema: seq<Field>)
    ensures Materialized([], schema) == Ok([])
  {
  }

  /** An INTEGER and a BOOLEAN column, with a None in each. */
  lemma IntegerAndBooleanExample()
    ensures Materialized(
      [[Int(1), Null, Int(3)], [Str("true"), Str("false"), Null]],
      [Field("a", "INTEGER", "NULLABLE"), Field("b", "BOOLEAN", "NULLABLE")])
      == Ok([Column("a", Float64, [Converted(FloatCast, Int(1)), Null, Converted(FloatCast, Int(3))]),
             Column("b", BoolDtype, [Bool(true), Bool(false), Null])])
  {
    var rows := [[Int(1), Null, Int(3)], [Str("true"), Str("false"), Null]];
    var schema := [Field("a", "INTEGER", "NULLABLE"), Field("b", "BOOLEAN", "NULLABLE")];
    var a := [Converted(FloatCast, Int(1)), Null, Converted(FloatCast, Int(3))];
    var b := [Bool(true), Bool(false), Null];
    assert CastCells(rows[0], FloatCast) == a;
    assert CastCells(rows[1], FlagCast) == b;
    assert ColumnsOf(schema[0], rows[0]) == Ok([Column("a", Float64, a)]);
    assert ColumnsOf(schema[1], rows[1]) == Ok([Column("b", BoolDtype, b)]);
    assert Admissible(rows, schema);
    assert Emitted(rows, schema, 0) == Ok([]);
    assert [] + [Column("a", Float64, a)] == [Column("a", Float64, a)];
    assert Emitted(rows, schema, 1) == Ok([Column("a", Float64, a)]);
    assert [Column("a", Float64, a)] + [Column("b", BoolDtype, b)]
        == [Column("a", Float64, a), Column("b", BoolDtype, b)];
    assert Emitted(rows, schema, 2) == Ok([Column("a", Float64, a), Column("b", BoolDtype, b)]);
  }

  /** A REPEATED column whose rows hold 2, 0 and 5 values expands into 5 columns. */
  lemma RepeatedLengthsTwoZeroFive(x: seq<Value>, cols: seq<Column>)
    requires |x| == 5 && forall i :: 0 <= i < 5 ==> x[i] != Null
    requires ColumnsOf(Field("r", "STRING", "REPEATED"), [Arr(x[..2]), Arr([]), Arr(x)]) == Ok(cols)
    ensures |cols| == 5
    ensures cols[4].name == "r_4"
    ensures forall i :: 0 <= i < 5 ==> cols[i].cells[1] == Null
    ensures forall i :: 0 <= i < 5 ==> cols[i].cells[2] == Converted(StrCast, x[i])
    ensures forall i :: 0 <= i < 2 ==> cols[i].cells[0] == Converted(StrCast, x[i])
    ensures forall i :: 2 <= i < 5 ==> cols[i].cells[0] == Null
  {
    var col := [Arr(x[..2]), Arr([]), Arr(x)];
    var f := Field("r", "STRING", "REPEATED");
    assert MaxLength(col) == 5 by {
      assert |col[2].items| == 5;
      assert MaxLength(col[..2]) <= 2;
    }
    RepeatedExpansion(f, col);
    assert DecimalString(4) == "4";
  }

  /**
   * The body of __to_df's loop for one schema entry: the physical columns it
   * appends, or the error cast_all_column raises for it.
   */
  method ExpandEntry(field: Field, rowValues: seq<Value>) returns (r: Result<seq<Column>>)
    requires ColumnAdmissible(field, rowValues)
    ensures r == ColumnsOf(field, rowValues)
  {
    var columnsData: seq<Column> := [];
    if field.mode == "REPEATED" {
      var maxRowLength := MaxLength(rowValues);
      for noInRow := 0 to maxRowLength
        invariant noInRow == 0 ==> columnsData == []
        invariant noInRow > 0 ==> ColumnsOf(field, rowValues).Ok?
        invariant noInRow > 0 ==> columnsData == ColumnsOf(field, rowValues).value[..noInRow]
      {
        var cast := CastAllColumn(rowValues, field.fieldType, Some(noInRow), |rowValues|);
        if cast.Err? {
          return Err(cast.error);
        }
        var (colValues, colNewType) := cast.value;
        assert colValues == colValues[..|rowValues|];
        columnsData := columnsData + [Column(field.name + "_" + DecimalString(noInRow), colNewType, colValues)];
        assert ColumnsOf(field, rowValues).value[..noInRow + 1]
            == ColumnsOf(field, rowValues).value[..noInRow] + [ColumnsOf(field, rowValues).value[noInRow]];
      }
      if maxRowLength > 0 {
        assert ColumnsOf(field, rowValues).value[..maxRowLength] == ColumnsOf(field, rowValues).value;
      }
    } else {
      var cast := CastAllColumn(rowValues, field.fieldType, None, |rowValues|);
      if cast.Err? {
        return Err(cast.error);
      }
      var (colValues, colNewType) := cast.value;
      columnsData := [Column(field.name, colNewType, colValues)];
    }
    return Ok(columnsData);
  }

  /**
   * __to_df: consume the raw columns one schema entry at a time (the deletion
   * of rows[0] is the advance of `remaining`), expanding REPEATED entries in
   * place, and collect the physical columns in order.
   */
  method ToDf(rows: seq<seq<Value>>, schema: seq<Field>) returns (r: Result<seq<Column>>)
    requires Admissible(rows, schema)
    ensures r == Materialized(rows, schema)
  {
    if |rows| == 0 {
      return Ok([]);
    }
    var remaining := rows;
    var columnsData: seq<Column> := [];
    for index := 0 to |schema|
      invariant remaining == rows[index..]
      invariant Emitted(rows, schema, index) == Ok(columnsData)
    {
      var field := schema[index];
      var rowValues := remaining[0];
      remaining := remaining[1..];
      var expanded := ExpandEntry(field, rowValues);
      if expanded.Err? {
        FirstFailureSticks(rows, schema, index + 1, |schema|);
        return Err(expanded.error);
      }
      columnsData := columnsData + expanded.value;
    }
    return Ok(columnsData);
  }
}

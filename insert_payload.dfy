/**
 * The streaming insert of BQLiteTable.insert_data: building the insertAll
 * request from the rows and the table schema, dropping None and NaN cells,
 * and extracting the per-row errors from the service's response. The POST
 * itself is not modelled; its response is an input.
 */
module InsertPayload {
  import opened Common

  /** One entry of the request's 'rows' list: {'json': ..., 'insertId': ...}. */
  datatype RowPayload = RowPayload(json: map<string, Value>, insertId: Option<Value>)

  /** The request body; an optional key that is absent is None. */
  datatype Request = Request(
    rows: seq<RowPayload>,
    skipInvalidRows: Option<Value>,
    ignoreUnknownValues: Option<Value>,
    templateSuffix: Option<Value>)

  /** An element of the response's insertErrors list. */
  datatype ReportedError = ReportedError(index: int, errors: Value)

  /** The response of the insertAll call; insertErrors is None when the key is absent. */
  datatype Response = Response(insertErrors: Option<seq<ReportedError>>)

  /** An element of the returned error list: {'index': ..., 'errors': ...}. */
  datatype RowError = RowError(index: int, errors: Value)

  /** What insert_data sends and what it returns. */
  datatype Insert = Insert(request: Request, errors: seq<RowError>)

  /** A cell is sent unless it is None or NaN. */
  predicate Kept(v: Value) {
    v != Null && SelfEqual(v)
  }

  /** The cell as sent: TIMESTAMP fields go through the timestamp conversion first. */
  function Prepared(f: Field, v: Value, convert: Value -> Value): Value {
    if f.fieldType == "TIMESTAMP" then convert(v) else v
  }

  /** zip(schema, row) stops at the shorter of the two. */
  function PairCount(schema: seq<Field>, row: seq<Value>): nat {
    if |schema| <= |row| then |schema| else |row|
  }

  /** row_info after the first n schema/value pairs. */
  function RowJson(schema: seq<Field>, row: seq<Value>, convert: Value -> Value, n: nat): map<string, Value>
    requires n <= |schema| && n <= |row|
  {
    if n == 0 then map[]
    else
      var json := RowJson(schema, row, convert, n - 1);
      var value := Prepared(schema[n - 1], row[n - 1], convert);
      if Kept(value) then json[schema[n - 1].name := value] else json
  }

  /** A key is present exactly when some considered field of that name has a kept value. */
  lemma {:induction false} RowJsonKeys(schema: seq<Field>, row: seq<Value>, convert: Value -> Value, n: nat)
    requires n <= |schema| && n <= |row|
    ensures forall x :: x in RowJson(schema, row, convert, n) <==>
      exists k :: 0 <= k < n && schema[k].name == x && Kept(Prepared(schema[k], row[k], convert))
  {
    if n > 0 {
      RowJsonKeys(schema, row, convert, n - 1);
    }
  }

  /**
   * A kept value is stored under its field's name unless a later field of the
   * same name is kept too and overrides it; a later namesake that is dropped
   * as None or NaN leaves it in place.
   */
  lemma {:induction false} RowJsonValue(schema: seq<Field>, row: seq<Value>, convert: Value -> Value, n: nat, k: nat)
    requires n <= |schema| && n <= |row| && k < n
    requires Kept(Prepared(schema[k], row[k], convert))
    requires forall j :: k < j < n && schema[j].name == schema[k].name ==> !Kept(Prepared(schema[j], row[j], convert))
    ensures schema[k].name in RowJson(schema, row, convert, n)
    ensures RowJson(schema, row, convert, n)[schema[k].name] == Prepared(schema[k], row[k], convert)
  {
    if k < n - 1 {
      RowJsonValue(schema, row, convert, n - 1, k);
    }
  }

  /** With unique field names: a field is present exactly when its prepared value is kept, and then holds it. */
  lemma RowJsonField(schema: seq<Field>, row: seq<Value>, convert: Value -> Value, k: nat)
    requires k < PairCount(schema, row)
    requires forall i, j :: 0 <= i < j < |schema| ==> schema[i].name != schema[j].name
    ensures var json := RowJson(schema, row, convert, PairCount(schema, row));
      && (schema[k].name in json <==> Kept(Prepared(schema[k], row[k], convert)))
      && (schema[k].name in json ==> json[schema[k].name] == Prepared(schema[k], row[k], convert))
  {
    var n := PairCount(schema, row);
    RowJsonKeys(schema, row, convert, n);
    if Kept(Prepared(schema[k], row[k], convert)) {
      RowJsonValue(schema, row, convert, n, k);
    }
  }

  /** Only the first n fields and values matter: anything past them is never looked at. */
  lemma {:induction false} RowJsonPrefixOnly(
    schema: seq<Field>, row: seq<Value>, schema': seq<Field>, row': seq<Value>, convert: Value -> Value, n: nat)
    requires n <= |schema| && n <= |row| && n <= |schema'| && n <= |row'|
    requires schema[..n] == schema'[..n] && row[..n] == row'[..n]
    ensures RowJson(schema, row, convert, n) == RowJson(schema', row', convert, n)
  {
    if n > 0 {
      assert schema[..n - 1] == schema[..n][..n - 1] && schema'[..n - 1] == schema'[..n][..n - 1];
      assert row[..n - 1] == row[..n][..n - 1] && row'[..n - 1] == row'[..n][..n - 1];
      assert schema[n - 1] == schema[..n][n - 1] && schema'[n - 1] == schema'[..n][n - 1];
      assert row[n - 1] == row[..n][n - 1] && row'[n - 1] == row'[..n][n - 1];
      RowJsonPrefixOnly(schema, row, schema', row', convert, n - 1);
    }
  }

  /** zip truncation: the payload of a row is that of the zipped prefix of the schema and the row. */
  lemma RowJsonTruncates(schema: seq<Field>, row: seq<Value>, convert: Value -> Value)
    ensures var n := PairCount(schema, row);
      RowJson(schema, row, convert, n) == RowJson(schema[..n], row[..n], convert, n)
  {
    var n := PairCount(schema, row);
    RowJsonPrefixOnly(schema, row, schema[..n], row[..n], convert, n);
  }

  /** The errors the response reports, or none when it has no insertErrors key. */
  function ReportedErrors(response: Response): seq<ReportedError> {
    match response.insertErrors
    case None => []
    case Some(errors) => errors
  }

  /**
   * insert_data: fails before building anything when the table has no schema;
   * otherwise builds one payload per row, in row order, with the optional
   * request flags set only when given, and returns the reported errors.
   */
  method InsertData(
    schema: seq<Field>,
    rows: seq<seq<Value>>,
    rowIds: Option<seq<Value>>,
    skipInvalidRows: Value,
    ignoreUnknownValues: Value,
    templateSuffix: Value,
    convert: Value -> Value,
    response: Response)
    returns (r: Result<Insert>)
    requires rowIds.Some? ==> |rows| <= |rowIds.value|
    ensures r.Err? <==> |schema| == 0
    ensures r.Err? ==> r.error == NoSchema
    ensures r.Ok? ==> |r.value.request.rows| == |rows|
    ensures r.Ok? ==> forall i :: 0 <= i < |rows| ==>
      r.value.request.rows[i].json == RowJson(schema, rows[i], convert, PairCount(schema, rows[i]))
    ensures r.Ok? ==> forall i :: 0 <= i < |rows| ==>
      (r.value.request.rows[i].insertId.Some? <==> rowIds.Some?)
    ensures r.Ok? && rowIds.Some? ==> forall i :: 0 <= i < |rows| ==>
      r.value.request.rows[i].insertId == Some(rowIds.value[i])
    ensures r.Ok? ==> (r.value.request.skipInvalidRows.Some? <==> skipInvalidRows != Null)
    ensures r.Ok? && r.value.request.skipInvalidRows.Some? ==> r.value.request.skipInvalidRows.value == skipInvalidRows
    ensures r.Ok? ==> (r.value.request.ignoreUnknownValues.Some? <==> ignoreUnknownValues != Null)
    ensures r.Ok? && r.value.request.ignoreUnknownValues.Some? ==>
      r.value.request.ignoreUnknownValues.value == ignoreUnknownValues
    ensures r.Ok? ==> (r.value.request.templateSuffix.Some? <==> templateSuffix != Null)
    ensures r.Ok? && r.value.request.templateSuffix.Some? ==> r.value.request.templateSuffix.value == templateSuffix
    ensures r.Ok? ==> |r.value.errors| == |ReportedErrors(response)|
    ensures r.Ok? ==> forall i :: 0 <= i < |r.value.errors| ==>
      r.value.errors[i] == RowError(ReportedErrors(response)[i].index, ReportedErrors(response)[i].errors)
  {
    if |schema| == 0 {
      return Err(NoSchema);
    }
    var rowsInfo: seq<RowPayload> := [];
    for index := 0 to |rows|
      invariant |rowsInfo| == index
      invariant forall i :: 0 <= i < index ==>
        rowsInfo[i].json == RowJson(schema, rows[i], convert, PairCount(schema, rows[i]))
      invariant forall i :: 0 <= i < index ==>
        rowsInfo[i].insertId == if rowIds.Some? then Some(rowIds.value[i]) else None
    {
      var row := rows[index];
      var rowInfo: map<string, Value> := map[];
      for k := 0 to PairCount(schema, row)
        invariant rowInfo == RowJson(schema, row, convert, k)
      {
        var field := schema[k];
        var value := row[k];
        if field.fieldType == "TIMESTAMP" {
          value := convert(value);
        }
        if value != Null && SelfEqual(value) {
          rowInfo := rowInfo[field.name := value];
        }
      }
      var insertId := None;
      if rowIds.Some? {
        insertId := Some(rowIds.value[index]);
      }
      rowsInfo := rowsInfo + [RowPayload(rowInfo, insertId)];
    }
    var data := Request(rowsInfo, None, None, None);
    if skipInvalidRows != Null {
      data := data.(skipInvalidRows := Some(skipInvalidRows));
    }
    if ignoreUnknownValues != Null {
      data := data.(ignoreUnknownValues := Some(ignoreUnknownValues));
    }
    if templateSuffix != Null {
      data := data.(templateSuffix := Some(templateSuffix));
    }
    var reported := ReportedErrors(response);
    var errors: seq<RowError> := [];
    for i := 0 to |reported|
      invariant |errors| == i
      invariant forall j :: 0 <= j < i ==> errors[j] == RowError(reported[j].index, reported[j].errors)
    {
      errors := errors + [RowError(reported[i].index, reported[i].errors)];
    }
    return Ok(Insert(data, errors));
  }
}

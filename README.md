# bqlite: result materialisation, schema inference and streaming insert

A Dafny model of the local logic of bqlite, a thin wrapper over the Google
BigQuery client for pandas users. Four parts are modelled. Everything else
in the wrapper is a direct call into the client library.

- **Result materialisation** (`BQLite.__to_df`, with `to_flg`,
  `cast_all_column` and `cast_column`). It takes the column-major raw values
  of a query result and the result schema. It returns an ordered list of
  named columns, each with the storage type handed to pandas. Field types are
  resolved through a fixed cast table, and an unknown type raises an error.
  A `REPEATED` entry expands into `name_0 .. name_{max_len-1}`. Schema entries
  consume the raw columns one at a time, in order.
- **Page merge** (`BQLite.read_bq`). Each fetched page of row tuples is
  transposed into columns, and each later page's columns are appended to the
  first page's.
- **Schema inference** (`BQLite.__to_bq_schema`). Each data frame column
  becomes a `NULLABLE` field, typed by its dtype kind through a total table
  with `STRING` as the fallback.
- **Streaming insert** (`BQLiteTable.insert_data`). It builds the `insertAll`
  request: one `{'json': ..., 'insertId': ...}` entry per row, with None and
  NaN cells dropped, TIMESTAMP cells converted first, and the optional request
  flags added only when given. It then extracts the per-row errors from the
  service's response.

Files:
- `common.dfy`: values, schema fields, `Option` and `Result`.
- `materialize.dfy`: `__to_df`.
- `page_merge.dfy`: the fetch-and-merge loop of `read_bq`.
- `schema_inference.dfy`: `__to_bq_schema`.
- `insert_payload.dfy`: `insert_data`.

How things are represented:
- Raw cells are the abstract `Value` type. `NaN` stands for a self-unequal
  float, and `Arr` is the nested list of a `REPEATED` cell.
- `float`, `str` and `pd.Timestamp` stay uninterpreted: casting `v` gives the
  term `Converted(caster, v)`. `to_flg` is computed exactly.
- `_convert_timestamp` of the client library is a parameter
  `convert: Value -> Value`.
- `del rows[0]` is the advance of a `remaining` sequence. The loop invariant
  says `remaining == rows[index..]`.

What `__to_df` relies on without checking, and how the model treats it:
- Schema entry k reads raw column k; raw columns past the last entry are
  never read. The precondition `Admissible` asks for `|schema| <= |rows|`
  whenever there are rows at all.
- A `REPEATED` entry whose rows are all empty lists adds no columns and
  raises nothing itself, even for an unknown type, because no cast is
  attempted.
- The repeated branch of `cast_column` sizes its result by the enclosing
  `row_values`, not by its own argument. `CastColumn` takes that size as a
  separate parameter, and `ExpandEntry` passes the length of the same column.

## Model

| member | source | states |
|---|---|---|
| `Materialize.FlagCastIsExactTrue` | bqlite/bqlite.py:194-195 | BOOLEAN casting gives true exactly for the text `'true'`; `'True'`, `'1'`, `'false'` and `''` give false |
| `Materialize.CastTableFixed` | bqlite/bqlite.py:198-207 | FLOAT and INTEGER cast with float to float64; STRING, DATETIME, DATE and TIME cast with str and no dtype; BOOLEAN uses to_flg and bool; TIMESTAMP uses Timestamp and datetime64[ns]; exactly these eight types are known |
| `Materialize.CastCells` | bqlite/bqlite.py:216-222 | a non-REPEATED column keeps its length; None stays None at the same index; every other cell is replaced by its cast |
| `Materialize.RepeatedCells` | bqlite/bqlite.py:230-233 | physical column i has one cell per row: element i of the row's nested list, cast, or None when the list is shorter or holds None there |
| `Materialize.MaxLength` | bqlite/bqlite.py:248 | the maximum nested length is at least every row's length and equals some row's length |
| `Materialize.DecimalString` | bqlite/bqlite.py:251 | the rendering of the column number is a non-empty string of decimal digits with no leading zero unless the number is 0 |
| `Materialize.DecimalRoundTrip` | bqlite/bqlite.py:251 | reading the rendered column number back gives the number |
| `Materialize.RepeatedNamesDistinct` | bqlite/bqlite.py:251 | the expanded columns `name_i` and `name_j` differ whenever i and j differ |
| `Materialize.CastColumn` | bqlite/bqlite.py:216-234 | non-REPEATED: the column overwritten by its casts; REPEATED: a list of the enclosing column's length, filled with entry `row_no` of each row and None past the given rows |
| `Materialize.CastAllColumn` | bqlite/bqlite.py:197-214 | fails exactly for a type missing from the cast table, with message `Not Support to type:<type>.`; otherwise returns the cast column and the table's storage type |
| `Materialize.ScalarColumnCast` | bqlite/bqlite.py:254-257 | a non-REPEATED entry of a known type gives one column under its own name and storage type, same length, None kept in place, the rest cast |
| `Materialize.UnknownTypeFails` | bqlite/bqlite.py:247-250 | an unknown type fails with a message naming it, except for a REPEATED entry whose maximum nested length is 0, which yields no columns and no error |
| `Materialize.RepeatedExpansion` | bqlite/bqlite.py:247-252 | a REPEATED entry gives exactly max_len columns named `name_0 .. name_{max_len-1}`, each as long as the row count, cell r of column i being the cast element i of row r or None |
| `Materialize.ExpandEntry` | bqlite/bqlite.py:241-257 | one pass of the loop body produces exactly the columns (or the error) that the entry's specification `ColumnsOf` prescribes |
| `Materialize.ToDf` | bqlite/bqlite.py:236-259 | the result of the whole loop equals `Materialized`: no columns for no rows, otherwise the entries' columns concatenated in schema order, or the first error |
| `Materialize.FirstFailureSticks` | bqlite/bqlite.py:239-257 | once an entry has failed, processing further entries cannot change the outcome |
| `Materialize.EmittedGrows` | bqlite/bqlite.py:239-257 | processing more schema entries only appends columns; earlier columns are never moved |
| `Materialize.EntryPlacement` | bqlite/bqlite.py:239-259 | on success, entry k consumed raw column k, and its columns sit in the output right after those of entries 0..k-1 |
| `Materialize.FirstFailureReported` | bqlite/bqlite.py:239-257 | materialisation fails exactly when some entry fails, and then with the error of the first failing entry in schema order |
| `Materialize.EmptyResultHasNoColumns` | bqlite/bqlite.py:236-237 | no raw columns give no output columns, whatever the schema |
| `Materialize.IntegerAndBooleanExample` | bqlite/bqlite.py:197-222 | INTEGER `[1, None, 3]` and BOOLEAN `['true', 'false', None]` become float64 `[float(1), None, float(3)]` and bool `[true, false, None]` |
| `Materialize.RepeatedLengthsTwoZeroFive` | bqlite/bqlite.py:226-251 | nested lengths 2, 0, 5 give 5 columns (the last named `r_4`); row 1 is None everywhere; row 0 has values in columns 0-1 and None in 2-4; row 2 has values everywhere |
| `PageMerge.RowWidth` | bqlite/bqlite.py:92 | `zip(*page)` yields as many columns as the shortest row is long, and none for an empty page |
| `PageMerge.Transpose` | bqlite/bqlite.py:95 | a transposed page has `RowWidth` columns, each as long as the page has rows |
| `PageMerge.FieldAcross` | bqlite/bqlite.py:93-97 | a merged column is as long as the total number of rows over all pages |
| `PageMerge.MergePages` | bqlite/bqlite.py:91-97 | after the loop there is one column per field of the first page; column j is field j of every row of every page, in fetch order; an empty first page gives no columns and later pages are dropped |
| `SchemaInference.KindMappingTotal` | bqlite/bqlite.py:263-275 | `i` gives INTEGER, `b` BOOLEAN, `f` FLOAT, `O`/`S`/`U` STRING, `M` TIMESTAMP, and every other kind gives STRING |
| `SchemaInference.InferredTypesAreReadable` | bqlite/bqlite.py:262-277 | every inferred type is in the read path's cast table |
| `SchemaInference.ToBqSchema` | bqlite/bqlite.py:261-277 | one field per column, in column order, named by the column, typed by its kind, mode NULLABLE, never REPEATED |
| `SchemaInference.InferAfterMaterialize` | bqlite/bqlite.py:255-256 | inferring the schema of a materialised non-REPEATED column gives FLOAT for FLOAT and INTEGER, STRING for the text-like types, and keeps BOOLEAN and TIMESTAMP |
| `InsertPayload.RowJsonKeys` | bqlite/bqlite_table.py:24-33 | a row's json has a key exactly when some zipped field of that name has a value, after conversion, that is neither None nor NaN |
| `InsertPayload.RowJsonValue` | bqlite/bqlite_table.py:31-33 | a kept value is stored under its field's name when no later field of the same name has a kept value; a later namesake that is None or NaN leaves it in place |
| `InsertPayload.RowJsonField` | bqlite/bqlite_table.py:24-33 | with unique field names, field k is present exactly when its converted value is kept, and then holds that value; TIMESTAMP fields are converted before the check |
| `InsertPayload.RowJsonPrefixOnly` | bqlite/bqlite_table.py:24 | the json of a row depends only on the first n fields and values |
| `InsertPayload.RowJsonTruncates` | bqlite/bqlite_table.py:24 | only the first `min(len(schema), len(row))` pairs are considered |
| `InsertPayload.InsertData` | bqlite/bqlite_table.py:6-60 | an empty schema fails before anything is built; otherwise one payload per row in order, insertId present exactly when row ids are given, optional flags present exactly when not None, `rows` always present, errors one per reported error in response order, empty when the key is absent |

## Left out

- All calls into the BigQuery client: creating clients, dataset and table existence, create, delete and reload, running queries, `fetch_data` and the `insertAll` POST. These are network I/O. The fetched pages and the insert response are plain inputs.
- Continuation tokens and `total_rows`: the pages are given in fetch order as a list. Its first element is the result of the first `fetch_data`.
- Job polling in `read_to_bq` and `__wait_for_job`. They depend on `time.sleep`, remote job state and a float timeout budget.
- Credential resolution, logging, and the `table.__class__ = BQLiteTable` reassignment in `to_bq`.
- `float`, `str`, `pd.Timestamp` and `_convert_timestamp` are uninterpreted. Whether a parse succeeds or raises is not modelled.
- The `pd.Series` construction and `pd.DataFrame.from_items`. A column is the cast list with the dtype it is handed to pandas with. pandas' own coercion of None (to NaN under float64, to False under bool) is not modelled.
- `SchemaInference.InferAfterMaterialize`: the dtype kind pandas reports for a materialised column is taken from the dtype alone (object `O` for no dtype), not derived from pandas' inference.
- `Materialize.ToDf`: when there are rows but no schema entry emits a column (an empty schema, or only `REPEATED` entries whose rows are all empty lists), `pd.DataFrame.from_items([])` raises a ValueError in the pandas versions that have it; the model returns `Ok([])` there, because pandas is not part of this model.
- `Materialize.Admissible`: fewer raw columns than schema entries is excluded; there `rows[0]` raises an IndexError once the raw columns run out.
- `Materialize.Admissible`: a REPEATED column with no rows at all is excluded; there `max([])` raises a ValueError.
- `Materialize.Admissible`: the check for a missing row number inside the repeated branch of `cast_column` can never fire and is not modelled.
- `Materialize.Admissible`: a REPEATED cell that is not a list is excluded. The source would raise on None or a number, and it would index a string character by character.
- `PageMerge.MergePages`: a later page narrower than the first, including an empty later page after a non-empty first one, is excluded by its precondition `Mergeable`; there the source raises an IndexError at `tmp_rows[row_index]` in the merge loop.
- `InsertPayload.InsertData`: `int(error['index'])` is taken as the identity on the integer index the service reports. `row_ids` shorter than the rows (an IndexError in the source) is excluded by its precondition. `_require_client` is not modelled.
- `Common.SelfEqual`: a cast result (`Converted` term) counts as self-equal, even where `float` of a NaN text would give a value not equal to itself; no property here feeds read-path output into the insert path.
- setup.py: packaging metadata only.

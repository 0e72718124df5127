/**
 * Values, schema fields and failure results shared by the read path
 * (result materialisation, page merge), the schema inference and the
 * streaming insert of bqlite.
 */
module Common {

  datatype Option<+T> = None | Some(value: T)

  /** The native conversion a logical column type is read with. */
  datatype Caster =
    | StrCast        // Python's str
    | FloatCast      // Python's float
    | FlagCast       // the local to_flg: equality with 'true'
    | TimestampCast  // pandas' Timestamp constructor

  /**
   * A cell as the warehouse client hands it over (or as a data frame holds it).
   * Conversions whose semantics lie outside this model (float parsing,
   * timestamp parsing, str) are kept symbolic: `Converted(c, v)` is the
   * opaque result of applying `c` to `v`.
   */
  datatype Value =
    | Null                         // Python's None
    | Str(s: string)
    | Int(i: int)
    | Bool(b: bool)
    | NaN                          // any value not equal to itself, cast results included
    | Arr(items: seq<Value>)       // the nested list of a REPEATED cell
    | Converted(caster: Caster, arg: Value)

  /**
   * `value == value` in Python. `NaN` stands for every self-unequal value,
   * cast results included; a symbolic `Converted` term is taken to be
   * self-equal, so a cast that would yield NaN is not told apart here.
   */
  predicate SelfEqual(v: Value) {
    !v.NaN?
  }

  /** A schema entry: name, BigQuery field type and mode, all as the service spells them. */
  datatype Field = Field(name: string, fieldType: string, mode: string)

  datatype Error =
    | UnsupportedType(message: string)  // raised by the cast lookup of the read path
    | NoSchema                          // ValueError raised by insert_data for a schema-less table

  datatype Result<+T> = Ok(value: T) | Err(error: Error)
}

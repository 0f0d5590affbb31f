/** Decoded records: Python dictionaries from field name to a scalar value. */
module Records {
  import opened Text
  import opened Clock

  /** A cell value. `Null` is Python's None (and pandas' NaN once a table is loaded). */
  datatype Value = Null | Text(s: string) | Time(minute: Minute) | Int(n: int)

  /** A decoded line or a stop row: a dictionary keyed by field name. */
  type Record = map<string, Value>

  /** Why a run aborts. */
  datatype Error =
    | UnknownRecord(line: string)        // no layout for the line's tag: sys.exit(1)
    | MalformedTime(line: string)        // strict HHMM parse failed: ValueError
    | MissingField(key: string)          // dictionary lookup of an absent key: KeyError
    | MissingStop(count: nat)            // id_list[0] or id_list[1] out of range: IndexError
    | BadClock(hour: int, minute: int)   // datetime.time(hour, minute) out of range: ValueError

  /** A column read that yields None/NaN when the field is absent. */
  function Get(r: Record, k: string): Value {
    if k in r then r[k] else Null
  }

  /** Python's str() of a value. */
  function Str(v: Value): string {
    match v
    case Null => "None"
    case Text(s) => s
    case Time(m) => TimeToString(m)
    case Int(n) => IntToString(n)
  }
}

/** Scalar JSON values, optional dict entries and node references, as the tools read them. */
module Values {
  import opened Basics

  datatype Value = Null | Bool(b: bool) | Int(n: int) | Text(s: string)

  /** One entry of a dict. */
  datatype Field = Absent | Given(value: Value)

  /** The value of the entry, or the default when it is missing. */
  function Get(f: Field, default: Value): Value {
    if f.Given? then f.value else default
  }

  predicate Truthy(v: Value) {
    match v
    case Null => false
    case Bool(b) => b
    case Int(n) => n != 0
    case Text(s) => s != ""
  }

  /** The printed form of a scalar. */
  function Str(v: Value): string {
    match v
    case Null => "None"
    case Bool(b) => if b then "True" else "False"
    case Int(n) => if n < 0 then "-" + Decimal(-n) else Decimal(n)
    case Text(s) => s
  }

  /** A node reference: a dict of scalars, or something that is not a dict. */
  datatype Endpoint = Dict(fields: map<string, Value>) | Plain(v: Value)

  function Entry(fields: map<string, Value>, name: string): Field {
    if name in fields then Given(fields[name]) else Absent
  }
}

/** Field values as they cross the backend's wire, and rows of them. */
module Values {
  import opened Options
  import opened Text

  /** `Null` is Python's `None`; Odoo reads an empty scalar field as `Flag(false)`. */
  datatype Value = Null | Flag(b: bool) | Num(n: int) | Text(s: string)

  type Row = map<string, Value>

  /** `row.get(field)`. */
  function Field(row: Row, field: string): Value {
    if field in row then row[field] else Null
  }

  predicate Truthy(v: Value) {
    match v
    case Null => false
    case Flag(b) => b
    case Num(n) => n != 0
    case Text(s) => s != ""
  }

  /** `str(v)`. */
  function Show(v: Value): string {
    match v
    case Null => "None"
    case Flag(b) => if b then "True" else "False"
    case Num(n) => Numeral(n)
    case Text(s) => s
  }

  function AsNumber(v: Value): int
    requires v.Flag? || v.Num?
  {
    match v
    case Flag(b) => if b then 1 else 0
    case Num(n) => n
  }

  predicate Numeric(v: Value) {
    v.Flag? || v.Num?
  }

  /** Python's `==`: a boolean equals the integer it stands for. */
  predicate Same(a: Value, b: Value) {
    a == b || (Numeric(a) && Numeric(b) && AsNumber(a) == AsNumber(b))
  }

  /** Python's `a < b`; None of the option where Python raises TypeError. */
  function LessThan(a: Value, b: Value): Option<bool> {
    if Numeric(a) && Numeric(b) then Some(AsNumber(a) < AsNumber(b))
    else if a.Text? && b.Text? then Some(Less(a.s, b.s))
    else None
  }
}

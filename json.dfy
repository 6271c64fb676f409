/** A parsed JSON document as Python's `json` module hands it to the request
    handler, and Python's `float(x)` on such values. */
module Json {
  import opened Wrappers

  /** A Python float: finite, an infinity (Python's json accepts `Infinity`,
      `-Infinity` and overflowing literals such as `1e400`), or NaN. */
  datatype Float = Finite(value: real) | Infinite(negative: bool) | NaN

  /** `np.isfinite(x)`. */
  predicate IsFinite(f: Float) {
    f.Finite?
  }

  /** JSON integers stay Python ints; other JSON numbers become floats. */
  datatype Json =
    | Null
    | Bool(b: bool)
    | Int(i: int)
    | Num(f: Float)
    | Str(s: string)
    | List(items: seq<Json>)
    | Obj(fields: map<string, Json>)

  /** What `float(x)` does: return a float, raise ValueError or TypeError
      (the two exceptions app.py catches around its conversion), or raise
      OverflowError, which nothing in app.py's validator catches. */
  datatype Conversion = Converted(value: Float) | Rejects | Raises

  /** The least int magnitude that `float(int)` refuses with OverflowError,
      2^1024 - 2^970: halfway between the largest double, 2^1024 - 2^971, and
      2^1024, where round-half-even rounds up to 2^1024. */
  const OverflowThreshold: int :=
    0xFFFFFFFFFFFFFC00_0000000000000000_0000000000000000_0000000000000000_0000000000000000_0000000000000000_0000000000000000_0000000000000000_0000000000000000_0000000000000000_0000000000000000_0000000000000000_0000000000000000_0000000000000000_0000000000000000_0000000000000000

  function Abs(i: int): nat {
    if i < 0 then -i else i
  }

  /** `float(x)` for a JSON value. `parse` is Python's parsing of a float from
      text (`"1.5"`, `" 2 "`, `"inf"`, `"nan"`), left abstract; None stands for
      its ValueError. A bool is an int in Python, so `float(True) == 1.0`.
      An int converts to exactly `i as real`; CPython agrees for magnitudes up
      to 2^53 and rounds larger ones to the nearest double, which is not modelled. */
  function ToFloat(parse: string -> Option<Float>, x: Json): (c: Conversion)
    ensures c.Raises? <==> x.Int? && Abs(x.i) >= OverflowThreshold
    ensures x.Num? ==> c == Converted(x.f)
    ensures c.Rejects? <==> x.Null? || x.List? || x.Obj? || (x.Str? && parse(x.s).None?)
    ensures x.Int? && c.Converted? ==> c.value == Finite(x.i as real)
    ensures x.Str? && parse(x.s).Some? ==> c == Converted(parse(x.s).value)
    ensures x.Bool? ==> c == Converted(Finite(if x.b then 1.0 else 0.0))
  {
    match x
    case Null => Rejects
    case Bool(b) => Converted(Finite(if b then 1.0 else 0.0))
    case Int(i) => if Abs(i) >= OverflowThreshold then Raises else Converted(Finite(i as real))
    case Num(f) => Converted(f)
    case Str(s) => (
      match parse(s)
      case None => Rejects
      case Some(f) => Converted(f))
    case List(_) => Rejects
    case Obj(_) => Rejects
  }
}

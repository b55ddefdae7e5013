/**
 * Scalar values and comparison conditions of a hazard (src/condition.rs), and the
 * conversions from Rust's native scalar types into a `Value`.
 */
module Conditions {
  import opened Wrappers

  /** A `serde_json::Number`: an integer, or a finite floating-point number. */
  datatype Number = Int(i: int) | Real(r: real)

  /** The value a condition compares against: a boolean, a JSON number or a string. */
  datatype Value = Bool(b: bool) | Number(n: Number) | String(s: string)

  /** The comparison operators. There is no equality operator: equality is `Condition.Value`. */
  datatype Operation = Lt | Le | Ne | Gt | Ge

  /** An explicit comparison of the pointed-to data against `value` with `op`. */
  datatype Expr = Expr(value: Value, op: Operation)

  /** A condition is either a bare value (implicit equality) or an explicit expression. */
  datatype Condition = Value(value: Value) | Expr(expr: Expr)

  /** A Rust `f64` (or `f32`) seen through its IEEE 754 class. */
  datatype Float = Finite(r: real) | Infinite(negative: bool) | NaN

  /** The error of converting a non-finite float: it is not a valid JSON number. */
  datatype InvalidFloat = InvalidFloat

  /** The Rust integer types that convert into a `Value` (`isize`/`usize` taken as 64-bit). */
  datatype IntType = I8 | U8 | I16 | U16 | I32 | U32 | I64 | U64 | Isize | Usize

  /** The range of values a Rust integer of type `t` can hold. */
  predicate InRange(x: int, t: IntType) {
    match t
    case I8 => -0x80 <= x < 0x80
    case U8 => 0 <= x < 0x100
    case I16 => -0x8000 <= x < 0x8000
    case U16 => 0 <= x < 0x1_0000
    case I32 => -0x8000_0000 <= x < 0x8000_0000
    case U32 => 0 <= x < 0x1_0000_0000
    case I64 | Isize => -0x8000_0000_0000_0000 <= x < 0x8000_0000_0000_0000
    case U64 | Usize => 0 <= x < 0x1_0000_0000_0000_0000
  }

  /**
   * A Rust value of one of the types with a conversion into `Value`: `bool`, `&'static str`,
   * `String`, `serde_json::Number`, an integer type, `f32` or `f64`.
   */
  datatype Native =
    | BoolIn(b: bool)
    | StrIn(s: string)
    | StringIn(s: string)
    | NumberIn(n: Number)
    | IntIn(x: int, t: IntType)
    | F32In(f: Float)
    | F64In(f: Float)

  /** A native value: an integer lies in the range of its type. */
  type Input = n: Native | n.IntIn? ==> InRange(n.x, n.t) witness BoolIn(false)

  /** `From<bool>`: a boolean becomes `Value::Bool` with the same flag. */
  function FromBool(b: bool): (v: Value)
    ensures v.Bool? && v.b == b
  {
    Value.Bool(b)
  }

  /** `From<String>` and `From<&'static str>`: the text becomes `Value::String` unchanged. */
  function FromString(s: string): (v: Value)
    ensures v.String? && v.s == s
  {
    Value.String(s)
  }

  /** `From<serde_json::Number>`: the number is kept as it is. */
  function FromNumber(n: Number): (v: Value)
    ensures v.Number? && v.n == n
  {
    Value.Number(n)
  }

  /** `From` for every integer type: infallible, and the number is the same integer. */
  function FromInteger(x: int, t: IntType): (v: Value)
    requires InRange(x, t)
    ensures v.Number? && v.n.Int? && v.n.i == x
  {
    Value.Number(Int(x))
  }

  /**
   * `TryFrom<f64>`: `serde_json::Number::from_f64` refuses NaN and the infinities, so the
   * conversion fails exactly for those; a finite float becomes a number of the same value.
   */
  function TryFromF64(x: Float): (r: Result<Value, InvalidFloat>)
    ensures r.Failure? <==> (x.NaN? || x.Infinite?)
    ensures r.Success? ==> r.value.Number? && r.value.n == Real(x.r)
  {
    match x
    case Finite(v) => Success(Value.Number(Real(v)))
    case _ => Failure(InvalidFloat)
  }

  /**
   * `TryFrom<f32>`: the float is widened to `f64` first. Widening is exact and keeps NaN and
   * the infinities, so `x` stands for its own widening and the outcome is that of `f64`.
   */
  function TryFromF32(x: Float): (r: Result<Value, InvalidFloat>)
    ensures r.Failure? <==> (x.NaN? || x.Infinite?)
    ensures r.Success? ==> r.value.Number? && r.value.n == Real(x.r)
  {
    TryFromF64(x)
  }

  /**
   * `value.try_into()` as the condition builder calls it: the conversion of whichever native
   * type the caller supplied. Only a non-finite float fails, and a successful conversion keeps
   * the kind of the input (boolean, text or number).
   */
  function TryInto(x: Input): (r: Result<Value, InvalidFloat>)
    ensures r.Failure? <==> ((x.F32In? || x.F64In?) && !x.f.Finite?)
    ensures r.Success? ==> (r.value.Bool? <==> x.BoolIn?)
    ensures r.Success? ==> (r.value.String? <==> (x.StrIn? || x.StringIn?))
    ensures r.Success? && x.BoolIn? ==> r.value.b == x.b
    ensures r.Success? && (x.StrIn? || x.StringIn?) ==> r.value.s == x.s
    ensures r.Success? && x.IntIn? ==> r.value == Value.Number(Int(x.x))
    ensures r.Success? && x.NumberIn? ==> r.value == Value.Number(x.n)
    ensures r.Success? && (x.F32In? || x.F64In?) ==> r.value == Value.Number(Real(x.f.r))
  {
    match x
    case BoolIn(b) => Success(FromBool(b))
    case StrIn(s) => Success(FromString(s))
    case StringIn(s) => Success(FromString(s))
    case NumberIn(n) => Success(FromNumber(n))
    case IntIn(i, t) => Success(FromInteger(i, t))
    case F32In(f) => TryFromF32(f)
    case F64In(f) => TryFromF64(f)
  }
}

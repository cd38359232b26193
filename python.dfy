/**
 * The parts of the Python runtime that the converters call but that this model
 * does not re-implement: float parsing and printing, ISO-8601 parsing and the
 * float arithmetic of timestamps. They are passed in as a `Runtime` value, so
 * every property proved here holds whatever these functions return.
 */
module Python {
  import opened Wrappers
  import opened Text

  /** A 64-bit IEEE 754 float, given by its bit pattern. */
  datatype Float = Float(bits: bv64)

  /** 1.0 and 0.0, which is what `float(True)` and `float(False)` return. */
  const FloatOne := Float(0x3FF0_0000_0000_0000)
  const FloatZero := Float(0)

  /** A scalar of a flat record, as JSON decoding produces it. */
  datatype Scalar =
    | Null
    | Bool(b: bool)
    | Int(i: int)
    | Real(x: Float)
    | Str(s: string)

  /** The library functions the converters rely on. `None` stands for "raises ValueError". */
  datatype Runtime = Runtime(
    // float(s) for a str s
    parseFloat: string -> Option<Float>,
    // float(i) for an int i that does not overflow
    intToFloat: int -> Float,
    // int(x) for a float x, truncating toward zero; None for NaN and the infinities
    floatToInt: Float -> Option<int>,
    // str(x) for a float x (the same text as repr(x) and as an f-string)
    floatRepr: Float -> string,
    // int(datetime.fromisoformat(s).timestamp() * 1000)
    isoMillis: string -> Option<int>,
    // int(float(s) * 1000)
    secondsToMillis: string -> Option<int>
  )

  /**
   * 2^1024 - 2^970, halfway between the largest finite double and 2^1024: an
   * int at least this large in magnitude rounds past every finite double.
   */
  const FloatOverflowBound: int := 0xFFFFFFFFFFFFFC00000000000000000000000000000000000000000000000000000000000000000000000000000000000000000000000000000000000000000000000000000000000000000000000000000000000000000000000000000000000000000000000000000000000000000000000000000000000000000000000000

  /** `float(i)` raises OverflowError for this int. */
  predicate FloatOverflows(i: int) {
    i >= FloatOverflowBound || -i >= FloatOverflowBound
  }

  /** Why `float(v)` raises: ValueError or TypeError (`Rejected`), or OverflowError (`TooLarge`). */
  datatype FloatError = Rejected | TooLarge

  /** `float(v)`: `None` and bad strings are rejected, ints too large for a double overflow. */
  function ToFloat(rt: Runtime, v: Scalar): Result<Float, FloatError> {
    match v
    case Null => Failure(Rejected)
    case Bool(b) => Success(if b then FloatOne else FloatZero)
    case Int(i) => if FloatOverflows(i) then Failure(TooLarge) else Success(rt.intToFloat(i))
    case Real(x) => Success(x)
    case Str(s) => if rt.parseFloat(s).Some? then Success(rt.parseFloat(s).value) else Failure(Rejected)
  }

  /** `str(v)` */
  function ToStr(rt: Runtime, v: Scalar): string {
    match v
    case Null => "None"
    case Bool(b) => if b then "True" else "False"
    case Int(i) => IntToString(i)
    case Real(x) => rt.floatRepr(x)
    case Str(s) => s
  }
}

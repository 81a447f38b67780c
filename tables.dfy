/** Cell values of the tables the scripts read with `pandas.read_csv`. */
module Tables {
  import opened Wrappers

  /** A cell of a count column: an integer, NaN where the CSV field is empty,
      or a float when the column holds fractions. */
  datatype Cell = Missing | Count(n: int) | Float(x: real)

  /** A cell the scripts carry through without interpreting it (coordinates,
      population rates, codes, free text); its content stays opaque. */
  datatype Value = Null | Str(text: string) | Number(literal: string)

  /** pandas refuses to cast NaN to int64 (IntCastingNaNError). */
  datatype CastError = NonFiniteValue

  predicate Present(c: Cell) {
    !c.Missing?
  }

  /** `astype("int64")` of one cell: an integer stays as it is, a float is
      truncated toward zero, and a missing cell is an error rather than a zero. */
  function ToInt64(c: Cell): (r: Result<int, CastError>)
    ensures r.Success? <==> Present(c)
    ensures c.Count? ==> r == Success(c.n)
    ensures c.Float? && c.x >= 0.0 ==> 0 <= r.value && r.value as real <= c.x < r.value as real + 1.0
    ensures c.Float? && c.x < 0.0 ==> r.value <= 0 && r.value as real - 1.0 < c.x <= r.value as real
  {
    match c
    case Missing => Failure(NonFiniteValue)
    case Count(n) => Success(n)
    case Float(x) => Success(if x >= 0.0 then x.Floor else -((-x).Floor))
  }
}

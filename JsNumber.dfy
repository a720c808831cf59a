/**
 * JavaScript numbers as far as the inventory code uses them: a finite
 * magnitude or NaN (what `parseFloat` yields for unparsable text).
 * Floating-point rounding, infinities and -0 are not modelled.
 */
module JsNumber {

  datatype Number = Finite(value: real) | NaN

  const Zero: Number := Finite(0.0)
  const One: Number := Finite(1.0)

  /** JavaScript `a <= b`: false as soon as either side is NaN, so not the negation of `b < a`. */
  predicate Le(a: Number, b: Number)
    ensures Le(a, b) <==> Lt(a, b) || (a.Finite? && a == b)
    ensures a.Finite? && b.Finite? ==> (Le(a, b) <==> !Lt(b, a))
    ensures Lt(a, b) ==> !Lt(b, a)
    ensures a.NaN? || b.NaN? ==> !Le(a, b) && !Lt(a, b) && !Lt(b, a)
  {
    a.Finite? && b.Finite? && a.value <= b.value
  }

  /** JavaScript `a < b`: false as soon as either side is NaN, and irreflexive. */
  predicate Lt(a: Number, b: Number): (r: bool)
    ensures r ==> a.Finite? && b.Finite? && a != b
  {
    a.Finite? && b.Finite? && a.value < b.value
  }

  /** JavaScript `a + b`: NaN is contagious. */
  function Add(a: Number, b: Number): (r: Number)
    ensures r.NaN? <==> a.NaN? || b.NaN?
    ensures r.Finite? ==> r.value - a.value == b.value
  {
    if a.Finite? && b.Finite? then Finite(a.value + b.value) else NaN
  }

  /** JavaScript `a - b`: NaN is contagious. */
  function Sub(a: Number, b: Number): (r: Number)
    ensures r.NaN? <==> a.NaN? || b.NaN?
    ensures r.Finite? ==> r.value + b.value == a.value
  {
    if a.Finite? && b.Finite? then Finite(a.value - b.value) else NaN
  }

  /** JavaScript `Math.max(a, b)`: NaN if either argument is NaN, else the larger. */
  function Max(a: Number, b: Number): (r: Number)
    ensures r.NaN? <==> a.NaN? || b.NaN?
    ensures r.Finite? ==> r.value >= a.value && r.value >= b.value
    ensures r.Finite? ==> r == a || r == b
  {
    if a.NaN? || b.NaN? then NaN
    else if a.value >= b.value then a
    else b
  }

  /** JavaScript unary minus. */
  function Negate(a: Number): (r: Number)
    ensures r.NaN? <==> a.NaN?
    ensures r.Finite? ==> r.value + a.value == 0.0
  {
    if a.Finite? then Finite(-a.value) else NaN
  }
}

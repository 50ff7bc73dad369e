/** The JavaScript number primitives the calculator relies on, kept abstract.
    The calculator never inspects a number itself: it parses operand text with
    `parseFloat`, tests the result with `isNaN` and `=== 0`, combines two numbers
    with `+ - * /`, and turns a number back into text with `toString` or
    `toFixed(8)`. Their floating-point behaviour is not modelled; a value of
    `Arith<N>` supplies them for some number type `N`. */
module JsNumber {

  datatype Arith<!N> = Arith(
    parseFloat: string -> N,   // total, like JavaScript's parseFloat: bad text yields NaN
    isNaN: N -> bool,
    isZero: N -> bool,         // `x === 0`
    add: (N, N) -> N,
    sub: (N, N) -> N,
    mul: (N, N) -> N,
    div: (N, N) -> N,
    hundred: N,                // the literal 100
    toString: N -> string,     // Number.prototype.toString()
    toFixed8: N -> string      // Number.prototype.toFixed(8)
  )

  /** JavaScript's conversions never produce empty text. */
  ghost predicate TextNeverEmpty<N(!new)>(a: Arith<N>)
  {
    forall x :: a.toString(x) != "" && a.toFixed8(x) != ""
  }

  /** JavaScript's `parseFloat("")` is NaN. */
  predicate EmptyIsNaN<N>(a: Arith<N>)
  {
    a.isNaN(a.parseFloat(""))
  }
}

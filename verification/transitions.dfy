/** The calculator's state and its six actions as functions from the state
    before to the state after. These are the specification the class in
    module CalculatorState is proved against. */
module Transitions {
  import opened JsNumber
  import opened Text
  import opened Format

  datatype Option<T> = None | Some(value: T)

  /** The operator glyphs `compute` recognises. */
  const Plus: string := "+"
  const Minus: string := "-"
  const Times: string := "×"
  const Divide: string := "÷"

  predicate IsOperator(operation: Option<string>)
  {
    operation == Some(Plus) || operation == Some(Minus) ||
    operation == Some(Times) || operation == Some(Divide)
  }

  /** The four module-level variables; `operation` is None when undefined. */
  datatype State = State(
    currentOperand: string,
    previousOperand: string,
    operation: Option<string>,
    shouldResetScreen: bool)

  /** The state at start-up and after `clear`. */
  const Initial: State := State("0", "", None, false)

  /** The operand a new digit is appended to: the display is emptied first
      when the reset flag is set. */
  function Base(s: State): string
  {
    if s.shouldResetScreen then "" else s.currentOperand
  }

  function AppendNumber(s: State, number: string): (r: State)
    ensures r.previousOperand == s.previousOperand && r.operation == s.operation
    ensures !r.shouldResetScreen
    ensures number == "." && '.' in s.currentOperand && !s.shouldResetScreen ==> r == s
    ensures number == "." && '.' !in Base(s) ==> r.currentOperand == Base(s) + "."
    ensures number != "." && Base(s) == "0" ==> r.currentOperand == number
    ensures number != "." && Base(s) != "0" ==> r.currentOperand == Base(s) + number
    ensures |number| > 0 ==> |r.currentOperand| > 0
  {
    var base := Base(s);
    if number == "." && '.' in base then s.(currentOperand := base, shouldResetScreen := false)
    else if base == "0" && number != "." then s.(currentOperand := number, shouldResetScreen := false)
    else s.(currentOperand := base + number, shouldResetScreen := false)
  }

  /** What the `switch (operation)` of compute does with two parsed operands. */
  datatype Outcome<N> = Ignored | DivisionByZero | Value(result: N)

  function Operate<N>(a: Arith<N>, operation: Option<string>, prev: N, current: N): (o: Outcome<N>)
    ensures o.Ignored? <==> !IsOperator(operation)
    ensures o.DivisionByZero? <==> operation == Some(Divide) && a.isZero(current)
    ensures operation == Some(Plus) ==> o == Value(a.add(prev, current))
    ensures operation == Some(Minus) ==> o == Value(a.sub(prev, current))
    ensures operation == Some(Times) ==> o == Value(a.mul(prev, current))
    ensures operation == Some(Divide) && !a.isZero(current) ==> o == Value(a.div(prev, current))
  {
    if operation == Some(Plus) then Value(a.add(prev, current))
    else if operation == Some(Minus) then Value(a.sub(prev, current))
    else if operation == Some(Times) then Value(a.mul(prev, current))
    else if operation == Some(Divide) then
      if a.isZero(current) then DivisionByZero else Value(a.div(prev, current))
    else Ignored
  }

  /** Either operand fails to parse. */
  predicate Unparsable<N>(a: Arith<N>, s: State)
  {
    a.isNaN(a.parseFloat(s.previousOperand)) || a.isNaN(a.parseFloat(s.currentOperand))
  }

  function Compute<N>(a: Arith<N>, s: State): (r: State)
    ensures Unparsable(a, s) || !IsOperator(s.operation) ==> r == s
    ensures !Unparsable(a, s) && s.operation == Some(Divide) && a.isZero(a.parseFloat(s.currentOperand))
            ==> r == Initial
    ensures !Unparsable(a, s) && IsOperator(s.operation) &&
            !(s.operation == Some(Divide) && a.isZero(a.parseFloat(s.currentOperand))) ==>
            r.previousOperand == "" && r.operation == None && r.shouldResetScreen
    ensures !Unparsable(a, s) && s.operation == Some(Plus) ==>
            r.currentOperand == FormatNumber(a, a.add(a.parseFloat(s.previousOperand), a.parseFloat(s.currentOperand)))
    ensures !Unparsable(a, s) && s.operation == Some(Minus) ==>
            r.currentOperand == FormatNumber(a, a.sub(a.parseFloat(s.previousOperand), a.parseFloat(s.currentOperand)))
    ensures !Unparsable(a, s) && s.operation == Some(Times) ==>
            r.currentOperand == FormatNumber(a, a.mul(a.parseFloat(s.previousOperand), a.parseFloat(s.currentOperand)))
    ensures !Unparsable(a, s) && s.operation == Some(Divide) && !a.isZero(a.parseFloat(s.currentOperand)) ==>
            r.currentOperand == FormatNumber(a, a.div(a.parseFloat(s.previousOperand), a.parseFloat(s.currentOperand)))
  {
    var prev := a.parseFloat(s.previousOperand);
    var current := a.parseFloat(s.currentOperand);
    if a.isNaN(prev) || a.isNaN(current) then s
    else match Operate(a, s.operation, prev, current)
      case Ignored => s
      case DivisionByZero => Initial
      case Value(n) => State(FormatNumber(a, n), "", None, true)
  }

  function ChooseOperation<N>(a: Arith<N>, s: State, op: string): (r: State)
    ensures s.currentOperand == "" ==> r == s
    ensures s.currentOperand != "" ==>
            r.operation == Some(op) && r.shouldResetScreen && r.previousOperand == r.currentOperand
    ensures s.currentOperand != "" && s.previousOperand == "" ==> r.currentOperand == s.currentOperand
    ensures s.currentOperand != "" && s.previousOperand != "" ==> r.currentOperand == Compute(a, s).currentOperand
  {
    if s.currentOperand == "" then s
    else
      var t := if s.previousOperand != "" then Compute(a, s) else s;
      t.(operation := Some(op), previousOperand := t.currentOperand, shouldResetScreen := true)
  }

  function CalculatePercentage<N>(a: Arith<N>, s: State): (r: State)
    ensures s.currentOperand == "0" || s.currentOperand == "" ==> r == s
    ensures r.previousOperand == s.previousOperand && r.operation == s.operation
    ensures r.shouldResetScreen == s.shouldResetScreen
    ensures s.currentOperand != "0" && s.currentOperand != "" ==>
            r.currentOperand == FormatNumber(a, a.div(a.parseFloat(s.currentOperand), a.hundred))
  {
    if s.currentOperand == "0" || s.currentOperand == "" then s
    else s.(currentOperand := FormatNumber(a, a.div(a.parseFloat(s.currentOperand), a.hundred)))
  }

  function DeleteDigit(s: State): (r: State)
    ensures r.previousOperand == s.previousOperand && r.operation == s.operation
    ensures !r.shouldResetScreen
    ensures |s.currentOperand| == 1 || s.shouldResetScreen ==> r.currentOperand == "0"
    ensures |s.currentOperand| != 1 && !s.shouldResetScreen && s.currentOperand != "" ==>
            r.currentOperand + [s.currentOperand[|s.currentOperand| - 1]] == s.currentOperand
    ensures s.currentOperand == "" && !s.shouldResetScreen ==> r.currentOperand == ""
    ensures s.currentOperand != "" ==> r.currentOperand != ""
  {
    if |s.currentOperand| == 1 || s.shouldResetScreen then s.(currentOperand := "0", shouldResetScreen := false)
    else s.(currentOperand := DropLast(s.currentOperand))
  }

  /** One user action, as the buttons and keys deliver them. */
  datatype Action = Digit(number: string) | Operator(op: string) | Equals | ClearAll | Delete | Percent

  function Step<N>(a: Arith<N>, s: State, act: Action): State
  {
    match act
    case Digit(d) => AppendNumber(s, d)
    case Operator(op) => ChooseOperation(a, s, op)
    case Equals => Compute(a, s)
    case ClearAll => Initial
    case Delete => DeleteDigit(s)
    case Percent => CalculatePercentage(a, s)
  }

  /** The state after a sequence of actions, each run to completion in order. */
  function Run<N>(a: Arith<N>, s: State, acts: seq<Action>): State
    decreases |acts|
  {
    if acts == [] then s else Run(a, Step(a, s, acts[0]), acts[1..])
  }
}

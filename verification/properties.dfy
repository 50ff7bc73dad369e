/** Properties of the calculator that relate several actions or hold for
    every sequence of actions. */
module Properties {
  import opened JsNumber
  import opened Text
  import opened Format
  import opened Transitions

  /** Entering digits and '.' one key at a time never yields a second decimal point. */
  lemma AppendKeepsOneDecimalPoint(s: State, number: string)
    requires Count(s.currentOperand, '.') <= 1
    requires number == "." || '.' !in number
    ensures Count(AppendNumber(s, number).currentOperand, '.') <= 1
  {
    var base := Base(s);
    assert Count(base, '.') <= 1;
    if number == "." && '.' !in base {
      CountConcat(base, ".", '.');
    } else if number != "." && base != "0" {
      CountConcat(base, number, '.');
    }
  }

  /** Deleting never adds a decimal point. */
  lemma DeleteKeepsOneDecimalPoint(s: State)
    ensures Count(DeleteDigit(s).currentOperand, '.') <= Count(s.currentOperand, '.')
  {
    DropLastCount(s.currentOperand, '.');
    assert Count("0", '.') == 0;
  }

  /** Pressing '=' twice is the same as pressing it once: after a computation or
      a clear there is no left operand to parse. */
  lemma ComputeTwiceIsComputeOnce<N>(a: Arith<N>, s: State)
    requires EmptyIsNaN(a)
    ensures Compute(a, Compute(a, s)) == Compute(a, s)
  {
  }

  /** The display is never empty, and an operation is pending exactly when a
      left operand is held. */
  predicate Valid(s: State)
  {
    s.currentOperand != "" && (s.operation == None <==> s.previousOperand == "")
  }

  lemma ComputePreservesValid<N(!new)>(a: Arith<N>, s: State)
    requires TextNeverEmpty(a)
    requires Valid(s)
    ensures Valid(Compute(a, s))
  {
  }

  lemma StepPreservesValid<N(!new)>(a: Arith<N>, s: State, act: Action)
    requires TextNeverEmpty(a)
    requires Valid(s)
    requires act.Digit? ==> act.number != ""
    ensures Valid(Step(a, s, act))
  {
  }

  /** Starting from a valid state (for instance the initial one), every sequence
      of actions whose digit keys deliver non-empty text keeps the state valid. */
  lemma {:induction false} RunPreservesValid<N(!new)>(a: Arith<N>, s: State, acts: seq<Action>)
    requires TextNeverEmpty(a)
    requires Valid(s)
    requires forall i :: 0 <= i < |acts| && acts[i].Digit? ==> acts[i].number != ""
    ensures Valid(Run(a, s, acts))
    decreases |acts|
  {
    if acts != [] {
      StepPreservesValid(a, s, acts[0]);
      RunPreservesValid(a, Step(a, s, acts[0]), acts[1..]);
    }
  }

  /** Operations chain strictly left to right: the actions appendNumber(x),
      chooseOperation(op1), appendNumber(y), chooseOperation(op2),
      appendNumber(z), compute() apply op1 to x and y first, then op2 to that
      result and z (no precedence). Each of x, y and z is the text of one
      appendNumber call. */
  lemma LeftToRightChaining<N>(a: Arith<N>, x: string, op1: string, y: string, op2: string, z: string,
                               first: N, second: N)
    requires x != "" && x != "." && y != "" && z != ""
    requires !a.isNaN(a.parseFloat(x)) && !a.isNaN(a.parseFloat(y)) && !a.isNaN(a.parseFloat(z))
    requires Operate(a, Some(op1), a.parseFloat(x), a.parseFloat(y)) == Value(first)
    requires FormatNumber(a, first) != "" && !a.isNaN(a.parseFloat(FormatNumber(a, first)))
    requires Operate(a, Some(op2), a.parseFloat(FormatNumber(a, first)), a.parseFloat(z)) == Value(second)
    ensures Run(a, Initial, [Digit(x), Operator(op1), Digit(y), Operator(op2), Digit(z), Equals])
            == State(FormatNumber(a, second), "", None, true)
  {
    var s1 := State(x, "", None, false);
    var s2 := State(x, x, Some(op1), true);
    var s3 := State(y, x, Some(op1), false);
    var t := FormatNumber(a, first);
    var s4 := State(t, t, Some(op2), true);
    var s5 := State(z, t, Some(op2), false);
    var s6 := State(FormatNumber(a, second), "", None, true);
    assert Compute(a, s3) == State(t, "", None, true);
    assert Compute(a, s5) == s6;
    assert Run(a, s5, [Equals]) == s6;
    assert "" + z == z;
    assert AppendNumber(s4, z) == s5;
    assert Run(a, s4, [Digit(z), Equals]) == s6;
    assert Run(a, s3, [Operator(op2), Digit(z), Equals]) == s6;
    assert "" + y == y;
    assert AppendNumber(s2, y) == s3;
    assert Run(a, s2, [Digit(y), Operator(op2), Digit(z), Equals]) == s6;
    assert Run(a, s1, [Operator(op1), Digit(y), Operator(op2), Digit(z), Equals]) == s6;
  }

  /** The actions appendNumber(x), chooseOperation('÷'), appendNumber(y),
      compute() with y zero end in the initial state. */
  lemma DivideByZeroClears<N>(a: Arith<N>, x: string, y: string)
    requires x != "" && x != "." && y != ""
    requires !a.isNaN(a.parseFloat(x)) && !a.isNaN(a.parseFloat(y))
    requires a.isZero(a.parseFloat(y))
    ensures Run(a, Initial, [Digit(x), Operator(Divide), Digit(y), Equals]) == Initial
  {
    var s1 := State(x, "", None, false);
    var s2 := State(x, x, Some(Divide), true);
    var s3 := State(y, x, Some(Divide), false);
    assert Compute(a, s3) == Initial;
    assert Run(a, s3, [Equals]) == Initial;
    assert "" + y == y;
    assert AppendNumber(s2, y) == s3;
    assert Run(a, s2, [Digit(y), Equals]) == Initial;
    assert Run(a, s1, [Operator(Divide), Digit(y), Equals]) == Initial;
  }

  /** Choosing an operator right after appendNumber(x), chooseOperation('÷'),
      appendNumber(y) with y zero goes through the
      division-by-zero reset inside compute and then takes "0" as the left
      operand: the state afterwards is not the cleared one. */
  lemma DivideByZeroThenOperator<N>(a: Arith<N>, x: string, y: string, op: string)
    requires x != "" && x != "." && y != ""
    requires !a.isNaN(a.parseFloat(x)) && !a.isNaN(a.parseFloat(y))
    requires a.isZero(a.parseFloat(y))
    ensures Run(a, Initial, [Digit(x), Operator(Divide), Digit(y), Operator(op)]) == State("0", "0", Some(op), true)
  {
    var s1 := State(x, "", None, false);
    var s2 := State(x, x, Some(Divide), true);
    var s3 := State(y, x, Some(Divide), false);
    var s4 := State("0", "0", Some(op), true);
    assert Compute(a, s3) == Initial;
    assert ChooseOperation(a, s3, op) == s4;
    assert Run(a, s3, [Operator(op)]) == s4;
    assert "" + y == y;
    assert AppendNumber(s2, y) == s3;
    assert Run(a, s2, [Digit(y), Operator(op)]) == s4;
    assert Run(a, s1, [Operator(Divide), Digit(y), Operator(op)]) == s4;
  }
}

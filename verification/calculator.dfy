/** The calculator as the program holds it: four variables updated in place
    by six actions. Each method is proved to perform the matching transition
    of module Transitions. */
module CalculatorState {
  import opened JsNumber
  import Text
  import opened Format
  import opened Transitions

  class Calculator<N> {
    const arith: Arith<N>
    var currentOperand: string
    var previousOperand: string
    var operation: Option<string>
    var shouldResetScreen: bool

    /** The four variables as one value. */
    function Snapshot(): State
      reads this
    {
      State(currentOperand, previousOperand, operation, shouldResetScreen)
    }

    constructor (arith: Arith<N>)
      ensures this.arith == arith
      ensures currentOperand == "0" && previousOperand == "" && operation == None && !shouldResetScreen
      ensures Snapshot() == Initial
    {
      this.arith := arith;
      currentOperand := "0";
      previousOperand := "";
      operation := None;
      shouldResetScreen := false;
    }

    method AppendNumber(number: string)
      modifies this
      ensures Snapshot() == Transitions.AppendNumber(old(Snapshot()), number)
    {
      if shouldResetScreen {
        currentOperand := "";
        shouldResetScreen := false;
      }
      if number == "." && '.' in currentOperand {
        return;
      }
      if currentOperand == "0" && number != "." {
        currentOperand := number;
      } else {
        currentOperand := currentOperand + number;
      }
    }

    method ChooseOperation(selectedOperation: string)
      modifies this
      ensures Snapshot() == Transitions.ChooseOperation(arith, old(Snapshot()), selectedOperation)
    {
      if currentOperand == "" {
        return;
      }
      if previousOperand != "" {
        Compute();
      }
      operation := Some(selectedOperation);
      previousOperand := currentOperand;
      shouldResetScreen := true;
    }

    method Compute()
      modifies this
      ensures Snapshot() == Transitions.Compute(arith, old(Snapshot()))
    {
      var prev := arith.parseFloat(previousOperand);
      var current := arith.parseFloat(currentOperand);
      if arith.isNaN(prev) || arith.isNaN(current) {
        return;
      }
      var computation;
      if operation == Some(Plus) {
        computation := arith.add(prev, current);
      } else if operation == Some(Minus) {
        computation := arith.sub(prev, current);
      } else if operation == Some(Times) {
        computation := arith.mul(prev, current);
      } else if operation == Some(Divide) {
        if arith.isZero(current) {
          Clear();
          return;
        }
        computation := arith.div(prev, current);
      } else {
        return;
      }
      currentOperand := FormatNumber(arith, computation);
      operation := None;
      previousOperand := "";
      shouldResetScreen := true;
    }

    method CalculatePercentage()
      modifies this
      ensures Snapshot() == Transitions.CalculatePercentage(arith, old(Snapshot()))
    {
      if currentOperand == "0" || currentOperand == "" {
        return;
      }
      var current := arith.parseFloat(currentOperand);
      var percentage := arith.div(current, arith.hundred);
      currentOperand := FormatNumber(arith, percentage);
    }

    method Clear()
      modifies this
      ensures currentOperand == "0" && previousOperand == "" && operation == None && !shouldResetScreen
      ensures Snapshot() == Initial
    {
      currentOperand := "0";
      previousOperand := "";
      operation := None;
      shouldResetScreen := false;
    }

    method DeleteDigit()
      modifies this
      ensures Snapshot() == Transitions.DeleteDigit(old(Snapshot()))
    {
      if |currentOperand| == 1 || shouldResetScreen {
        currentOperand := "0";
        shouldResetScreen := false;
      } else {
        currentOperand := Text.DropLast(currentOperand);
      }
    }
  }
}

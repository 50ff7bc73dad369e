# Calculator state machine, modelled in Dafny

This project models the core of a browser calculator (`javascript.js`). It is
a state machine over four variables:

- `currentOperand`: the text on the main display.
- `previousOperand`: the left operand held while an operator is pending.
- `operation`: the pending operator. It is undefined or any string.
- `shouldResetScreen`: true when the next digit starts a new operand.

Six actions change these variables: `appendNumber`, `chooseOperation`,
`compute`, `calculatePercentage`, `clear` and `deleteDigit`. One pure helper,
`formatNumber`, turns a computed number back into display text.

Files:

- `js_number.dfy` (module `JsNumber`): `Arith<N>` bundles the JavaScript number
  primitives the calculator calls: `parseFloat`, `isNaN`, `=== 0`, `+ - * /`, the
  literal 100, `toString` and `toFixed(8)`. Numbers are an abstract type `N`,
  and these primitives are parameters of the model.
- `text.dfy` (module `Text`): `Count` (occurrences of a character, for the
  one-decimal-point property; `includes` itself is Dafny's `in`), `slice(0, -1)` as `DropLast`,
  and `split` with a one-character separator as `Split`. `Join` is its inverse,
  and the round trip is proved in both directions.
- `format.dfy` (module `Format`): `formatNumber`.
- `transitions.dfy` (module `Transitions`): the state as a value (`State`), each
  action as a function from the old state to the new one, and `Run`, which
  applies a sequence of user actions.
- `properties.dfy` (module `Properties`): properties that span several actions.
  These are left-to-right chaining, the division-by-zero reset, an invariant
  kept by every action sequence, and idempotence of `=`.
- `calculator.dfy` (module `CalculatorState`): class `Calculator` with the four
  variables as fields. Its methods update the fields in place, as the source does
  (`compute` calls `clear`, `chooseOperation` calls `compute`). Each method is
  proved to perform the matching transition of `Transitions`.

Three behaviours of the code worth noting:

- `operation` holds any string that `chooseOperation` receives, not only the four
  operators. `compute` ignores an unrecognised one.
- `calculatePercentage` does not check for NaN. For an operand such as "." it
  stores `formatNumber(NaN)`.
- Division by zero resets the state only when it is reached through `=`. When
  it is reached through a second operator, `chooseOperation` then stores "0" as
  the left operand with the new operator pending (`DivideByZeroThenOperator`).

## Model

| member | source | states |
|---|---|---|
| `CalculatorState.Calculator.constructor` | javascript.js:13-16 | start-up state: current "0", previous "", no operation, reset flag false |
| `CalculatorState.Calculator.AppendNumber` | javascript.js:79-94 | the fields after the call are `Transitions.AppendNumber` of the fields before |
| `CalculatorState.Calculator.ChooseOperation` | javascript.js:97-107 | the fields after the call are `Transitions.ChooseOperation` of the fields before, including the nested compute |
| `CalculatorState.Calculator.Compute` | javascript.js:110-143 | the fields after the call are `Transitions.Compute` of the fields before, including the nested clear on division by zero |
| `CalculatorState.Calculator.CalculatePercentage` | javascript.js:146-152 | the fields after the call are `Transitions.CalculatePercentage` of the fields before |
| `CalculatorState.Calculator.Clear` | javascript.js:184-189 | from any state, the fields become "0", "", undefined, false |
| `CalculatorState.Calculator.DeleteDigit` | javascript.js:192-199 | the fields after the call are `Transitions.DeleteDigit` of the fields before |
| `Transitions.AppendNumber` | javascript.js:79-94 | the reset flag ends false; a second '.' is rejected; a digit replaces a lone "0"; otherwise the text is appended to the operand, which is "" when the flag was set; previous operand and operation are untouched; non-empty input gives a non-empty operand |
| `Transitions.Operate` | javascript.js:117-137 | '+', '-', '×' give the sum, difference and product; '÷' gives the quotient for a non-zero right operand and division-by-zero exactly for a zero one; no result exactly for an unrecognised operator |
| `Transitions.Compute` | javascript.js:110-143 | unchanged when an operand is NaN or the operator is unrecognised; the cleared state on division by zero; on every other input previous "", no operation, reset flag true, and the current operand is the formatted sum, difference, product or quotient |
| `Transitions.ChooseOperation` | javascript.js:97-107 | no-op on an empty operand; otherwise the operator is stored, the reset flag is set and the previous operand equals the current one, which is the result of the pending compute when a left operand was held |
| `Transitions.CalculatePercentage` | javascript.js:146-152 | no-op on "0" or ""; otherwise only the current operand changes, to the formatted operand divided by 100 |
| `Transitions.DeleteDigit` | javascript.js:192-199 | "0" when the operand has one character or the flag is set; otherwise the last character is dropped, and "" stays ""; the flag ends false; a non-empty operand stays non-empty; previous operand and operation are untouched |
| `Format.FormatNumber` | javascript.js:155-170 | the result is the toString text or the toFixed(8) text, and it is the toString text when that has no decimal point |
| `Format.FormatDecimal` | javascript.js:159-169 | for toString text `whole.fraction`, the number is rounded with toFixed(8) exactly when the fraction has more than 8 characters |
| `Text.Count` | javascript.js:86 | number of occurrences of a character; zero exactly when it is absent (the negation of `includes`, which the model writes as `in`) |
| `Text.DropLast` | javascript.js:197 | all but the last character; the empty string stays empty (`slice(0, -1)`) |
| `Text.Split` | javascript.js:160-161 | at least one piece, and no piece holds the separator (`split`) |
| `Text.SplitAtSeparator` | javascript.js:159-161 | text holding '.' splits into at least two pieces, so `split('.')[1]` exists |
| `Text.JoinSplit` | javascript.js:161 | joining the pieces of a split gives back the text |
| `Text.SplitJoin` | javascript.js:161 | splitting a join of separator-free pieces gives back the pieces |
| `Properties.AppendKeepsOneDecimalPoint` | javascript.js:85-93 | entering a digit or '.' keeps the operand at no more than one decimal point |
| `Properties.DeleteKeepsOneDecimalPoint` | javascript.js:193-198 | deleting never raises the number of decimal points |
| `Properties.ComputeTwiceIsComputeOnce` | javascript.js:110-143 | pressing '=' a second time changes nothing, given `parseFloat("")` is NaN |
| `Properties.ComputePreservesValid` | javascript.js:110-143 | compute keeps the operand non-empty and keeps "operation pending exactly when a left operand is held" |
| `Properties.StepPreservesValid` | javascript.js:79-199 | every action keeps that invariant |
| `Properties.RunPreservesValid` | javascript.js:79-199 | every action sequence from a valid state keeps that invariant |
| `Properties.LeftToRightChaining` | javascript.js:97-143 | appendNumber(x), chooseOperation(op1), appendNumber(y), chooseOperation(op2), appendNumber(z), compute() yields op2(op1(x, y), z), with no precedence |
| `Properties.DivideByZeroClears` | javascript.js:127-131 | `x ÷ 0 =` ends in the cleared state |
| `Properties.DivideByZeroThenOperator` | javascript.js:100-106 | `x ÷ 0 op` leaves "0" as both operands, with op pending |

## Left out

- Floating-point behaviour of `parseFloat`, `+ - * /`, `Number.prototype.toString` and `toFixed(8)` is not modelled. These are the fields of `Arith<N>`, so concrete results such as 1 ÷ 3 giving "0.33333333" or 50 % giving "0.5" are not proved.
- `TextNeverEmpty` and `EmptyIsNaN` stand for two facts about JavaScript that the abstract primitives cannot provide: `toString` and `toFixed` never return "", and `parseFloat("")` is NaN. Lemmas that rely on these facts take them as requires.
- `formatNumber` also parses the integer part (javascript.js:160), but that value is never used, so it is not modelled.
- The `alert` on division by zero (javascript.js:129) is a UI side effect. Only the reset that follows it is modelled.
- `updateDisplay` and the DOM element lookups (javascript.js:1-10, 173-181) are rendering, so they are not modelled.
- Theme toggling and its `localStorage` persistence (javascript.js:22-36) do not affect calculator state.
- Click and touch wiring, and the opacity feedback (javascript.js:38-76, 238-259), are UI glue. The `Action` datatype stands for the action each button triggers.
- The keyboard handler (javascript.js:201-236) is event glue. Two of its quirks are not modelled: only keys '0' to '5' append digits, and 'Delete' clears rather than deletes.

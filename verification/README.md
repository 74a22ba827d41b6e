# Calculator expression engine in Dafny

This project models the expression-state engine of a small React calculator,
`src/components/Calculator/index.tsx`. The display is a stream of symbols. Each
symbol has a text and a kind:
- `answer` (an evaluation result, or the initial `0`);
- `button` (a pressed button, called `Pressed` here);
- `error` (the `ERR` marker).

A button press turns the current stream into the next one (`handleClick`,
`Calculator.Press`). `=` and negate hand the joined text to the arithmetic
evaluator and replace the stream with its single-symbol outcome (`handleEqual`,
`Calculator.EvaluateEqual`; `handleNeg`, `Calculator.EvaluateNegate`).
All-clear restores the reset stream (`resetCalculator`, `Calculator.Reset`). The button table, the
`isOperation` test read from it, and the display-glyph transform
`makeOperatorsLookNicer` are modelled too.

Modules:
- `Wrappers`: `Option`.
- `JsNumber`: `!isNaN(Number(text))`. This is the StringNumericLiteral grammar of section 7.1.4.1.1 of ECMA-262, recognised by a finite automaton.
- `Buttons`: the table and `isOperation`.
- `Glyphs`: the display transform.
- `Tokens`: symbols, joining, and the trailing numeric run that `split(/[*+\/-]+|[A-Za-z]+/)` leaves last.
- `Calculator`: the transitions.
- `CalculatorProperties`: per-press guarantees.
- `CalculatorInvariant`: an invariant of reachable streams and press sequences.
- `CalculatorScenarios`: concrete press sequences.

The evaluator (mathjs with BigNumber) is foreign. It is a parameter
`eval: string -> Option<string>`, where `None` stands for a thrown exception.

The code's crash paths are modelled as the precondition `Calculator.CanPress`:
- pressing `=`, a digit, `%` or an operation when the stream is empty, which reads a property of an undefined last symbol (a `.`, negate and all-clear are fine there: each guard short-circuits before the read);
- pressing an operation after a lone `.`, which reads `.value` of an undefined second-to-last symbol.

`CalculatorInvariant.ReachableFromReset` shows that neither path arises from the reset stream, for an evaluator that never answers a lone `.` or a text with two `.` in one numeric run.

## Model

| member | source | states |
|---|---|---|
| Buttons.IsOperationIff | src/components/Calculator/index.tsx:70-72 | `isOperation` holds exactly for `/`, `*`, `-`, `+` and `=` |
| Buttons.TableButtons | src/components/Calculator/index.tsx:28-48 | every table button is clear or negate (special), a digit, `.` or `%` (value), or an arithmetic operator or `=` (operation) |
| Buttons.ValueButtons | src/components/Calculator/index.tsx:28-48 | value-type buttons carry a digit, `.` or `%` |
| JsNumber.SingleCharNumeric | src/components/Calculator/index.tsx:99-100 | a one-character text is a number exactly when it is a decimal digit or white space |
| JsNumber.ErrIsNotNumeric | src/components/Calculator/index.tsx:133 | the error marker `ERR` is not a number |
| Glyphs.MakeOperatorsLookNicer | src/components/Calculator/index.tsx:53-68 | the transform keeps the length and maps each character on its own: `-`, `/`, `*` become minus, division and multiplication signs, and every other character is kept |
| Glyphs.MakeOperatorsLookNicerIdempotent | src/components/Calculator/index.tsx:53-68 | applying the transform twice equals applying it once |
| Glyphs.MakeOperatorsLookNicerKeeps | src/components/Calculator/index.tsx:62-67 | every character other than `-`, `/`, `*` is unchanged |
| Glyphs.MakeOperatorsLookNicerOperators | src/components/Calculator/index.test.tsx:7-9 | the three operator labels become their glyphs; `%` and `+` stay as they are |
| Tokens.TrailingRun | src/components/Calculator/index.tsx:90-95 | the last part of the split is a suffix with no operator character or ASCII letter, preceded by one (or it is the whole text) |
| Tokens.TrailingRunUnique | src/components/Calculator/index.tsx:90-95 | that characterisation determines the last part uniquely |
| Tokens.IndexOf | src/components/Calculator/index.tsx:97 | `indexOf` returns -1 when the character is absent, and otherwise its first position |
| Tokens.IndexOfCountChar | src/components/Calculator/index.tsx:97 | `indexOf` is -1 exactly when the character occurs zero times |
| Tokens.TrailingRunAtMostOneDot | src/components/Calculator/index.tsx:97 | when every run has at most one `.`, so does the last part |
| Calculator.Collapse | src/components/Calculator/index.tsx:98-99 | the pops before an operation remove at most two trailing symbols and keep the rest; other presses pop nothing |
| Calculator.Insert | src/components/Calculator/index.tsx:86-106 | a non-dispatched press has one of these results: the stream unchanged; a fresh one-symbol stream after an answer; or at most two symbols popped and the button appended (a value press never pops) |
| Calculator.EqualText | src/components/Calculator/index.tsx:110-122 | `=` evaluates a prefix of the joined text at most two characters shorter. It is the joined text without a trailing `.` symbol, and it is emptied only when that whole text is an operation value |
| CalculatorProperties.DefaultDisplayValid | src/components/Calculator/index.tsx:50-51 | the reset stream satisfies the invariant |
| CalculatorProperties.ValidCanPress | src/components/Calculator/index.tsx:87-88 | under the invariant no press reads a missing symbol |
| CalculatorProperties.DecimalRejected | src/components/Calculator/index.tsx:97 | `.` leaves the stream unchanged when the last numeric run already holds a `.` |
| CalculatorProperties.DecimalAccepted | src/components/Calculator/index.tsx:97-103 | otherwise `.` is appended (never a fresh start), and the new last run holds exactly one `.` |
| CalculatorProperties.PercentPress | src/components/Calculator/index.tsx:98-103 | `%` after a non-number leaves the stream unchanged with nothing popped; after a number it is appended |
| CalculatorProperties.DigitButtonNumeric | src/components/Calculator/index.tsx:33-45 | a digit button's value is a number and not an operation |
| CalculatorProperties.FreshStartAfterAnswer | src/components/Calculator/index.tsx:103 | a digit after an answer yields the one-symbol stream of that digit. After a pressed symbol or an error it is appended |
| CalculatorProperties.OperatorAfterNumber | src/components/Calculator/index.tsx:98-103 | an arithmetic operator after a number is appended with nothing popped |
| CalculatorProperties.OperatorReplacesOperator | src/components/Calculator/index.tsx:99-103 | an arithmetic operator after an operation replaces it |
| CalculatorProperties.OperatorDropsDanglingDot | src/components/Calculator/index.tsx:98-99 | an operator after an operation followed by `.` removes both. The second pop still tests the `.` read before the first |
| CalculatorProperties.CollapseEndsWithoutOperation | src/components/Calculator/index.tsx:98-99 | if no two operations are adjacent and the tail was pressed, the pops never leave an operation last |
| CalculatorProperties.OperatorPress | src/components/Calculator/index.tsx:98-104 | on a stream with no `.` first, no two adjacent operations and only pressed symbols after the first (every valid stream), after an arithmetic operator the stream ends with it; the symbol before it is no operation; everything before it is an unchanged prefix of the old stream |
| CalculatorProperties.OperationsAreNotNumbers | src/components/Calculator/index.tsx:70-72 | no operation value is a number |
| CalculatorProperties.StorableNumeric | src/components/Calculator/index.tsx:99 | among button values that can be stored, the numbers are exactly the digits |
| CalculatorProperties.EqualTrimsOnlyLoneOperation | src/components/Calculator/index.tsx:120-122 | the last character is removed only when the whole text is a single operation value; a longer text ending in an operator is evaluated as it is |
| CalculatorProperties.EmptyStreamPresses | src/components/Calculator/index.tsx:86-103 | on an empty stream, exactly `.`, negate and all-clear among the table buttons read no missing symbol |
| CalculatorProperties.DecimalOnEmpty | src/components/Calculator/index.tsx:97-104 | `.` on an empty stream yields the one-symbol stream `.` |
| CalculatorProperties.PressKeepsPrefix | src/components/Calculator/index.tsx:81-106 | a press adds at most one symbol. `=`, negate and all-clear leave one symbol that was not pressed. Any other press keeps every symbol but the last of its result from the old stream, and removes at most two symbols unless it starts afresh with the pressed symbol alone |
| CalculatorProperties.InsertKeepsPrefix | src/components/Calculator/index.tsx:97-104 | the insertion adds at most one symbol, keeps all but the last symbol of its result from the old stream, and removes at most two unless it starts afresh |
| CalculatorProperties.DigitThenWrap | src/components/Calculator/index.tsx:103 | a digit pressed after an evaluation outcome replaces it exactly when the outcome is an answer; after `ERR` it is appended |
| CalculatorProperties.EqualThenDigit | src/components/Calculator/index.tsx:109-137 | after `=`, a digit starts a fresh stream exactly when the evaluation of the `=` text succeeded (the answer kind set at line 127 is what line 103 tests) |
| CalculatorProperties.NegateThenDigit | src/components/Calculator/index.tsx:139-160 | after negate, a digit starts a fresh stream exactly when the evaluation of the negated text succeeded |
| CalculatorProperties.ClearThenDigit | src/components/Calculator/index.tsx:77-79 | all-clear yields the reset stream whatever came before, and a digit pressed next replaces its `0` |
| CalculatorProperties.EqualOnSingleToken | src/components/Calculator/index.tsx:109-137 | `=` on a lone answer re-evaluates that answer's text |
| CalculatorInvariant.WrapValid | src/components/Calculator/index.tsx:124-136 | evaluation outcomes satisfy the invariant |
| CalculatorInvariant.ValueKeepsValid | src/components/Calculator/index.tsx:97-106 | digits, `.` and `%` keep the invariant |
| CalculatorInvariant.OperationKeepsValid | src/components/Calculator/index.tsx:98-106 | arithmetic operators keep the invariant |
| CalculatorInvariant.PressKeepsValid | src/components/Calculator/index.tsx:81-107 | every table press on a valid stream is well defined and leaves a valid stream. Valid means: non-empty; no `.` first; every symbol after the first is a pressed digit, `.`, `%` or arithmetic operator; no adjacent operations; `%` only after a number; at most one `.` per numeric run |
| CalculatorInvariant.PressAllKeepsValid | src/components/Calculator/index.tsx:81-107 | for an evaluator that never answers a lone `.` or two `.` in one numeric run, the same holds for any sequence of table presses |
| CalculatorInvariant.ReachableFromReset | src/components/Calculator/index.tsx:86-99 | for such an evaluator, every stream reachable from reset has these properties: never empty (so `symbols[symbols.length - 1]` exists); never `.` first (so `secondToLastSymbol` exists when line 98 reads it); at most one `.` in its last run |
| CalculatorScenarios.RepeatedDecimal | src/components/Calculator/index.tsx:97 | `3 . .` from reset yields `3 .`: the second `.` is rejected |
| CalculatorScenarios.RepeatedPlus | src/components/Calculator/index.tsx:99 | `+ +` from reset yields `0 +` |
| CalculatorScenarios.StaleLastSymbol | src/components/Calculator/index.tsx:98-99 | `-` after `0 + .` yields `0 -` |
| CalculatorScenarios.DigitAfterFortyTwo | src/components/Calculator/index.tsx:103 | `5` after the answer `42` yields `5` |
| CalculatorScenarios.DecimalAfterFortyTwo | src/components/Calculator/index.tsx:103 | `.` after the answer `42` yields `42 .` |
| CalculatorScenarios.NoFreshStartAfterError | src/components/Calculator/index.tsx:103 | `5` after `ERR` yields `ERR 5` |
| CalculatorScenarios.DigitOperatorDigit | src/components/Calculator/index.tsx:97-106 | typing digit, operator, digit from reset yields those three symbols |
| CalculatorScenarios.EvaluateDigitOperatorDigit | src/components/Calculator/index.tsx:109-137 | then `=` evaluates the three characters |
| CalculatorScenarios.OnePlusTwo | src/components/Calculator/index.tsx:124-129 | `1 + 2 =` yields the answer the evaluator gives for `1+2` |
| CalculatorScenarios.FiveOverZero | src/components/Calculator/index.tsx:130-136 | `5 / 0 =` yields `ERR` when the evaluator fails on `5/0` |
| CalculatorScenarios.NegateSeven | src/components/Calculator/index.tsx:146-151 | `7 neg` yields the answer the evaluator gives for `7* -1` |

## Left out

- The React shell is not modelled: `useState`, `setCurrent`, rendering and click wiring (index.tsx:74-75, 162-184). The current stream is an explicit argument and the new stream is the result.
- The arithmetic itself is not modelled, and neither is `toString` formatting (index.tsx:3-5, 125-127, 147-149). The evaluator is a parameter; scenarios that need a result state it as a requirement on the evaluator.
- `console.log` on evaluation failure (index.tsx:131, 153) is not modelled.
- The `source` back-references of answers and symbols (index.tsx:13-22) are dropped. No decision reads them.
- In-place `pop` is modelled as a pure function. The line-100 rejection returns the stream the pops left, which differs from the input only for an operation-type `%`, and the table has none.
- `src/main.tsx`, the stylesheets, and the unused `percent` glyph entry (index.tsx:59) are not part of this model.
- Behaviour the code does not have, so not modelled: a backspace; keyboard input; an implicit `0` before a leading `.`; a fresh start after an error; trimming of a trailing operator before evaluation (only a text that is a lone operator is trimmed, index.tsx:120-122); a full-width `%` glyph (the entry at index.tsx:59 is unused); a live preview.
- CalculatorInvariant.PressKeepsValid assumes the evaluator never answers with a lone `.` and never with a text holding two `.` in one numeric run. The numeric formatting of the real evaluator is outside the model.
- CalculatorInvariant.PressAllKeepsValid carries the same evaluator condition. An evaluator that answers `.` makes the stream `.` reachable, and `+` pressed there reads a missing second-to-last symbol.
- CalculatorInvariant.ReachableFromReset carries the same evaluator condition, for the same reason.

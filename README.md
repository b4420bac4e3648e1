# Calculator key-press state machine

A model of the calculator screen in `App.js`. This is a React Native component.
Its state is four strings:

- `firstValue` and `secondValue`, the two operand texts;
- `operator`, the pending operator;
- `clearLabel`, which the handler sets to "C" on a digit or `.` and to "AC" on backspace. Nothing reads it: the clear button's caption is the literal "AC" (App.js:149), so the button always shows and sends the key "AC". The model tracks the field because the handler writes it.

A key press runs `onKeyPress`, which either edits these strings or calls `calculate`. `calculate` reads a comma in each operand as the decimal point and applies the operator. A non-integral result whose text has more than six characters after its decimal point is replaced by its `toFixed(6)` text; exponent forms such as 1.5e-7 keep their text, because only "5e-7" follows the point. On success, `calculate` writes the result back, with a comma as the decimal separator, as the new first operand, and empties the operator and the second operand. `getDisplayText` picks the string to show.

The rounding step can throw. For a result that is not an integer, `calculate` reads the length of `toString().split('.')[1]`. The results whose text has no decimal point are:

- NaN, for example an empty operand, which parses as NaN;
- Infinity and -Infinity, for example division by zero;
- exponent forms such as `1e-7`.

For these, that field is `undefined` and reading its length throws a TypeError before any setter runs. So `calculate` stores nothing and the key press leaves the state as it was. Examples are `%` at start and `5 + =`.

The model has four modules:

- `Text` (`text.dfy`): two string primitives with a one-character argument. The first is `replace`, which replaces only the first occurrence; it comes with position, round-trip and removal lemmas. The second is the second field of `split`, which is `undefined` when the separator is absent.
- `Evaluator` (`evaluator.dfy`): input normalisation (`,` to `.`), the operator switch, the rounding step with its throwing case, output formatting (`.` to `,`), and `Evaluate`. `Evaluate` gives the string `calculate` stores, or `None` when it throws. The floating-point arithmetic is a parameter `arith` (see Left out). It yields a `Number`: the three things the code observes of a result, namely its `toString()` text, whether `result % 1 === 0`, and its `toFixed(6)` text. The rounding and formatting of these are modelled exactly. So is the case of an operator that matches no branch of the switch: there the result keeps its initial value 0 and "0" is stored.
- `Controller` (`controller.dfy`): the state as a value, `Step` (one key press, a pure transition function), `Run` (a key sequence), `DisplayText`, `CalcOperator` (which operator a key press evaluates with) and `Throws` (whether it throws). It also holds the lemmas about the machine: what each key does, the invariants every key sequence keeps, and what typing digits shows.
- `App` (`app.dfy`): the class `Calculator`. Its fields are the four state strings. `Calculate` goes through the rounding step with its locals, as the code does. `OnKeyPress` and `Calculate` update the fields in place, report whether `calculate` threw, and are proved against `Step`, `Throws` and `Evaluate`.

Behaviours of the code that the model keeps as written:

- An operator key (`^ / * +`) pressed while a second operand exists evaluates with the operator stored before it. The pressed key is then lost.
- `-` never becomes the pending operator. It only forces an evaluation.
- `=` or `-` with no pending operator turns the first operand into "0" (`Controller.EqualsWithoutOperator`).
- An operator can be pending while the first operand is empty: `+` pressed first is stored (`Controller.OperatorBeforeOperand`).
- `AC` leaves `clearLabel` as it was. The `AC` case never calls `setClearLabel` (`Controller.ClearKey`).
- A key press whose evaluation throws changes nothing (`Controller.IncompleteSumKeepsState`, `Controller.PercentAtStartKeepsState`).

## Model

| member | source | states |
|---|---|---|
| `Text.ReplaceFirst` | App.js:96-97 | The result has the input's length; a string without the searched character comes back unchanged; when that character occurs (and differs from its replacement), the replacement appears in the result. |
| `Text.ReplaceFirstAt` | App.js:127 | If the searched character first occurs at index i, the result is the input with only position i replaced; later occurrences stay. |
| `Text.ReplaceFirstPointwise` | App.js:96-97 | Every position of the result either equals the input's or is the first occurrence of the searched character, now replaced. |
| `Text.ReplaceFirstRoundTrip` | App.js:96-127 | Replacing x by y and then y by x restores any string that did not contain y. |
| `Text.SoleOccurrenceRemoved` | App.js:127 | A string with exactly one occurrence of the searched character has none left after replacement. |
| `Text.FirstField` | App.js:121 | The first field of a split holds no separator and is a prefix of the text. When it is shorter than the text, the separator follows it. |
| `Text.SecondField` | App.js:121 | The second field of a split is undefined exactly when the separator does not occur; otherwise it holds no separator. |
| `Text.SecondFieldOfOne` | App.js:121 | A text `p.d` with a single separator has `d` as its second field. |
| `Text.FirstFieldWhole` | App.js:121 | A text without the separator is its own first field. |
| `Evaluator.OperationOf` | App.js:99-118 | An operator string selects an arithmetic branch exactly when it is one of `% ^ / * + -`. |
| `Evaluator.OperationOfSymbol` | App.js:99-118 | Each branch is selected by its own symbol and by no other string. |
| `Evaluator.FormatThenNormalize` | App.js:96-127 | A number text without a comma, once formatted, normalises back to itself. So a result can serve as an operand again. |
| `Evaluator.Normalize` | App.js:96-97 | No contract of its own: it is `Text.ReplaceFirst` with `,` to `.`; stated by the `Text.ReplaceFirst*` rows and `Evaluator.FormatThenNormalize`. |
| `Evaluator.Format` | App.js:127 | No contract of its own: it is `Text.ReplaceFirst` with `.` to `,`; stated by `Text.SoleOccurrenceRemoved`, `Text.ReplaceFirstAt` and `Evaluator.FormatThenNormalize`. |
| `Evaluator.NumberOf` | App.js:94-118 | No contract of its own: the arithmetic switch, with the initial 0 when no case matches; stated by `Evaluator.EvaluateUnknownOperator` and `Evaluator.EvaluateKnownOperator`. |
| `Evaluator.Round` | App.js:120-125 | No contract of its own: the rounding step with its throwing case; stated by `Evaluator.RoundThrows`, `Evaluator.RoundThrowsOnNaN` and `Evaluator.RoundFraction`. |
| `Evaluator.Evaluate` | App.js:93-127 | No contract of its own: `calculate` up to the setters, `None` when it throws; stated by `Evaluator.EvaluateKnownOperator` and `Evaluator.EvaluateUnknownOperator`. |
| `Evaluator.RoundThrows` | App.js:120-125 | The rounding step throws exactly when the result is not an integer and its text has no decimal point. |
| `Evaluator.RoundThrowsOnNaN` | App.js:120-122 | A NaN result (not an integer, text "NaN") makes the rounding step throw. |
| `Evaluator.RoundFraction` | App.js:120-125 | For a result text `i.d`: an integer, or a non-integer whose `d` has at most six characters (an exponent included), keeps its text. A non-integer with a longer `d` is replaced by the `toFixed(6)` text. |
| `Evaluator.EvaluateUnknownOperator` | App.js:93-127 | With an operator that matches no case (the empty one included), `calculate` stores "0" whatever the operands, and does not throw. |
| `Evaluator.EvaluateKnownOperator` | App.js:96-127 | For a known operator, `calculate` throws exactly when the result is not an integer and its text has no decimal point. Otherwise the stored string has the length of the rounded text and normalises back to it. |
| `Controller.Step` | App.js:38-91 | No contract of its own: `onKeyPress` as a transition function; stated by the rows `Controller.ClearKey` through `Controller.UnmatchedKey` and by `Controller.StepPreservesInv`. |
| `Controller.Evaluated` | App.js:129-131 | No contract of its own: the three setters after a successful `calculate`, or the unchanged state when it throws; stated by `Controller.EvaluatingKeys`, `Controller.OperatorKeyStoresOrEvaluates` and `Controller.EvaluationFollowsCalcOperator`. |
| `Controller.DropLast` | App.js:46-51 | `slice(0, -1)`: an empty string stays empty; otherwise the result plus the last character is the input. |
| `Controller.DisplayText` | App.js:134-138 | The display is never empty. It shows the second operand when there is one, else the first operand, else "0". |
| `Controller.ClearKey` | App.js:40-44 | `AC` empties both operands and the operator, keeps the clear label, and the display shows "0". |
| `Controller.BackspaceEditsRightmost` | App.js:45-54 | Backspace drops the last character of the second operand if it exists. Else it clears a pending operator. Else it drops the last character of the first operand. The other fields are unchanged and the label becomes "AC". |
| `Controller.OperandKeyAppends` | App.js:72-89 | A digit or `.` goes to the end of the first operand when no operator is pending, else to the second. The other operand and the operator are unchanged; the label becomes "C". |
| `Controller.OperatorKeyStoresOrEvaluates` | App.js:58-67 | `^ / * +` with an empty second operand store themselves and change nothing else. With a second operand they evaluate with the previously stored operator and are not kept: the whole new state is the result with operator and second operand empty, or, when `calculate` throws, the old state. |
| `Controller.EvaluatingKeys` | App.js:55-71 | `-` and `=` evaluate with the stored operator and `%` with itself. The whole new state is the result with operator and second operand empty, or, when `calculate` throws, the old state. None of the three is ever stored as the operator. |
| `Controller.EqualsWithoutOperator` | App.js:68-70 | `=` or `-` with no pending operator sets the first operand, and so the display, to "0", empties the second operand and changes nothing else. |
| `Controller.EvaluationFollowsCalcOperator` | App.js:38-91 | A key press whose `CalcOperator` is some `o` yields exactly the evaluation of the two operands under `o`. That evaluation empties the operator and second operand, unless it throws; then the state is unchanged. Any other key press keeps, clears, shortens or extends the first operand. |
| `Controller.UnmatchedKey` | App.js:39-90 | A key that no case names leaves the whole state unchanged. |
| `Controller.OperatorBeforeOperand` | App.js:58-67 | From the start, `+` stores the operator with an empty first operand, and a following digit starts the second operand. |
| `Controller.IncompleteSumKeepsState` | App.js:68-71 | When 5 + NaN is NaN, `5 + =` throws: the state stays ("5", "+", "", "C") and the display shows "5". |
| `Controller.PercentAtStartKeepsState` | App.js:55-57 | When NaN / 100 is NaN, `%` at start throws and the initial state is kept. |
| `Controller.StepPreservesInv` | App.js:38-91 | Every key press keeps three facts: the operator is one of `"" ^ / * +`; a second operand implies an operator; the label is "AC" or "C". |
| `Controller.RunPreservesInv` | App.js:38-91 | Every key sequence keeps that invariant. |
| `Controller.ReachableInv` | App.js:33-36 | From the initial state, the operator is always one of `"" ^ / * +`, and a second operand is only present with an operator. |
| `Controller.SubtractionUnreachable` | App.js:115-116 | No evaluation reached by key presses selects the subtraction branch. |
| `Controller.TypingOperand` | App.js:72-89 | A run of digits and `.` appends their concatenation to the first operand (no operator pending) or to the second, and sets the label to "C". |
| `Controller.TypedDigitsDisplayed` | App.js:134-138 | Digits and `.` typed from the start are shown exactly as typed. |
| `Controller.ClearAfterAnything` | App.js:40-44 | After any key sequence, `AC` shows "0" and restores the initial state except for the label. |
| `App.Calculator.constructor` | App.js:33-36 | Starts with empty operands and operator and the label "AC"; the invariant holds. |
| `App.Calculator.Calculate` | App.js:93-132 | Reports a throw exactly when `Evaluate(a, o, b)` is `None`, and then changes no field. Otherwise the first operand becomes the evaluated string, the operator and second operand become empty, and the label is kept. Either way the class invariant is kept. |
| `App.Calculator.OnKeyPress` | App.js:38-91 | The new state is `Step` of the old state and the key, so every `Controller` lemma applies. A throw is reported exactly when `Throws` holds. The invariant is kept. |
| `App.Calculator.GetDisplayText` | App.js:134-138 | The displayed text is never empty. |

## Left out

- The floating-point arithmetic of `calculate` (App.js:99-118) is left out: `parseFloat`, `Math.pow`, IEEE-754 division, addition and multiplication. It is the parameter `arith`. This is an arbitrary function from an operation and the two normalised operand texts to a `Number`: the result's `toString()` text, whether `result % 1 === 0`, and its `toFixed(6)` text. Nothing ties these three observations to one real number. Which key presses reach NaN or Infinity, and so throw, therefore depends on `arith`. That `%` ignores its second operand is not captured either.
- What follows an uncaught exception in the key handler (the development error screen, or the end of the app in a release build) is outside the model. It records only that the throwing key press stores nothing, and reports the throw as `thrown`.
- `Evaluator.EvaluateKnownOperator`: its round-trip clause assumes the rounded text has no comma. JavaScript number texts never do, but the abstract `arith` does not promise it.
- The button components, the key grid and the styles (App.js:5-30, 140-240) are presentation. So is the undefined `width` they use (App.js:15).
- The window-width measurement (App.js:32) is platform input and a float.
- React's batching of state setters and the functional updaters (App.js:85, 87) are not modelled. Each key press is one atomic transition over the four fields.
- Strings are sequences of Unicode characters. `slice(0, -1)` works on UTF-16 code units, but the characters appended to an operand (digits and `.`) and JavaScript number texts are ASCII, so the two agree on every reachable state.

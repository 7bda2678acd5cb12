# Calculator engine (RPN stack calculator) in Dafny

This project models the engine of a reverse-Polish desktop calculator: the
operand stack, the calculator state (display buffer, memory, error, entry
flags) and the commands a key press runs. It proves properties of that model.

- `OperandStack` (`stack.dfy`) models the generic `Stack`. It is a class over
  an array of nullable slots, with a ghost `Contents` sequence listing the
  elements bottom first. The class invariant says the slots below `size` hold
  the elements and the slots above are null. `Push` doubles the capacity when
  the array is full. `Pop` fails with "La pile est vide" on an empty stack. The
  module also has `toString` (top first, `[a, b]`), `toArray` (bottom first),
  the top-to-bottom iterator and a for-each loop over the iterator.
- `StateSpec` (`state_spec.dfy`) is the calculator state as a value, with one
  transition function per `State` method. Every lemma about the state is
  stated on these functions.
- `CalcState` (`state.dfy`) is `State` as a class whose methods update its
  fields in place. Each method is proved to take `Snap()`, the fields read as a
  `StateSpec.Calc`, to the matching transition of `StateSpec`.
- `Arithmetic` (`arithmetic.dfy`) holds the `compute` of the four binary
  operations and the function of each unary operation. An
  `ArithmeticException` becomes `Err` with the exception's message.
- `CommandSpec` (`command_spec.dfy`) gives each command's `execute` as a
  function on the state value. It proves what each command does to the stack,
  the buffer and the flags.
- `Scenario` (`scenario.dfy`) relates the calculator to plain RPN evaluation
  on a bare stack. A script of pushes and operations run through the
  calculator leaves on its stack exactly what RPN evaluation leaves, as long
  as every operation succeeds and every displayed result reads back as itself.
  With that theorem it proves every check of the console test program
  `CalculatorTests`.
- `Commands` (`commands.dfy`) holds the `execute` methods run against a
  `State` object. Each is proved against its `CommandSpec` function.
- `Numeric` (`numeric.dfy`) is the boundary between text and numbers:
  - `formatValue`: integral values print as Java prints a `long`;
  - `Double.parseDouble`, restricted to plain decimal literals;
  - the round trip between the two.

Numbers are mathematical reals. Two things the host platform computes in
floating point are parameters of the model:
- `Math.sqrt`;
- `Double.toString` of every value that fails the `x == (long) x` test of
  `formatValue` (fractional values, and integral ones beyond the `long` range).

A Java exception that the source lets escape is modelled as follows:
- `Stack.pop` and `next` on an exhausted iterator return `Err`;
- `StateSpec.ChangeSign`, the sign change as written, returns `None` on an
  empty buffer, where `substring(1)` throws.

The `State` object and the command set use the corrected sign change of the
Findings section, which never throws.

Behaviours of the code that the model keeps:
- `clear` empties the stack and the buffer. It keeps the error, the memory
  and the pending operator, and the display still shows the error.
- `recallValue` does not clear an error.
- The first digit after an operation goes through `setValue(0)`. That marks
  the buffer read-only, so backspace does nothing while a number typed after
  an operation is being entered.
- `Enter` with a pending operator pops the value it has just pushed. It
  therefore computes `v op v`, not `top op v`, and the stack ends as it was.
  `EnterWithPendingOperator` states this. No code in the modelled engine sets
  a pending operator.

## Model

| member | source | states |
|---|---|---|
| `Numeric.NatText` | calculator/State.java:224 | the decimal digits printed for a non-negative integer are non-empty, all digits, and read back as that integer |
| `Numeric.ParseDecimal` | calculator/State.java:198-205 | a literal that parses is non-empty; it is non-negative unless it starts with '-', and a negative result always starts with '-' |
| `Numeric.ParseDigits` | calculator/State.java:198-205 | a non-empty run of digits parses to the number it spells |
| `Numeric.ParseIntText` | calculator/State.java:224 | parsing the text `String.valueOf(long)` prints for an integer gives that integer back |
| `Numeric.FormatValue` | calculator/State.java:223-225 | a value passing the `x == (long) x` test prints as its long, with no '.', and reads back as that long; any other value is printed by the host's `Double.toString` |
| `Numeric.FormatSaturated` | calculator/State.java:223-225 | 2^63 passes the test through the saturating cast and prints as `Long.MAX_VALUE` |
| `Numeric.ParseFormatted` | calculator/State.java:223-225 | round trip of `formatValue` then `value()` for every integral value in the `long` range |
| `Numeric.ParseNegated` | calculator/State.java:154 | prefixing '-' to an unsigned literal negates what it parses to, and keeps unparsable text unparsable |
| `Arithmetic.Compute` | Labo7_FariaDosSantos_Aubry/code/calculator/Operator.java:249-287 | a binary operation fails exactly when it is a division by zero, and then with "Illegal division" |
| `Arithmetic.Apply` | Labo7_FariaDosSantos_Aubry/code/calculator/Operator.java:189-217 | a unary operation fails exactly for the square root of a negative and the reciprocal of zero, each with its own message |
| `OperandStack.BracketedPair` | calculator/Stack.java:64-72 | a two-element stack prints top first: "[" + top + ", " + bottom + "]" |
| `OperandStack.Stack.constructor` | calculator/Stack.java:27-29 | a new stack is empty, with capacity 10 and every slot null |
| `OperandStack.Stack.Push` | calculator/Stack.java:36-41 | the item becomes the new top and nothing below it changes; the capacity doubles exactly when the array was full; the invariant is kept |
| `OperandStack.Stack.Pop` | calculator/Stack.java:49-56 | returns and removes the top, nulling its slot; on an empty stack fails with "La pile est vide" and changes nothing |
| `OperandStack.Stack.ToString` | calculator/Stack.java:64-72 | the text is the elements from top to bottom, each rendered, separated by ", " and bracketed |
| `OperandStack.Stack.ToArray` | calculator/Stack.java:79-81 | a fresh array holding exactly the elements, bottom first |
| `OperandStack.Stack.Iterator` | calculator/Stack.java:89-91 | a fresh iterator over this stack whose cursor starts at the top |
| `OperandStack.Stack.IsEmpty` | calculator/Stack.java:98-100 | true exactly when the stack holds no element |
| `OperandStack.Stack.Size` | calculator/Stack.java:107-109 | the number of elements |
| `OperandStack.Stack.Resize` | calculator/Stack.java:148-150 | a fresh array of the new capacity; the elements and the old slots are kept |
| `OperandStack.StackIterator.constructor` | calculator/Stack.java:114-115 | the cursor starts at the top element |
| `OperandStack.StackIterator.HasNext` | calculator/Stack.java:123-125 | true exactly when the cursor is on an element of the stack |
| `OperandStack.StackIterator.Next` | calculator/Stack.java:134-139 | yields the element at the cursor and moves down one; once past the bottom it fails and does not move |
| `OperandStack.Traverse` | calculator/Stack.java:114-139 | iterating the stack visits every element exactly once, top first, and stops |
| `CalcState.State.constructor` | calculator/State.java:14-28 | the initial state: empty buffer, memory "0", no error, editable, no operator, not waiting, empty stack |
| `CalcState.State.PushToStack` | calculator/State.java:35-37 | the value is pushed and nothing else changes |
| `CalcState.State.PopFromStack` | calculator/State.java:44-50 | pops the top; on an empty stack sets "Stack is empty" and returns 0 |
| `CalcState.State.StackToString` | calculator/State.java:57-59 | the stack's top-first bracketed text |
| `CalcState.State.StackToArray` | calculator/State.java:66-68 | a fresh array of the stack, bottom first |
| `CalcState.State.ClearError` | calculator/State.java:85-90 | buffer and error reset, editable again; stack, memory and operator kept |
| `CalcState.State.IsStackEmpty` | calculator/State.java:97-99 | true exactly when the stack is empty |
| `CalcState.State.Clear` | calculator/State.java:104-108 | buffer emptied and editable, stack emptied; everything else kept |
| `CalcState.State.ClearStack` | calculator/State.java:113-117 | popping until empty leaves the stack empty, in the same array |
| `CalcState.State.AppendValue` | calculator/State.java:124-130 | appends the digit's text, first emptying the buffer when a new number was due |
| `CalcState.State.AppendDot` | calculator/State.java:135-138 | the `StateSpec.AppendDot` transition |
| `CalcState.State.PrepareForNextOperand` | calculator/State.java:143-146 | sets both entry flags, nothing else |
| `CalcState.State.ChangeSign` | calculator/State.java:151-156 | the corrected sign change (see Findings): the `changeSign` of the source wherever it does not throw, except that a zero with no sign gets a '-' prefix; an empty buffer and an error are left alone |
| `CalcState.State.DelLastValue` | calculator/State.java:161-165 | the `StateSpec.DelLastValue` transition |
| `CalcState.State.StoreValue` | calculator/State.java:170-174 | the `StateSpec.StoreValue` transition |
| `CalcState.State.RecallValue` | calculator/State.java:179-182 | the buffer becomes the memory, read-only |
| `CalcState.State.GetValueString` | calculator/State.java:189-191 | the `StateSpec.ValueString` display text |
| `CalcState.State.Value` | calculator/State.java:198-205 | the buffer as a number; an unparsable buffer sets "Invalid number format: " + buffer and reads 0 |
| `CalcState.State.SetValue` | calculator/State.java:212-215 | the buffer becomes `formatValue(x)`, read-only |
| `CalcState.State.SetError` | calculator/State.java:232-235 | sets the error text and flag, nothing else |
| `CalcState.State.SetCurrentOperator` | calculator/State.java:242-244 | sets the pending operator, nothing else |
| `CalcState.State.GetCurrentOperator` | calculator/State.java:251-253 | the pending operator |
| `CalcState.State.IsWaitingForNextOperand` | calculator/State.java:260-262 | the waiting flag |
| `CalcState.State.SetWaitingForNextOperand` | calculator/State.java:269-271 | sets the waiting flag, nothing else |
| `CalcState.State.StackSize` | calculator/State.java:278-280 | the number of operands |
| `StateSpec.PopFromStackSpec` | calculator/State.java:44-50 | on an empty stack: error "Stack is empty" and 0; otherwise exactly the top is removed and returned, nothing else changes |
| `StateSpec.PopAfterPush` | calculator/State.java:35-50 | pop after push gives back the pushed value and the earlier state |
| `StateSpec.AppendDotSpec` | calculator/State.java:135-138 | afterwards the buffer holds a '.'; "" becomes "0."; otherwise the old text is kept, with at most a '.' appended; nothing else changes |
| `StateSpec.AppendDotIdempotent` | calculator/State.java:135-138 | pressing '.' twice is the same as pressing it once |
| `StateSpec.AppendDigit` | calculator/State.java:124-130 | a digit adds exactly its character, to an emptied buffer when a new number was due |
| `StateSpec.DelLastValueSpec` | calculator/State.java:161-165 | backspace removes exactly the last character of an editable non-empty buffer and otherwise changes nothing |
| `StateSpec.BackspaceAfterResult` | calculator/State.java:161-165 | backspace right after `setValue` or `recallValue` changes nothing |
| `StateSpec.StoreThenRecall` | calculator/State.java:170-182 | store then recall shows the stored text (or "0"), read-only; with an error pending, store changes nothing |
| `StateSpec.ValueStringSpec` | calculator/State.java:189-191 | the display is the error text exactly when an error is set; otherwise it is the buffer, or "0" for an empty buffer |
| `StateSpec.ClearVersusClearError` | calculator/State.java:85-108 | `clear` empties stack and buffer but keeps error, memory and operator; `clearError` resets buffer and error but keeps the stack |
| `StateSpec.ChangeSign` | calculator/State.java:151-156 | the sign change as written: it throws exactly on an empty buffer with no error, and never touches the stack or the memory |
| `StateSpec.ChangeSignCorrected` | calculator/State.java:151-156 | the corrected sign change keeps the stack, the memory and the operator; where the as-written `StateSpec.ChangeSign` throws it changes nothing; on an unsigned zero it prefixes '-' where the as-written rule drops the first character; on every other state it gives exactly the as-written result, unparsable buffers included |
| `StateSpec.ChangeSignSpec` | calculator/State.java:151-156 | no-op under an error; throws on an empty buffer; '-' prefixed to a positive value; first character dropped otherwise, and an unparsable buffer also gets "Invalid number format: " + buffer |
| `StateSpec.ValueOfParsed` | calculator/State.java:198-205 | `value()` of a parsable or empty buffer is its parse (0 for empty) and changes nothing |
| `StateSpec.ChangeSignLosesZero` | calculator/State.java:151-156 | as written, sign change on "0" empties the buffer and a second press throws |
| `StateSpec.ChangeSignCorrectedOnParsed` | calculator/State.java:151-156 | on a parsable buffer the corrected sign change drops a leading '-' (so "-0" becomes "0"), prefixes '-' to a value with no sign (zero included), and on a leading '+' drops it unless the value is positive |
| `StateSpec.ChangeSignCorrectedInvolution` | calculator/State.java:151-156 | the corrected sign change applied twice gives back every parsable buffer not starting with '+' |
| `CommandSpec.BinaryNeedsTwoOperands` | Labo7_FariaDosSantos_Aubry/code/calculator/Operator.java:224-229 | with fewer than two operands a binary operation changes nothing |
| `CommandSpec.BinaryConsumesTwo` | Labo7_FariaDosSantos_Aubry/code/calculator/Operator.java:224-234 | both operands are consumed (left = lower), the result or the error is written, and the next digit starts a new number |
| `CommandSpec.DivisionByZero` | Labo7_FariaDosSantos_Aubry/code/calculator/Operator.java:279-287 | dividing by a zero top sets "Illegal division", keeps the buffer and consumes both operands |
| `CommandSpec.SubtractionOrder` | Labo7_FariaDosSantos_Aubry/code/calculator/Operator.java:259-264 | subtraction shows the lower operand minus the top |
| `CommandSpec.UnaryNeedsOneOperand` | Labo7_FariaDosSantos_Aubry/code/calculator/Operator.java:160-165 | on an empty stack a unary operation changes nothing |
| `CommandSpec.UnaryConsumesOne` | Labo7_FariaDosSantos_Aubry/code/calculator/Operator.java:160-175 | the top is consumed even when the function fails; the result or the error is written; the next digit starts a new number |
| `CommandSpec.UnaryDomainErrors` | Labo7_FariaDosSantos_Aubry/code/calculator/Operator.java:198-217 | square root of a negative and reciprocal of zero set their error messages |
| `CommandSpec.DigitAfterPrepare` | Labo7_FariaDosSantos_Aubry/code/calculator/Operator.java:62-71 | the first digit after an operation replaces the buffer with that digit |
| `CommandSpec.EnterPushes` | Labo7_FariaDosSantos_Aubry/code/calculator/Operator.java:294-298 | with no pending operator, Enter pushes the current value and prepares for the next operand |
| `CommandSpec.EnterWithPendingOperator` | Labo7_FariaDosSantos_Aubry/code/calculator/Operator.java:299-312 | with a pending operator, Enter computes value op value, leaves the stack as it was and clears the operator |
| `CommandSpec.ExecutePreservesEntryFlags` | Labo7_FariaDosSantos_Aubry/code/calculator/Operator.java:61-312 | no command ever leaves "waiting for next operand" set without "cleared on next input" |
| `CommandSpec.DigitsText` | Labo7_FariaDosSantos_Aubry/code/calculator/Operator.java:62-71 | the text of a run of digit keys has one digit character per key |
| `CommandSpec.TypingWhileEntering` | Labo7_FariaDosSantos_Aubry/code/calculator/Operator.java:62-71 | while a number is being entered, each digit key appends its digit and changes nothing else |
| `CommandSpec.TypedNumber` | Labo7_FariaDosSantos_Aubry/code/calculator/Operator.java:62-71 | digits typed into a fresh entry leave exactly their text in the buffer, and `value()` reads it as the number they spell |
| `Scenario.PerformMatches` | Labo7_FariaDosSantos_Aubry/code/calculator/Operator.java:97-234 | one push, operation or Clear, followed by pushing the displayed value, changes the calculator's stack as RPN evaluation changes the bare stack, and sets no error |
| `Scenario.RunMatchesEvaluate` | Labo7_FariaDosSantos_Aubry/code/calculator/Operator.java:97-234 | a script whose every step succeeds and whose every displayed result reads back as itself leaves the stack that RPN evaluation gives, and no error |
| `Scenario.Step1Spec` | calculator/CalculatorTests.java:15-19 | entering 10 then 5 on an empty stack gives [10, 5] |
| `Scenario.Step2Spec` | calculator/CalculatorTests.java:23-25 | addition, then pushing the result, gives [15] |
| `Scenario.Step3Spec` | calculator/CalculatorTests.java:28-32 | times 3 gives [45] |
| `Scenario.Step4Spec` | calculator/CalculatorTests.java:35-39 | divided by 9 gives [5] |
| `Scenario.Step5Spec` | calculator/CalculatorTests.java:42-46 | the square root of a pushed 4 gives [5, 2] |
| `Scenario.Step6Spec` | calculator/CalculatorTests.java:49-51 | the square gives [5, 4] |
| `Scenario.Step7Spec` | calculator/CalculatorTests.java:54-56 | the reciprocal gives [5, 0.25] |
| `Scenario.Step8Spec` | calculator/CalculatorTests.java:59-62 | times 2 gives [5, 0.5] |
| `Scenario.Step9Spec` | calculator/CalculatorTests.java:63-66 | minus 5 gives [5, -4.5] |
| `Scenario.Step10Spec` | calculator/CalculatorTests.java:70 | Clear empties the stack |
| `Scenario.AfterStepSpec` | calculator/CalculatorTests.java:14-71 | after each step of the test program, the calculator's stack is the one the program expects and no error is set |
| `Scenario.CalculatorTestsScenario` | calculator/CalculatorTests.java:14-71 | every stack the console test program checks, ending empty after Clear |
| `Scenario.CalculatorTestsText` | calculator/CalculatorTests.java:19-71 | the texts `stackToString` prints after 10 and 5, after "*2 - 5" and after Clear: "[5.0, 10.0]", "[-4.5, 5.0]" and "[]" given the element rendering |
| `Commands.ExecuteBinaryOperation` | Labo7_FariaDosSantos_Aubry/code/calculator/Operator.java:25-32 | the `CommandSpec.ExecuteBinaryOperation` transition: the result goes to the buffer or the error to the error |
| `Commands.ExecuteDigit` | Labo7_FariaDosSantos_Aubry/code/calculator/Operator.java:62-71 | the `CommandSpec.ExecuteDigit` transition |
| `Commands.ExecuteUnary` | Labo7_FariaDosSantos_Aubry/code/calculator/Operator.java:160-175 | the `CommandSpec.ExecuteUnary` transition, with the stack kept valid |
| `Commands.ExecuteBinary` | Labo7_FariaDosSantos_Aubry/code/calculator/Operator.java:224-234 | the `CommandSpec.ExecuteBinary` transition, with the stack kept valid |
| `Commands.ExecuteEnter` | Labo7_FariaDosSantos_Aubry/code/calculator/Operator.java:294-312 | the `CommandSpec.ExecuteEnter` transition, with the stack kept valid |
| `Commands.Execute` | Labo7_FariaDosSantos_Aubry/code/calculator/Operator.java:61-312 | each command's `execute` performs the `CommandSpec.Execute` transition, with the stack kept valid; ChangeSign runs the corrected sign change (see Left out) |

## Left out

- Floating point: values are exact reals, so rounding, overflow to infinity, NaN and negative zero are not modelled.
- The host's `Math.sqrt` and its `Double.toString` are parameters (`Numeric.Host`). Properties that need their values assume them: `ScenarioHost` says `sqrt(4) = 2` and names the prints of 0.25, 0.5 and -4.5.
- `Numeric.ParseDecimal` accepts only plain decimal literals: an optional sign, digits and at most one '.'. The other forms `Double.parseDouble` accepts (exponents, "NaN", "Infinity", surrounding whitespace, hexadecimal, a trailing `d`/`f`) are not modelled. `Double.toString` of a value that fails `x == (long) x` can print some of them: "1.0E-4" (the reciprocal of 10000), "1.23456789E7", "Infinity", "NaN". Java's `value()` reads these back; the model's `value()` sets "Invalid number format: " + the text and reads 0, so Enter then pushes 0.
- `Numeric.FormatValue`: the `(long)` cast is modelled for the values that pass the `x == (long) x` test (the integral values of the `long` range, and 2^63, which saturates to `Long.MAX_VALUE`). Other values beyond the `long` range fail the test, as in Java, and go to the host's rendering. Reading back the "9223372036854775807" printed for 2^63 gives 2^63 - 1 here (`Numeric.FormatSaturated`), where Java's `parseDouble` rounds it to 2^63.
- `OperandStack.Stack.Push`: the Java `int` fields `size` and capacity are unbounded naturals here. Overflow past 2^31 - 1 elements is not modelled.
- The `State.getState()` singleton is replaced by a `State` passed to each command explicitly.
- The "Not enough operands in the stack." console message of an operation with too few operands is not modelled. Only the state, which stays unchanged, is.
- `currentOperator` is an optional binary operation. A non-binary operator's inherited `compute`, which returns 0, cannot be pending here. Nothing in the modelled engine sets a pending operator.
- A `ConcurrentModificationException`-style check in the iterator is absent from the source and not modelled. In the model a `Push` keeps an iterator's `Valid()`, and so does a `Pop` that leaves the cursor below the new size. A `Pop` that reaches the cursor breaks `Valid()`, so `Next` can no longer be called, where Java's `next()` would return the slot the pop set to null.
- `Stack.toString` renders elements through a parameter `show`, which is `String.valueOf` of a `Double` in the source.
- The Swing interface `JCalculator`, the console `Calculator` and the earlier draft `calculator/Operator.java` are not part of this model.
- `CalculatorTests`' `testResult` printing is not modelled. Its comparisons are the ensures of `Scenario.CalculatorTestsScenario` and `Scenario.CalculatorTestsText`.
- The test program's step 8 is split in two steps of the model, times 2 and minus 5, and its Clear is step 10; the stack checked after both halves is the one the program checks.
- `CalcState.State.ChangeSign` runs the corrected sign change of the Findings section. It departs from calculator/State.java:151-156 on two inputs only: an unsigned zero such as "0" becomes "-0" where Java leaves "", and an empty buffer is left alone where Java throws.
- `Commands.Execute` and `CommandSpec.Execute` run that corrected sign change for the `ChangeSign` command (Labo7_FariaDosSantos_Aubry/code/calculator/Operator.java:127-132), so they depart from the source on the same two inputs and nowhere else.
- `Scenario.RunMatchesEvaluate` covers scripts of pushes, unary and binary operations and Clear. Digit entry, Enter and the memory keys are covered by the `CommandSpec` lemmas instead.

## Findings

| source | as written | input that shows it | evidently intended | confidence | as-written member | corrected member |
|---|---|---|---|---|---|---|
| calculator/State.java:151-156 | `changeSign` drops the first character of any buffer whose value is not positive, including an unsigned zero | buffer "0" with no error: the first press empties the buffer, and a second press calls `substring(1)` on "" and throws | an unsigned zero gets a '-' prefix ("0" and "-0" alternate) and an empty buffer is left alone, so pressing +/- twice restores every parsable buffer not starting with '+'; every other case, a '-'-prefixed zero and an unparsable buffer included, is kept as written | not executed | `StateSpec.ChangeSignLosesZero` | `StateSpec.ChangeSignCorrectedInvolution` |

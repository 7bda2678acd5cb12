/**
 * The calculator state as a value, and each `State` method as a function from
 * the state before the call to the state after it. The class `CalcState.State`
 * is proved against these functions; the lemmas below state what the methods
 * promise.
 */
module StateSpec {
  import opened Wrappers
  import opened Numeric
  import opened Arithmetic

  /**
   * The fields of `State`. `value` is the display buffer; `stack` lists the
   * operand stack bottom first, so its last element is the top.
   */
  datatype Calc = Calc(
    value: string,
    memory: string,
    error: string,
    hasError: bool,
    isMutable: bool,
    currentOperator: Option<BinaryOp>,
    waitingForNextOperand: bool,
    clearedOnNextInput: bool,
    stack: seq<real>)

  const STACK_IS_EMPTY := "Stack is empty"
  const INVALID_NUMBER := "Invalid number format: "

  /** The field initialisers of `State`. */
  function Initial(): Calc
  {
    Calc("", "0", "", false, true, None, false, false, [])
  }

  function PushToStack(c: Calc, x: real): Calc
  {
    c.(stack := c.stack + [x])
  }

  /** The state after `popFromStack` and the value it returns. */
  function PopFromStack(c: Calc): (Calc, real)
  {
    if c.stack == [] then (SetError(c, STACK_IS_EMPTY), 0.0)
    else (c.(stack := c.stack[..|c.stack| - 1]), c.stack[|c.stack| - 1])
  }

  function ClearError(c: Calc): Calc
  {
    c.(value := "", error := "", hasError := false, isMutable := true)
  }

  /** `clear`: empties the buffer and, through `clearStack`, the stack. */
  function Clear(c: Calc): Calc
  {
    c.(value := "", isMutable := true, stack := [])
  }

  /** `appendValue(x)`: the first digit after `prepareForNextOperand` starts a new buffer. */
  function AppendValue(c: Calc, x: int): Calc
  {
    var base := if c.clearedOnNextInput then "" else c.value;
    c.(value := base + IntText(x), clearedOnNextInput := false)
  }

  function AppendDot(c: Calc): Calc
  {
    var seeded := if c.value == "" then "0" else c.value;
    c.(value := if '.' in seeded then seeded else seeded + ".")
  }

  function PrepareForNextOperand(c: Calc): Calc
  {
    c.(clearedOnNextInput := true, waitingForNextOperand := true)
  }

  /** `value()`: the buffer as a number; an unparsable buffer sets an error and reads as 0. */
  function Value(c: Calc): (Calc, real)
  {
    if c.value == "" then (c, 0.0)
    else
      match ParseDecimal(c.value)
      case Some(x) => (c, x)
      case None => (SetError(c, INVALID_NUMBER + c.value), 0.0)
  }

  /**
   * `changeSign`, as written: a positive value gets a '-' prefix, anything
   * else loses its first character. `None` is the StringIndexOutOfBoundsException
   * that `substring(1)` throws on an empty buffer; the state is then unchanged.
   */
  function ChangeSign(c: Calc): (r: Option<Calc>)
    ensures r.None? <==> !c.hasError && c.value == ""
    ensures r.Some? ==> r.value.stack == c.stack && r.value.memory == c.memory
  {
    if c.hasError then Some(c)
    else
      var (c1, val) := Value(c);
      if val > 0.0 then Some(c1.(value := "-" + c1.value))
      else if c1.value == "" then None
      else Some(c1.(value := c1.value[1..]))
  }

  /** A buffer that does not start with a sign character. */
  predicate Unsigned(v: string)
  {
    v != "" && v[0] != '-' && v[0] != '+'
  }

  /** A zero with no sign in front, the one buffer the corrected sign change treats differently. */
  predicate UnsignedZero(c: Calc)
  {
    !c.hasError && Unsigned(c.value) && ParseDecimal(c.value) == Some(0.0)
  }

  /**
   * `changeSign` as evidently intended: as written, except that an empty
   * buffer is left alone instead of throwing, and a zero with no sign in
   * front gets a '-' prefix instead of losing its first character.
   */
  function ChangeSignCorrected(c: Calc): (r: Calc)
    ensures r.stack == c.stack && r.memory == c.memory && r.currentOperator == c.currentOperator
    ensures ChangeSign(c).None? ==> r == c
    ensures ChangeSign(c).Some? && !UnsignedZero(c) ==> r == ChangeSign(c).value
    ensures UnsignedZero(c) ==> r == c.(value := "-" + c.value)
  {
    if c.hasError then c
    else
      var (c1, val) := Value(c);
      if val > 0.0 then c1.(value := "-" + c1.value)
      else if c1.value == "" then c1
      else if !c1.hasError && Unsigned(c1.value) then c1.(value := "-" + c1.value)
      else c1.(value := c1.value[1..])
  }

  function DelLastValue(c: Calc): Calc
  {
    if c.isMutable && c.value != "" then c.(value := c.value[..|c.value| - 1]) else c
  }

  function StoreValue(c: Calc): Calc
  {
    if !c.hasError then c.(memory := if c.value == "" then "0" else c.value) else c
  }

  function RecallValue(c: Calc): Calc
  {
    c.(value := c.memory, isMutable := false)
  }

  /** `getValueString`: what the display shows. */
  function ValueString(c: Calc): string
  {
    if c.hasError then c.error else if c.value == "" then "0" else c.value
  }

  function SetValue(c: Calc, x: real, doubleText: real -> string): Calc
  {
    c.(value := FormatValue(x, doubleText), isMutable := false)
  }

  function SetError(c: Calc, message: string): Calc
  {
    c.(error := message, hasError := true)
  }

  function SetCurrentOperator(c: Calc, operator: Option<BinaryOp>): Calc
  {
    c.(currentOperator := operator)
  }

  function SetWaitingForNextOperand(c: Calc, waiting: bool): Calc
  {
    c.(waitingForNextOperand := waiting)
  }

  // ---------------------------------------------------------------------
  // Properties of the transitions

  /** Popping removes exactly the top; on an empty stack it reports "Stack is empty" and yields 0. */
  lemma PopFromStackSpec(c: Calc)
    ensures c.stack == [] ==>
              PopFromStack(c) == (c.(error := STACK_IS_EMPTY, hasError := true), 0.0)
    ensures c.stack != [] ==>
              var (c', x) := PopFromStack(c);
              c'.stack + [x] == c.stack && c' == c.(stack := c'.stack)
  {
  }

  /** A pop right after a push gives back the pushed value and the state before the push. */
  lemma PopAfterPush(c: Calc, x: real)
    ensures PopFromStack(PushToStack(c, x)) == (c, x)
  {
    assert (c.stack + [x])[..|c.stack|] == c.stack;
  }

  /** The buffer ends up holding a '.'; an empty buffer becomes "0."; the old text is kept as a prefix. */
  lemma AppendDotSpec(c: Calc)
    ensures '.' in AppendDot(c).value
    ensures c.value == "" ==> AppendDot(c).value == "0."
    ensures c.value != "" ==>
              AppendDot(c).value == c.value || AppendDot(c).value == c.value + "."
    ensures AppendDot(c) == c.(value := AppendDot(c).value)
  {
    var r := AppendDot(c).value;
    if c.value == "" {
      assert '.' !in "0";
    } else if '.' !in c.value {
      assert r[|r| - 1] == '.';
    }
  }

  /** Pressing '.' twice is the same as pressing it once. */
  lemma AppendDotIdempotent(c: Calc)
    ensures AppendDot(AppendDot(c)) == AppendDot(c)
  {
    AppendDotSpec(c);
  }

  /**
   * A digit 0-9 adds exactly one character: to the buffer while entering,
   * to an empty buffer when the previous command prepared the next operand.
   */
  lemma AppendDigit(c: Calc, d: int)
    requires 0 <= d <= 9
    ensures AppendValue(c, d).value == (if c.clearedOnNextInput then "" else c.value) + [DigitChar(d)]
    ensures !c.clearedOnNextInput ==> |AppendValue(c, d).value| == |c.value| + 1
    ensures !AppendValue(c, d).clearedOnNextInput
  {
    assert IntText(d) == [DigitChar(d)];
  }

  /** Backspace removes exactly the last character, and only from an editable non-empty buffer. */
  lemma DelLastValueSpec(c: Calc)
    ensures c.isMutable && c.value != "" ==>
              DelLastValue(c).value + [c.value[|c.value| - 1]] == c.value
    ensures !(c.isMutable && c.value != "") ==> DelLastValue(c) == c
    ensures DelLastValue(c) == c.(value := DelLastValue(c).value)
  {
  }

  /** A computed or recalled value cannot be edited: backspace right after it changes nothing. */
  lemma BackspaceAfterResult(c: Calc, x: real, doubleText: real -> string)
    ensures DelLastValue(SetValue(c, x, doubleText)) == SetValue(c, x, doubleText)
    ensures DelLastValue(RecallValue(c)) == RecallValue(c)
  {
  }

  /**
   * Memory store then recall puts the stored text (or "0" for an empty
   * buffer) back on display, read-only; with an error pending, store keeps
   * the old memory.
   */
  lemma StoreThenRecall(c: Calc)
    ensures !c.hasError ==>
              RecallValue(StoreValue(c)).value == (if c.value == "" then "0" else c.value) &&
              !RecallValue(StoreValue(c)).isMutable
    ensures c.hasError ==> StoreValue(c) == c
    ensures !c.hasError && c.value != "" ==> ValueString(RecallValue(StoreValue(c))) == c.value
  {
  }

  /** The display shows the error text exactly when an error is set, never an empty buffer. */
  lemma ValueStringSpec(c: Calc)
    ensures c.hasError ==> ValueString(c) == c.error
    ensures !c.hasError ==> ValueString(c) != "" && (c.value != "" ==> ValueString(c) == c.value)
    ensures !c.hasError && c.value == "" ==> ValueString(c) == "0"
  {
  }

  /**
   * `clear` empties stack and buffer but keeps the error, memory and pending
   * operator; `clearError` resets buffer and error but keeps the stack.
   */
  lemma ClearVersusClearError(c: Calc)
    ensures Clear(c).stack == [] && Clear(c).value == "" && Clear(c).isMutable
    ensures Clear(c).hasError == c.hasError && Clear(c).error == c.error
    ensures Clear(c).memory == c.memory && Clear(c).currentOperator == c.currentOperator
    ensures ClearError(c).stack == c.stack && ClearError(c).value == ""
    ensures !ClearError(c).hasError && ClearError(c).error == "" && ClearError(c).isMutable
    ensures ClearError(c).memory == c.memory && ClearError(c).currentOperator == c.currentOperator
    ensures ValueString(Clear(c)) == (if c.hasError then c.error else "0")
    ensures ValueString(ClearError(c)) == "0"
  {
  }

  /**
   * With an error set, `changeSign` does nothing; a positive value gains a '-'
   * prefix; any other non-empty buffer loses its first character, and an
   * unparsable one also sets the invalid-number error.
   */
  lemma ChangeSignSpec(c: Calc)
    ensures c.hasError ==> ChangeSign(c) == Some(c)
    ensures !c.hasError && c.value == "" ==> ChangeSign(c) == None
    ensures !c.hasError && ParseDecimal(c.value).Some? && ParseDecimal(c.value).value > 0.0 ==>
              ChangeSign(c) == Some(c.(value := "-" + c.value))
    ensures !c.hasError && ParseDecimal(c.value).Some? && ParseDecimal(c.value).value <= 0.0 ==>
              ChangeSign(c) == Some(c.(value := c.value[1..]))
    ensures !c.hasError && c.value != "" && ParseDecimal(c.value).None? ==>
              ChangeSign(c) == Some(c.(error := INVALID_NUMBER + c.value, hasError := true, value := c.value[1..]))
  {
  }

  /** A value `value()` reads back as what was parsed; 0 stands for an empty buffer. */
  lemma ValueOfParsed(c: Calc)
    requires c.value == "" || ParseDecimal(c.value).Some?
    ensures Value(c) == (c, if c.value == "" then 0.0 else ParseDecimal(c.value).value)
  {
  }

  /**
   * As written, `changeSign` is not an involution: on "0" it empties the
   * buffer, and a second press throws.
   */
  lemma ChangeSignLosesZero(c: Calc)
    requires !c.hasError && c.value == "0"
    ensures ChangeSign(c) == Some(c.(value := ""))
    ensures ChangeSign(ChangeSign(c).value) == None
  {
    ParseDigits("0");
    assert DigitsValue("0") == 0;
  }

  /** On a parsable buffer the corrected `changeSign` flips the sign character, zero included. */
  lemma ChangeSignCorrectedOnParsed(c: Calc, x: real)
    requires !c.hasError && ParseDecimal(c.value) == Some(x)
    ensures ChangeSignCorrected(c) ==
              if c.value[0] == '-' then c.(value := c.value[1..])
              else if c.value[0] == '+' && x <= 0.0 then c.(value := c.value[1..])
              else c.(value := "-" + c.value)
  {
    ValueOfParsed(c);
  }

  /**
   * The corrected `changeSign` is an involution on every buffer the
   * calculator can parse, as long as it does not start with '+'.
   */
  lemma ChangeSignCorrectedInvolution(c: Calc)
    requires !c.hasError
    requires c.value == "" || (ParseDecimal(c.value).Some? && c.value[0] != '+')
    ensures ChangeSignCorrected(ChangeSignCorrected(c)) == c
  {
    if c.value == "" {
      ValueOfParsed(c);
    } else {
      var x := ParseDecimal(c.value).value;
      if c.value[0] == '-' {
        InvolutionOnSigned(c, x);
      } else {
        InvolutionOnUnsigned(c, x);
      }
    }
  }

  lemma InvolutionOnUnsigned(c: Calc, x: real)
    requires !c.hasError && ParseDecimal(c.value) == Some(x) && Unsigned(c.value)
    ensures ChangeSignCorrected(ChangeSignCorrected(c)) == c
  {
    ChangeSignCorrectedOnParsed(c, x);
    UnsignedNegatedBack(c, x);
  }

  /** The corrected sign change takes a '-'-prefixed unsigned literal back to the literal. */
  lemma UnsignedNegatedBack(c: Calc, x: real)
    requires !c.hasError && ParseDecimal(c.value) == Some(x) && Unsigned(c.value)
    ensures ChangeSignCorrected(c.(value := "-" + c.value)) == c
  {
    var v := c.value;
    var c1 := c.(value := "-" + v);
    ParseNegated(v);
    assert c1.value[0] == '-' && c1.value[1..] == v;
    ChangeSignCorrectedOnParsed(c1, -x);
  }

  lemma InvolutionOnSigned(c: Calc, x: real)
    requires !c.hasError && ParseDecimal(c.value) == Some(x) && c.value[0] == '-'
    ensures ChangeSignCorrected(ChangeSignCorrected(c)) == c
  {
    var v := c.value;
    ChangeSignCorrectedOnParsed(c, x);
    MinusLiteral(v, x);
    var c1 := c.(value := v[1..]);
    assert c1.(value := "-" + c1.value) == c by {
      assert "-" + v[1..] == v;
    }
    UnsignedNegatedBack(c1, -x);
  }

  /** A literal that starts with '-' and parses is '-' followed by an unsigned literal. */
  lemma MinusLiteral(v: string, x: real)
    requires ParseDecimal(v) == Some(x) && v[0] == '-'
    ensures Unsigned(v[1..])
    ensures ParseDecimal(v[1..]) == Some(-x)
  {
    var rest := v[1..];
    assert UnsignedValue(rest) == Some(-x);
    if rest != [] && (rest[0] == '-' || rest[0] == '+') {
      UnsignedRejectsSign(rest);
    }
  }

  /** An unsigned literal cannot start with a sign. */
  lemma UnsignedRejectsSign(s: string)
    requires |s| > 0 && (s[0] == '-' || s[0] == '+')
    ensures UnsignedValue(s).None?
  {
    var k := DotIndex(s);
    if k > 0 {
      assert !IsDigit(s[..k][0]);
    }
  }
}

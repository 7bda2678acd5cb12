/**
 * Scripts of test actions, the way the console test program drives the
 * engine, checked against a pure stack-only RPN evaluator; then the test
 * program's own script.
 */
module Scenario {
  import opened Wrappers
  import opened Numeric
  import opened Arithmetic
  import S = StateSpec
  import opened CommandSpec
  import OperandStack

  /**
   * One action of a test script: enter a number (`setValue` then
   * `pushToStack(value())`), or run an operation or Clear; after an
   * operation the test pushes the displayed result back.
   */
  datatype Action =
    | PushNumber(x: real)
    | BinaryStep(binaryOp: BinaryOp)
    | UnaryStep(unaryOp: UnaryOp)
    | ClearStep

  /** `setValue(x)` then `pushToStack(value())`. */
  function SetAndPush(c: S.Calc, x: real, doubleText: real -> string): S.Calc
  {
    PushCurrent(S.SetValue(c, x, doubleText))
  }

  /** `pushToStack(value())`. */
  function PushCurrent(c: S.Calc): S.Calc
  {
    var (c1, v) := S.Value(c);
    S.PushToStack(c1, v)
  }

  function Perform(c: S.Calc, a: Action, host: Host): S.Calc
  {
    match a
    case PushNumber(x) => SetAndPush(c, x, host.doubleText)
    case BinaryStep(op) => PushCurrent(ExecuteBinary(c, op, host.doubleText))
    case UnaryStep(op) => PushCurrent(ExecuteUnary(c, op, host))
    case ClearStep => S.Clear(c)
  }

  function Run(c: S.Calc, script: seq<Action>, host: Host): S.Calc
    decreases |script|
  {
    if script == [] then c else Run(Perform(c, script[0], host), script[1..], host)
  }

  // ---------------------------------------------------------------------
  // The reference: RPN evaluation on the stack alone

  /** One action on a bare stack; `None` when an operation lacks operands or fails. */
  function EvalStep(stack: seq<real>, a: Action, sqrt: real -> real): Option<seq<real>>
  {
    match a
    case PushNumber(x) => Some(stack + [x])
    case BinaryStep(op) =>
      if |stack| < 2 then None
      else
        (match Compute(op, stack[|stack| - 2], stack[|stack| - 1])
         case Ok(v) => Some(stack[..|stack| - 2] + [v])
         case Err(_) => None)
    case UnaryStep(op) =>
      if stack == [] then None
      else
        (match Apply(op, stack[|stack| - 1], sqrt)
         case Ok(v) => Some(stack[..|stack| - 1] + [v])
         case Err(_) => None)
    case ClearStep => Some([])
  }

  function Evaluate(stack: seq<real>, script: seq<Action>, sqrt: real -> real): Option<seq<real>>
    decreases |script|
  {
    if script == [] then Some(stack)
    else
      match EvalStep(stack, script[0], sqrt)
      case None => None
      case Some(next) => Evaluate(next, script[1..], sqrt)
  }

  /** A value that reads back as itself once formatted. */
  predicate RoundTrips(x: real, doubleText: real -> string)
  {
    ParseDecimal(FormatValue(x, doubleText)) == Some(x)
  }

  /** The action succeeds on the bare stack, and the value it leaves on top reads back as itself. */
  predicate Displayable(stack: seq<real>, a: Action, host: Host)
  {
    match EvalStep(stack, a, host.sqrt)
    case None => false
    case Some(next) => a.ClearStep? || (next != [] && RoundTrips(next[|next| - 1], host.doubleText))
  }

  /** Every action of the script is displayable in turn. */
  predicate Faithful(stack: seq<real>, script: seq<Action>, host: Host)
    decreases |script|
  {
    script == [] ||
    (Displayable(stack, script[0], host) &&
     Faithful(EvalStep(stack, script[0], host.sqrt).value, script[1..], host))
  }

  // ---------------------------------------------------------------------
  // The calculator agrees with the reference

  /** A buffer holding the text of `x` is pushed as `x` itself. */
  lemma PushCurrentOfFormatted(c: S.Calc, x: real, doubleText: real -> string)
    requires c.value == FormatValue(x, doubleText)
    requires RoundTrips(x, doubleText)
    ensures PushCurrent(c) == c.(stack := c.stack + [x])
  {
  }

  lemma BinaryThenPush(c: S.Calc, op: BinaryOp, x: real, doubleText: real -> string)
    requires |c.stack| >= 2
    requires Compute(op, c.stack[|c.stack| - 2], c.stack[|c.stack| - 1]) == Ok(x)
    requires RoundTrips(x, doubleText)
    ensures
      var r := PushCurrent(ExecuteBinary(c, op, doubleText));
      r.stack == c.stack[..|c.stack| - 2] + [x] && r.hasError == c.hasError
  {
    BinaryConsumesTwo(c, op, doubleText);
    PushCurrentOfFormatted(ExecuteBinary(c, op, doubleText), x, doubleText);
  }

  lemma UnaryThenPush(c: S.Calc, op: UnaryOp, x: real, host: Host)
    requires c.stack != []
    requires Apply(op, c.stack[|c.stack| - 1], host.sqrt) == Ok(x)
    requires RoundTrips(x, host.doubleText)
    ensures
      var r := PushCurrent(ExecuteUnary(c, op, host));
      r.stack == c.stack[..|c.stack| - 1] + [x] && r.hasError == c.hasError
  {
    UnaryConsumesOne(c, op, host);
    PushCurrentOfFormatted(ExecuteUnary(c, op, host), x, host.doubleText);
  }

  /** One displayable action does to the calculator's stack what it does to the bare stack. */
  lemma PerformMatches(c: S.Calc, a: Action, host: Host)
    requires !c.hasError && Displayable(c.stack, a, host)
    ensures Some(Perform(c, a, host).stack) == EvalStep(c.stack, a, host.sqrt)
    ensures !Perform(c, a, host).hasError
  {
    var ft := host.doubleText;
    match a
    case PushNumber(x) =>
      PushCurrentOfFormatted(S.SetValue(c, x, ft), x, ft);
    case BinaryStep(op) =>
      var n := |c.stack|;
      BinaryThenPush(c, op, Compute(op, c.stack[n - 2], c.stack[n - 1]).value, ft);
    case UnaryStep(op) =>
      UnaryThenPush(c, op, Apply(op, c.stack[|c.stack| - 1], host.sqrt).value, host);
    case ClearStep =>
      S.ClearVersusClearError(c);
  }

  /**
   * A script in which every action succeeds and every displayed value reads
   * back as itself leaves on the calculator's stack exactly what RPN
   * evaluation of the script leaves, and no error.
   */
  lemma {:induction false} RunMatchesEvaluate(c: S.Calc, script: seq<Action>, host: Host)
    requires !c.hasError && Faithful(c.stack, script, host)
    ensures Evaluate(c.stack, script, host.sqrt) == Some(Run(c, script, host).stack)
    ensures !Run(c, script, host).hasError
    decreases |script|
  {
    if script != [] {
      PerformMatches(c, script[0], host);
      RunMatchesEvaluate(Perform(c, script[0], host), script[1..], host);
    }
  }

  // ---------------------------------------------------------------------
  // The console test program

  /** The actions of test step `k` (1 to 10); the test program's "*2 - 5" block is steps 8 and 9. */
  function TestStep(k: nat): seq<Action>
  {
    match k
    case 1 => [PushNumber(10.0), PushNumber(5.0)]
    case 2 => [BinaryStep(Addition)]
    case 3 => [PushNumber(3.0), BinaryStep(Multiplication)]
    case 4 => [PushNumber(9.0), BinaryStep(Division)]
    case 5 => [PushNumber(4.0), UnaryStep(SquareRoot)]
    case 6 => [UnaryStep(Square)]
    case 7 => [UnaryStep(Reciprocal)]
    case 8 => [PushNumber(2.0), BinaryStep(Multiplication)]
    case 9 => [PushNumber(5.0), BinaryStep(Subtraction)]
    case 10 => [ClearStep]
    case _ => []
  }

  /** The calculator after test steps 1 to `k`, from a fresh state. */
  function AfterStep(host: Host, k: nat): S.Calc
    decreases k
  {
    if k == 0 then S.Initial() else Run(AfterStep(host, k - 1), TestStep(k), host)
  }

  /** The stack, bottom first, that the test program checks after step `k`. */
  function Expected(k: nat): seq<real>
  {
    match k
    case 1 => [10.0, 5.0]
    case 2 => [15.0]
    case 3 => [45.0]
    case 4 => [5.0]
    case 5 => [5.0, 2.0]
    case 6 => [5.0, 4.0]
    case 7 => [5.0, 0.25]
    case 8 => [5.0, 0.5]
    case 9 => [5.0, -4.5]
    case _ => []
  }

  /** A host whose square root of 4 is 2 and that prints the scenario's fractions as Java does. */
  predicate ScenarioHost(host: Host)
  {
    host.sqrt(4.0) == 2.0 &&
    host.doubleText(0.25) == "0.25" && host.doubleText(0.5) == "0.5" && host.doubleText(-4.5) == "-4.5"
  }

  lemma IntegralRoundTrips(n: int, doubleText: real -> string)
    requires LONG_MIN <= n <= LONG_MAX
    ensures RoundTrips(n as real, doubleText)
  {
    ParseFormatted(n as real, doubleText);
  }

  /** 0.25, 0.5 and -4.5, printed as the scenario's host prints them, read back as themselves. */
  lemma QuarterRoundTrips(doubleText: real -> string)
    requires doubleText(0.25) == "0.25"
    ensures RoundTrips(0.25, doubleText)
  {
    assert 0.25.Floor as real != 0.25;
    assert FormatValue(0.25, doubleText) == "0.25";
    assert DotIndex("25") == 2 && DotIndex(".25") == 0 && DotIndex("0.25") == 1;
    assert "0.25"[..1] == "0" && "0.25"[2..] == "25";
    assert "0"[..0] == [] && "25"[..1] == "2" && "2"[..0] == [];
    assert DigitsValue("25") == 25 && DigitsValue("0") == 0 && Pow10(1) == 10 && Pow10(2) == 100;
  }

  lemma HalfRoundTrips(doubleText: real -> string)
    requires doubleText(0.5) == "0.5"
    ensures RoundTrips(0.5, doubleText)
  {
    assert 0.5.Floor as real != 0.5;
    assert FormatValue(0.5, doubleText) == "0.5";
    assert DotIndex("5") == 1 && DotIndex(".5") == 0 && DotIndex("0.5") == 1;
    assert "0.5"[..1] == "0" && "0.5"[2..] == "5";
    assert "0"[..0] == [] && "5"[..0] == [];
    assert DigitsValue("5") == 5 && DigitsValue("0") == 0 && Pow10(1) == 10;
  }

  lemma MinusFourAndHalfRoundTrips(doubleText: real -> string)
    requires doubleText(-4.5) == "-4.5"
    ensures RoundTrips(-4.5, doubleText)
  {
    assert -4.5.Floor as real != -4.5;
    assert FormatValue(-4.5, doubleText) == "-4.5";
    assert DotIndex("5") == 1 && DotIndex(".5") == 0 && DotIndex("4.5") == 1;
    assert "-4.5"[1..] == "4.5" && "4.5"[..1] == "4" && "4.5"[2..] == "5";
    assert "4"[..0] == [] && "5"[..0] == [];
    assert DigitsValue("5") == 5 && DigitsValue("4") == 4 && Pow10(1) == 10;
  }

  /** Peels the first action off a script, for `Faithful` and `Evaluate` alike. */
  lemma Peel(stack: seq<real>, script: seq<Action>, host: Host)
    requires script != [] && Displayable(stack, script[0], host)
    ensures Faithful(stack, script, host) == Faithful(EvalStep(stack, script[0], host.sqrt).value, script[1..], host)
    ensures Evaluate(stack, script, host.sqrt) == Evaluate(EvalStep(stack, script[0], host.sqrt).value, script[1..], host.sqrt)
  {
  }

  /** The last action of a script. */
  lemma PeelLast(stack: seq<real>, a: Action, host: Host)
    requires Displayable(stack, a, host)
    ensures Faithful(stack, [a], host)
    ensures Evaluate(stack, [a], host.sqrt) == EvalStep(stack, a, host.sqrt)
  {
    assert [a][1..] == [];
  }

  /** Pushing a number that reads back as itself. */
  lemma PushDisplayable(stack: seq<real>, x: real, host: Host)
    requires RoundTrips(x, host.doubleText)
    ensures Displayable(stack, PushNumber(x), host)
    ensures EvalStep(stack, PushNumber(x), host.sqrt) == Some(stack + [x])
  {
  }

  /** A binary operation on the two top operands whose result reads back as itself. */
  lemma BinaryDisplayable(stack: seq<real>, op: BinaryOp, v: real, host: Host)
    requires |stack| >= 2 && Compute(op, stack[|stack| - 2], stack[|stack| - 1]) == Ok(v)
    requires RoundTrips(v, host.doubleText)
    ensures Displayable(stack, BinaryStep(op), host)
    ensures EvalStep(stack, BinaryStep(op), host.sqrt) == Some(stack[..|stack| - 2] + [v])
  {
  }

  /** A script of one unary operation whose result reads back as itself. */
  lemma UnaryAlone(stack: seq<real>, op: UnaryOp, v: real, host: Host)
    requires stack != [] && Apply(op, stack[|stack| - 1], host.sqrt) == Ok(v)
    requires RoundTrips(v, host.doubleText)
    ensures Faithful(stack, [UnaryStep(op)], host)
    ensures Evaluate(stack, [UnaryStep(op)], host.sqrt) == Some(stack[..|stack| - 1] + [v])
  {
    assert EvalStep(stack, UnaryStep(op), host.sqrt) == Some(stack[..|stack| - 1] + [v]);
    PeelLast(stack, UnaryStep(op), host);
  }

  /** A number pushed and at once combined with the operand below it. */
  lemma PushThenBinary(stack: seq<real>, x: real, op: BinaryOp, v: real, host: Host)
    requires stack != [] && Compute(op, stack[|stack| - 1], x) == Ok(v)
    requires RoundTrips(x, host.doubleText) && RoundTrips(v, host.doubleText)
    ensures Faithful(stack, [PushNumber(x), BinaryStep(op)], host)
    ensures Evaluate(stack, [PushNumber(x), BinaryStep(op)], host.sqrt) == Some(stack[..|stack| - 1] + [v])
  {
    var pushed := stack + [x];
    PushDisplayable(stack, x, host);
    assert pushed[|pushed| - 2] == stack[|stack| - 1] && pushed[..|pushed| - 2] == stack[..|stack| - 1];
    BinaryDisplayable(pushed, op, v, host);
    PeelLast(pushed, BinaryStep(op), host);
    assert [PushNumber(x), BinaryStep(op)][1..] == [BinaryStep(op)];
    Peel(stack, [PushNumber(x), BinaryStep(op)], host);
  }

  /** Step `k` of the script, on the bare stack the previous step left. */
  predicate StepEvaluates(k: nat, host: Host)
    requires k >= 1
  {
    Faithful(Expected(k - 1), TestStep(k), host) &&
    Evaluate(Expected(k - 1), TestStep(k), host.sqrt) == Some(Expected(k))
  }

  lemma Step1Spec(host: Host)
    ensures StepEvaluates(1, host)
  {
    assert Expected(0) == [] && TestStep(1) == [PushNumber(10.0), PushNumber(5.0)] && Expected(1) == [10.0, 5.0];
    IntegralRoundTrips(10, host.doubleText);
    IntegralRoundTrips(5, host.doubleText);
    PeelLast([10.0], PushNumber(5.0), host);
    assert TestStep(1)[1..] == [PushNumber(5.0)];
    assert [] + [10.0] == [10.0] && [10.0] + [5.0] == [10.0, 5.0];
    Peel([], TestStep(1), host);
  }

  lemma Step2Spec(host: Host)
    ensures StepEvaluates(2, host)
  {
    assert Expected(1) == [10.0, 5.0] && TestStep(2) == [BinaryStep(Addition)] && Expected(2) == [15.0];
    IntegralRoundTrips(15, host.doubleText);
    BinaryDisplayable([10.0, 5.0], Addition, 15.0, host);
    assert [10.0, 5.0][..0] + [15.0] == [15.0];
    PeelLast([10.0, 5.0], BinaryStep(Addition), host);
  }

  lemma Step3Spec(host: Host)
    ensures StepEvaluates(3, host)
  {
    assert Expected(2) == [15.0] && TestStep(3) == [PushNumber(3.0), BinaryStep(Multiplication)] && Expected(3) == [45.0];
    IntegralRoundTrips(3, host.doubleText);
    IntegralRoundTrips(45, host.doubleText);
    PushThenBinary([15.0], 3.0, Multiplication, 45.0, host);
    assert [15.0][..0] + [45.0] == [45.0];
  }

  lemma Step4Spec(host: Host)
    ensures StepEvaluates(4, host)
  {
    assert Expected(3) == [45.0] && TestStep(4) == [PushNumber(9.0), BinaryStep(Division)] && Expected(4) == [5.0];
    IntegralRoundTrips(9, host.doubleText);
    IntegralRoundTrips(5, host.doubleText);
    assert Compute(Division, 45.0, 9.0) == Ok(5.0);
    PushThenBinary([45.0], 9.0, Division, 5.0, host);
    assert [45.0][..0] + [5.0] == [5.0];
  }

  lemma Step5Spec(host: Host)
    requires ScenarioHost(host)
    ensures StepEvaluates(5, host)
  {
    assert Expected(4) == [5.0] && TestStep(5) == [PushNumber(4.0), UnaryStep(SquareRoot)] && Expected(5) == [5.0, 2.0];
    IntegralRoundTrips(4, host.doubleText);
    IntegralRoundTrips(2, host.doubleText);
    PushDisplayable([5.0], 4.0, host);
    assert [5.0] + [4.0] == [5.0, 4.0];
    UnaryAlone([5.0, 4.0], SquareRoot, 2.0, host);
    assert [5.0, 4.0][..1] + [2.0] == [5.0, 2.0];
    assert TestStep(5)[1..] == [UnaryStep(SquareRoot)];
    Peel([5.0], TestStep(5), host);
  }

  lemma Step6Spec(host: Host)
    ensures StepEvaluates(6, host)
  {
    assert Expected(5) == [5.0, 2.0] && TestStep(6) == [UnaryStep(Square)] && Expected(6) == [5.0, 4.0];
    IntegralRoundTrips(4, host.doubleText);
    UnaryAlone([5.0, 2.0], Square, 4.0, host);
    assert [5.0, 2.0][..1] + [4.0] == [5.0, 4.0];
  }

  lemma Step7Spec(host: Host)
    requires ScenarioHost(host)
    ensures StepEvaluates(7, host)
  {
    assert Expected(6) == [5.0, 4.0] && TestStep(7) == [UnaryStep(Reciprocal)] && Expected(7) == [5.0, 0.25];
    QuarterRoundTrips(host.doubleText);
    assert Apply(Reciprocal, 4.0, host.sqrt) == Ok(0.25);
    UnaryAlone([5.0, 4.0], Reciprocal, 0.25, host);
    assert [5.0, 4.0][..1] + [0.25] == [5.0, 0.25];
  }

  lemma Step8Spec(host: Host)
    requires ScenarioHost(host)
    ensures StepEvaluates(8, host)
  {
    assert Expected(7) == [5.0, 0.25] && TestStep(8) == [PushNumber(2.0), BinaryStep(Multiplication)] && Expected(8) == [5.0, 0.5];
    HalfRoundTrips(host.doubleText);
    IntegralRoundTrips(2, host.doubleText);
    assert Compute(Multiplication, 0.25, 2.0) == Ok(0.5);
    PushThenBinary([5.0, 0.25], 2.0, Multiplication, 0.5, host);
    assert [5.0, 0.25][..1] + [0.5] == [5.0, 0.5];
  }

  lemma Step9Spec(host: Host)
    requires ScenarioHost(host)
    ensures StepEvaluates(9, host)
  {
    assert Expected(8) == [5.0, 0.5] && TestStep(9) == [PushNumber(5.0), BinaryStep(Subtraction)] && Expected(9) == [5.0, -4.5];
    MinusFourAndHalfRoundTrips(host.doubleText);
    IntegralRoundTrips(5, host.doubleText);
    assert Compute(Subtraction, 0.5, 5.0) == Ok(-4.5);
    PushThenBinary([5.0, 0.5], 5.0, Subtraction, -4.5, host);
    assert [5.0, 0.5][..1] + [-4.5] == [5.0, -4.5];
  }

  lemma Step10Spec(host: Host)
    ensures StepEvaluates(10, host)
  {
    assert Expected(9) == [5.0, -4.5] && TestStep(10) == [ClearStep] && Expected(10) == [];
    PeelLast([5.0, -4.5], ClearStep, host);
  }

  lemma StepSpec(host: Host, k: nat)
    requires ScenarioHost(host) && 1 <= k <= 10
    ensures StepEvaluates(k, host)
  {
    if k == 1 { Step1Spec(host); }
    else if k == 2 { Step2Spec(host); }
    else if k == 3 { Step3Spec(host); }
    else if k == 4 { Step4Spec(host); }
    else if k == 5 { Step5Spec(host); }
    else if k == 6 { Step6Spec(host); }
    else if k == 7 { Step7Spec(host); }
    else if k == 8 { Step8Spec(host); }
    else if k == 9 { Step9Spec(host); }
    else { Step10Spec(host); }
  }

  /** After every step the stack is the one the test program checks, and no error is set. */
  lemma {:induction false} AfterStepSpec(host: Host, k: nat)
    requires ScenarioHost(host) && k <= 10
    ensures AfterStep(host, k).stack == Expected(k) && !AfterStep(host, k).hasError
    decreases k
  {
    if k > 0 {
      AfterStepSpec(host, k - 1);
      StepSpec(host, k);
      RunMatchesEvaluate(AfterStep(host, k - 1), TestStep(k), host);
    }
  }

  /**
   * The console test program: 10 and 5 entered, then +, *3, /9, square root
   * of 4, square, reciprocal, *2 and -5, each result pushed back, then Clear.
   */
  lemma CalculatorTestsScenario(host: Host)
    requires ScenarioHost(host)
    ensures AfterStep(host, 1).stack == [10.0, 5.0] && AfterStep(host, 2).stack == [15.0]
    ensures AfterStep(host, 3).stack == [45.0] && AfterStep(host, 4).stack == [5.0]
    ensures AfterStep(host, 5).stack == [5.0, 2.0] && AfterStep(host, 6).stack == [5.0, 4.0]
    ensures AfterStep(host, 7).stack == [5.0, 0.25] && AfterStep(host, 8).stack == [5.0, 0.5]
    ensures AfterStep(host, 9).stack == [5.0, -4.5] && !AfterStep(host, 9).hasError
    ensures AfterStep(host, 10).stack == []
  {
    AfterStepSpec(host, 1);
    AfterStepSpec(host, 2);
    AfterStepSpec(host, 3);
    AfterStepSpec(host, 4);
    AfterStepSpec(host, 5);
    AfterStepSpec(host, 6);
    AfterStepSpec(host, 7);
    AfterStepSpec(host, 8);
    AfterStepSpec(host, 9);
    AfterStepSpec(host, 10);
  }

  /** The stack, top first, as `stackToString` prints it with `show` for each element. */
  function StackText(stack: seq<real>, show: real -> string): string
  {
    OperandStack.Bracketed(OperandStack.Shown(OperandStack.Reverse(stack), show))
  }

  lemma PrintedStacks(show: real -> string)
    ensures StackText([10.0, 5.0], show) == "[" + show(5.0) + ", " + show(10.0) + "]"
    ensures StackText([5.0, -4.5], show) == "[" + show(-4.5) + ", " + show(5.0) + "]"
    ensures StackText([], show) == "[]"
  {
    OperandStack.BracketedPair(10.0, 5.0, show);
    OperandStack.BracketedPair(5.0, -4.5, show);
    assert OperandStack.Reverse<real>([]) == [];
  }

  /** What `stackToString` prints at the checks after 10 and 5 are entered, after "*2 - 5" and after Clear. */
  lemma CalculatorTestsText(host: Host, show: real -> string)
    requires ScenarioHost(host)
    ensures StackText(AfterStep(host, 1).stack, show) == "[" + show(5.0) + ", " + show(10.0) + "]"
    ensures StackText(AfterStep(host, 9).stack, show) == "[" + show(-4.5) + ", " + show(5.0) + "]"
    ensures StackText(AfterStep(host, 10).stack, show) == "[]"
  {
    CalculatorTestsScenario(host);
    PrintedStacks(show);
  }
}

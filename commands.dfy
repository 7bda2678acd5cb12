/**
 * The commands' `execute` methods, run step by step against a `State`
 * object passed in explicitly, each proved against its transition in
 * `CommandSpec`.
 */
module Commands {
  import opened Wrappers
  import opened Numeric
  import opened Arithmetic
  import opened CalcState
  import CommandSpec

  method ExecuteBinaryOperation(operand1: real, operand2: real, state: State, op: BinaryOp)
    modifies state
    ensures state.Snap() ==
              CommandSpec.ExecuteBinaryOperation(old(state.Snap()), operand1, operand2, op, state.doubleText)
  {
    match Compute(op, operand1, operand2)
    case Ok(result) =>
      state.SetValue(result);
    case Err(message) =>
      state.SetError(message);
  }

  method ExecuteDigit(state: State, digit: int)
    modifies state
    ensures state.Snap() == CommandSpec.ExecuteDigit(old(state.Snap()), digit, state.doubleText)
  {
    var waiting := state.IsWaitingForNextOperand();
    if waiting {
      state.SetValue(0.0);
      state.SetWaitingForNextOperand(false);
    }
    state.AppendValue(digit);
  }

  method ExecuteUnary(state: State, op: UnaryOp, sqrt: real -> real)
    requires state.Valid()
    modifies state, state.stack, state.stack.elements
    ensures state.Valid() && state.stack.elements == old(state.stack.elements)
    ensures state.Snap() == CommandSpec.ExecuteUnary(old(state.Snap()), op, Host(sqrt, state.doubleText))
  {
    var size := state.StackSize();
    if size < 1 {
      return;
    }
    var operand := state.PopFromStack();
    match Apply(op, operand, sqrt) {
      case Ok(result) =>
        state.SetValue(result);
      case Err(message) =>
        state.SetError(message);
    }
    state.PrepareForNextOperand();
  }

  method ExecuteBinary(state: State, op: BinaryOp)
    requires state.Valid()
    modifies state, state.stack, state.stack.elements
    ensures state.Valid() && state.stack.elements == old(state.stack.elements)
    ensures state.Snap() == CommandSpec.ExecuteBinary(old(state.Snap()), op, state.doubleText)
  {
    var size := state.StackSize();
    if size < 2 {
      return;
    }
    var operand2 := state.PopFromStack();
    var operand1 := state.PopFromStack();
    ExecuteBinaryOperation(operand1, operand2, state, op);
    state.PrepareForNextOperand();
  }

  method ExecuteEnter(state: State)
    requires state.Valid()
    modifies state, state.stack, state.stack.elements
    ensures state.Valid() && (state.stack.elements == old(state.stack.elements) || fresh(state.stack.elements))
    ensures state.Snap() == CommandSpec.ExecuteEnter(old(state.Snap()), state.doubleText)
  {
    var currentValue := state.Value();
    state.PushToStack(currentValue);
    state.PrepareForNextOperand();
    var currentOperator := state.GetCurrentOperator();
    if currentOperator.Some? {
      var operand1 := state.PopFromStack();
      var operand2 := currentValue;
      ExecuteBinaryOperation(operand1, operand2, state, currentOperator.value);
      state.SetCurrentOperator(None);
      state.SetWaitingForNextOperand(false);
    }
  }

  /** Runs one command. */
  method Execute(state: State, cmd: CommandSpec.Command, sqrt: real -> real)
    requires state.Valid()
    modifies state, state.stack, state.stack.elements
    ensures state.Valid() && (state.stack.elements == old(state.stack.elements) || fresh(state.stack.elements))
    ensures state.Snap() == CommandSpec.Execute(old(state.Snap()), cmd, Host(sqrt, state.doubleText))
  {
    match cmd
    case Digit(d) => ExecuteDigit(state, d);
    case BackSpace => state.DelLastValue();
    case ClearError => state.ClearError();
    case Clear => state.Clear();
    case MemoryRecall => state.RecallValue();
    case MemoryStore => state.StoreValue();
    case ChangeSign => state.ChangeSign();
    case AppendDot => state.AppendDot();
    case Unary(op) => ExecuteUnary(state, op, sqrt);
    case Binary(op) => ExecuteBinary(state, op);
    case Enter => ExecuteEnter(state);
  }
}

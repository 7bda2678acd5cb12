/**
 * The calculator state as an object whose methods update its fields in place,
 * each proved against the transition of the same name in `StateSpec`.
 */
module CalcState {
  import opened Wrappers
  import opened Numeric
  import opened Arithmetic
  import opened OperandStack
  import StateSpec

  class State {
    var value: string
    var memory: string
    var error: string
    var hasError: bool
    var isMutable: bool
    var currentOperator: Option<BinaryOp>
    var waitingForNextOperand: bool
    var clearedOnNextInput: bool
    const stack: Stack<real>
    /** The host's `Double.toString`, used by `formatValue` for every value that fails `x == (long) x`. */
    const doubleText: real -> string

    ghost predicate Valid()
      reads this, stack, stack.elements
    {
      stack.Valid()
    }

    /** The fields as a `StateSpec.Calc` value. */
    ghost function Snap(): StateSpec.Calc
      reads this, stack
    {
      StateSpec.Calc(value, memory, error, hasError, isMutable, currentOperator,
                     waitingForNextOperand, clearedOnNextInput, stack.Contents)
    }

    constructor (doubleText: real -> string)
      ensures Valid() && fresh(stack) && fresh(stack.elements)
      ensures Snap() == StateSpec.Initial() && this.doubleText == doubleText
    {
      value := "";
      memory := "0";
      error := "";
      hasError := false;
      isMutable := true;
      currentOperator := None;
      waitingForNextOperand := false;
      clearedOnNextInput := false;
      stack := new Stack();
      this.doubleText := doubleText;
    }

    method PushToStack(x: real)
      requires Valid()
      modifies stack, stack.elements
      ensures Valid() && (stack.elements == old(stack.elements) || fresh(stack.elements))
      ensures Snap() == StateSpec.PushToStack(old(Snap()), x)
    {
      stack.Push(x);
    }

    /** Pops the top; on an empty stack sets the error "Stack is empty" and returns 0. */
    method PopFromStack() returns (x: real)
      requires Valid()
      modifies this, stack, stack.elements
      ensures Valid() && stack.elements == old(stack.elements)
      ensures (Snap(), x) == StateSpec.PopFromStack(old(Snap()))
    {
      if stack.IsEmpty() {
        SetError(StateSpec.STACK_IS_EMPTY);
        return 0.0;
      }
      var r := stack.Pop();
      x := r.value;
    }

    method StackToString(show: real -> string) returns (s: string)
      requires Valid()
      ensures s == Bracketed(Shown(Reverse(Snap().stack), show))
    {
      s := stack.ToString(show);
    }

    method StackToArray() returns (a: array<real>)
      requires Valid()
      ensures fresh(a) && a[..] == Snap().stack
    {
      a := stack.ToArray();
    }

    method ClearError()
      modifies this
      ensures Snap() == StateSpec.ClearError(old(Snap()))
    {
      value := "";
      error := "";
      hasError := false;
      isMutable := true;
    }

    method IsStackEmpty() returns (b: bool)
      requires Valid()
      ensures b <==> Snap().stack == []
    {
      b := stack.IsEmpty();
    }

    method Clear()
      requires Valid()
      modifies this, stack, stack.elements
      ensures Valid() && stack.elements == old(stack.elements)
      ensures Snap() == StateSpec.Clear(old(Snap()))
    {
      value := "";
      isMutable := true;
      ClearStack();
    }

    /** Pops until the stack is empty. */
    method ClearStack()
      requires Valid()
      modifies stack, stack.elements
      ensures Valid() && stack.elements == old(stack.elements)
      ensures stack.Contents == []
    {
      while !stack.IsEmpty()
        invariant Valid() && stack.elements == old(stack.elements)
        decreases stack.size
      {
        var _ := stack.Pop();
      }
    }

    method AppendValue(x: int)
      modifies this
      ensures Snap() == StateSpec.AppendValue(old(Snap()), x)
    {
      if clearedOnNextInput {
        value := "";
        clearedOnNextInput := false;
      }
      value := value + IntText(x);
    }

    method AppendDot()
      modifies this
      ensures Snap() == StateSpec.AppendDot(old(Snap()))
    {
      if value == "" {
        value := value + "0";
      }
      if '.' !in value {
        value := value + ".";
      }
    }

    method PrepareForNextOperand()
      modifies this
      ensures Snap() == StateSpec.PrepareForNextOperand(old(Snap()))
    {
      clearedOnNextInput := true;
      waitingForNextOperand := true;
    }

    /**
     * The sign change as evidently intended (see `StateSpec.ChangeSignCorrected`):
     * as written, the `else` branch also strips the first character of an
     * unsigned zero, and throws on an empty buffer.
     */
    method ChangeSign()
      modifies this
      ensures Snap() == StateSpec.ChangeSignCorrected(old(Snap()))
    {
      if !hasError {
        var val := Value();
        if val > 0.0 {
          value := "-" + value;
        } else if value == "" {
        } else if !hasError && value[0] != '-' && value[0] != '+' {
          value := "-" + value;
        } else {
          value := value[1..];
        }
      }
    }

    method DelLastValue()
      modifies this
      ensures Snap() == StateSpec.DelLastValue(old(Snap()))
    {
      if isMutable && value != "" {
        value := value[..|value| - 1];
      }
    }

    method StoreValue()
      modifies this
      ensures Snap() == StateSpec.StoreValue(old(Snap()))
    {
      if !hasError {
        memory := if value == "" then "0" else value;
      }
    }

    method RecallValue()
      modifies this
      ensures Snap() == StateSpec.RecallValue(old(Snap()))
    {
      value := memory;
      isMutable := false;
    }

    method GetValueString() returns (s: string)
      ensures s == StateSpec.ValueString(Snap())
    {
      s := if hasError then error else if value == "" then "0" else value;
    }

    /** The buffer as a number; an unparsable buffer sets an error and reads as 0. */
    method Value() returns (x: real)
      modifies this
      ensures (Snap(), x) == StateSpec.Value(old(Snap()))
    {
      if value == "" {
        return 0.0;
      }
      match ParseDecimal(value)
      case Some(v) =>
        x := v;
      case None =>
        SetError(StateSpec.INVALID_NUMBER + value);
        x := 0.0;
    }

    method SetValue(x: real)
      modifies this
      ensures Snap() == StateSpec.SetValue(old(Snap()), x, doubleText)
    {
      value := FormatValue(x, doubleText);
      isMutable := false;
    }

    method SetError(message: string)
      modifies this
      ensures Snap() == StateSpec.SetError(old(Snap()), message)
    {
      error := message;
      hasError := true;
    }

    method SetCurrentOperator(operator: Option<BinaryOp>)
      modifies this
      ensures Snap() == StateSpec.SetCurrentOperator(old(Snap()), operator)
    {
      currentOperator := operator;
    }

    method GetCurrentOperator() returns (operator: Option<BinaryOp>)
      ensures operator == Snap().currentOperator
    {
      operator := currentOperator;
    }

    method IsWaitingForNextOperand() returns (waiting: bool)
      ensures waiting == Snap().waitingForNextOperand
    {
      waiting := waitingForNextOperand;
    }

    method SetWaitingForNextOperand(waiting: bool)
      modifies this
      ensures Snap() == StateSpec.SetWaitingForNextOperand(old(Snap()), waiting)
    {
      waitingForNextOperand := waiting;
    }

    method StackSize() returns (n: nat)
      requires Valid()
      ensures n == |Snap().stack|
    {
      n := stack.Size();
    }
  }
}

/**
 * The pure part of the command set: the `compute` overrides of the binary
 * operations and the functions of the unary ones. An `ArithmeticException`
 * becomes `Err` with the exception's message.
 */
module Arithmetic {
  import opened Wrappers

  datatype BinaryOp = Addition | Subtraction | Multiplication | Division

  datatype UnaryOp = Square | SquareRoot | Reciprocal

  const ILLEGAL_DIVISION := "Illegal division"
  const NEGATIVE_ROOT := "Cannot compute square root of a negative number."
  const RECIPROCAL_OF_ZERO := "Cannot compute reciprocal of zero."

  /** `operand1 op operand2`: the left operand is the one that was lower on the stack. */
  function Compute(op: BinaryOp, operand1: real, operand2: real): (r: Result<real>)
    ensures r.Err? <==> op == Division && operand2 == 0.0
    ensures r.Err? ==> r.msg == ILLEGAL_DIVISION
  {
    match op
    case Addition => Ok(operand1 + operand2)
    case Subtraction => Ok(operand1 - operand2)
    case Multiplication => Ok(operand1 * operand2)
    case Division => if operand2 == 0.0 then Err(ILLEGAL_DIVISION) else Ok(operand1 / operand2)
  }

  /** The function a unary operation applies; `sqrt` is the host's `Math.sqrt`. */
  function Apply(op: UnaryOp, operand: real, sqrt: real -> real): (r: Result<real>)
    ensures r.Err? <==> (op == SquareRoot && operand < 0.0) || (op == Reciprocal && operand == 0.0)
    ensures r.Err? ==> r.msg == (if op == SquareRoot then NEGATIVE_ROOT else RECIPROCAL_OF_ZERO)
  {
    match op
    case Square => Ok(operand * operand)
    case SquareRoot => if operand < 0.0 then Err(NEGATIVE_ROOT) else Ok(sqrt(operand))
    case Reciprocal => if operand == 0.0 then Err(RECIPROCAL_OF_ZERO) else Ok(1.0 / operand)
  }
}

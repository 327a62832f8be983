/** Tokens of response-curve expressions, with the operator tables. */
module RpnTokens {
  datatype Operator = Plus | Minus | Mul | Div | Exp
  datatype Assoc = Right | Left
  datatype Function = Ln | Log2 | Log10 | Sin | Cos | Abs

  datatype Token =
    | Unknown
    | Variable
    | Constant(val: real)
    | Oper(op: Operator)
    | Func(fn: Function)
    | ParenOpen
    | ParenClose
    | End
  {
    predicate IsOperand() {
      Variable? || Constant?
    }

    predicate IsParen() {
      ParenOpen? || ParenClose?
    }
  }

  /** Size of the parser's stack and output buffers, and of the evaluator's stack. */
  const RPN_MAX_TOKENS: nat := 256

  /** PUSH and QUEUE refuse to go beyond this many tokens. */
  const RPN_LIMIT: nat := RPN_MAX_TOKENS - 1

  function Associativity(op: Operator): Assoc {
    match op
    case Plus => Left
    case Minus => Left
    case Mul => Left
    case Div => Left
    case Exp => Right
  }

  function Precedence(op: Operator): nat {
    match op
    case Plus => 2
    case Minus => 2
    case Mul => 3
    case Div => 3
    case Exp => 4
  }

  /** An incoming `op1` sends a stacked `op2` to the output. */
  predicate Yields(op1: Operator, op2: Operator) {
    || (Associativity(op1) == Left && Precedence(op1) <= Precedence(op2))
    || (Associativity(op1) == Right && Precedence(op1) < Precedence(op2))
  }
}

/**
 The Shunting-yard compiler as a transition system over the operator stack and the
 output queue. Both are bounded: a PUSH or QUEUE beyond RPN_LIMIT fails the parse.
 */
module RpnParser {
  import opened Wrappers
  import opened RpnTokens

  datatype State = Failed | Running(stack: seq<Token>, output: seq<Token>)

  const Start: State := Running([], [])

  function Push(stack: seq<Token>, output: seq<Token>, tok: Token): State {
    if |stack| >= RPN_LIMIT then Failed else Running(stack + [tok], output)
  }

  function Queue(stack: seq<Token>, output: seq<Token>, tok: Token): State {
    if |output| >= RPN_LIMIT then Failed else Running(stack, output + [tok])
  }

  /** Queue the stacked operators that `op` lets go first; drop an UNKNOWN bottom marker. */
  function PopOperators(op: Operator, stack: seq<Token>, output: seq<Token>): State
    decreases |stack|
  {
    if stack == [] then Running([], output)
    else
      var rest, top := stack[..|stack| - 1], stack[|stack| - 1];
      if top.Oper? && Yields(op, top.op) then
        if |output| >= RPN_LIMIT then Failed else PopOperators(op, rest, output + [top])
      else if top.Unknown? then Running(rest, output)
      else Running(stack, output)
  }

  /** Queue operators down to the matching parenthesis, then a function in front of it. */
  function CloseParen(stack: seq<Token>, output: seq<Token>): State
    decreases |stack|
  {
    if stack == [] then Failed
    else
      var rest, top := stack[..|stack| - 1], stack[|stack| - 1];
      if top.ParenOpen? then ApplyFunction(rest, output)
      else if top.Oper? && |output| < RPN_LIMIT then CloseParen(rest, output + [top])
      else Failed
  }

  /** Popping an empty stack yields UNKNOWN, which is pushed back like any other token. */
  function ApplyFunction(stack: seq<Token>, output: seq<Token>): State {
    if stack == [] then Running([Unknown], output)
    else
      var rest, top := stack[..|stack| - 1], stack[|stack| - 1];
      if top.Func? then Queue(rest, output, top) else Running(stack, output)
  }

  /** One turn of the parser's loop on a token other than END. */
  function Step(st: State, tok: Token): State {
    if st.Failed? then Failed
    else
      match tok
      case Constant(_) => Queue(st.stack, st.output, tok)
      case Variable => Queue(st.stack, st.output, tok)
      case Func(_) => Push(st.stack, st.output, tok)
      case Oper(op) =>
        var popped := PopOperators(op, st.stack, st.output);
        if popped.Failed? then Failed else Push(popped.stack, popped.output, tok)
      case ParenOpen => Push(st.stack, st.output, tok)
      case ParenClose => CloseParen(st.stack, st.output)
      case _ => Failed
  }

  function Run(toks: seq<Token>, st: State): State {
    if toks == [] then st else Run(toks[1..], Step(st, toks[0]))
  }

  /** At the end of the input only operators may be left above the bottom of the stack. */
  function Finish(stack: seq<Token>, output: seq<Token>): Option<seq<Token>>
    decreases |stack|
  {
    if stack == [] || stack[|stack| - 1].Unknown? then
      if |output| >= RPN_LIMIT then None else Some(output + [End])
    else if stack[|stack| - 1].Oper? && |output| < RPN_LIMIT then
      Finish(stack[..|stack| - 1], output + [stack[|stack| - 1]])
    else None
  }

  /** The compiled form of a token list, END included, or None when the parser gives up. */
  function Compile(toks: seq<Token>): Option<seq<Token>> {
    var st := Run(toks, Start);
    if st.Failed? then None else Finish(st.stack, st.output)
  }

  lemma {:induction false} RunConcat(a: seq<Token>, b: seq<Token>, st: State)
    ensures Run(a + b, st) == Run(b, Run(a, st))
  {
    if a == [] {
      assert a + b == b;
    } else {
      assert (a + b)[1..] == a[1..] + b;
      RunConcat(a[1..], b, Step(st, a[0]));
    }
  }

  lemma {:induction false} RunFailed(toks: seq<Token>)
    ensures Run(toks, Failed) == Failed
  {
    if toks != [] {
      RunFailed(toks[1..]);
    }
  }
}

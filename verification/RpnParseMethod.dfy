/**
 rpn_parse on its buffers: the lexer feeds the Shunting-yard loop, whose operator stack
 and output queue are fixed arrays. It is proved against the transition system of RpnParser.
 */
module RpnParseMethod {
  import opened Wrappers
  import opened RpnTokens
  import opened RpnParser
  import opened RpnLexer

  /** What is left of the parse when the parser is in `st` and the input lexes to `input`. */
  function Resume(st: State, input: Lexed): Option<seq<Token>> {
    var end := Run(input.toks, st);
    if end.Failed? || !input.complete then None else Finish(end.stack, end.output)
  }

  function ParseText(strtod: Strtod, s: string): Option<seq<Token>>
    requires InBounds(strtod)
  {
    Resume(Start, Lex(strtod, s, 0))
  }

  lemma {:induction false} ResumeStep(st: State, tok: Token, rest: Lexed)
    ensures Resume(st, Lexed([tok] + rest.toks, rest.complete)) == Resume(Step(st, tok), rest)
  {
    assert ([tok] + rest.toks)[1..] == rest.toks;
  }

  lemma {:induction false} ResumeFailed(rest: Lexed)
    ensures Resume(Failed, rest) == None
  {
    RunFailed(rest.toks);
  }

  /** A token array of the parser with its fill index; PUSH and QUEUE are Put, POP is Pop. */
  class TokenBuffer {
    const data: array<Token>
    var len: nat

    ghost predicate Valid()
      reads this
    {
      data.Length == RPN_MAX_TOKENS && len <= RPN_MAX_TOKENS - 1
    }

    ghost function Contents(): seq<Token>
      reads this, data
      requires Valid()
    {
      data[..len]
    }

    constructor ()
      ensures Valid() && fresh(data) && Contents() == []
    {
      data := new Token[RPN_MAX_TOKENS](_ => Unknown);
      len := 0;
    }

    method Put(tok: Token) returns (ok: bool)
      requires Valid()
      modifies this`len, data
      ensures Valid()
      ensures ok == (|old(Contents())| < RPN_LIMIT)
      ensures Contents() == old(Contents()) + if ok then [tok] else []
    {
      ok := len < RPN_LIMIT;
      if ok {
        data[len] := tok;
        len := len + 1;
      }
    }

    method Pop() returns (tok: Token)
      requires Valid()
      modifies this`len, data
      ensures Valid()
      ensures old(Contents()) == [] ==> tok == Unknown && Contents() == []
      ensures old(Contents()) != [] ==> old(Contents()) == Contents() + [tok]
    {
      if len < 1 {
        tok := Unknown;
      } else {
        len := len - 1;
        tok := data[len];
        data[len] := Unknown;
      }
    }
  }

  /** The parser's two buffers, as a state of the transition system. */
  ghost function Now(stack: TokenBuffer, output: TokenBuffer): State
    reads stack, stack.data, output, output.data
    requires stack.Valid() && output.Valid()
  {
    Running(stack.Contents(), output.Contents())
  }

  ghost predicate Apart(stack: TokenBuffer, output: TokenBuffer)
    reads stack, output
  {
    stack.Valid() && output.Valid() && stack != output && stack.data != output.data
  }

  // --- the transitions by the top of the stack

  lemma {:induction false} PopStep(op: Operator, rest: seq<Token>, top: Token, output: seq<Token>)
    ensures PopOperators(op, [], output) == Running([], output)
    ensures var popped := PopOperators(op, rest + [top], output);
            if top.Oper? && Yields(op, top.op) then
              if |output| >= RPN_LIMIT then popped == Failed else popped == PopOperators(op, rest, output + [top])
            else if top.Unknown? then popped == Running(rest, output)
            else popped == Running(rest + [top], output)
  {
    assert (rest + [top])[..|rest|] == rest;
  }

  lemma {:induction false} CloseStep(rest: seq<Token>, top: Token, output: seq<Token>)
    ensures CloseParen([], output) == Failed
    ensures var closed := CloseParen(rest + [top], output);
            if top.ParenOpen? then closed == ApplyFunction(rest, output)
            else if top.Oper? && |output| < RPN_LIMIT then closed == CloseParen(rest, output + [top])
            else closed == Failed
  {
    assert (rest + [top])[..|rest|] == rest;
  }

  lemma {:induction false} FinishStep(rest: seq<Token>, top: Token, output: seq<Token>)
    ensures Finish([], output) == if |output| >= RPN_LIMIT then None else Some(output + [End])
    ensures var finished := Finish(rest + [top], output);
            if top.Unknown? then finished == Finish([], output)
            else if top.Oper? && |output| < RPN_LIMIT then finished == Finish(rest, output + [top])
            else finished == None
  {
    assert (rest + [top])[..|rest|] == rest;
  }

  /** The operators that the incoming one sends to the output. */
  method PopYielding(stack: TokenBuffer, output: TokenBuffer, op: Operator) returns (ok: bool)
    requires Apart(stack, output)
    modifies stack`len, stack.data, output`len, output.data
    ensures Apart(stack, output)
    ensures PopOperators(op, old(stack.Contents()), old(output.Contents())) ==
            if ok then Now(stack, output) else Failed
  {
    hide PopOperators, Yields;
    ghost var popped := PopOperators(op, stack.Contents(), output.Contents());
    var t2 := stack.Pop();
    PopStep(op, stack.Contents(), t2, output.Contents());
    while t2.Oper?
      invariant Apart(stack, output) && |stack.Contents()| < RPN_LIMIT
      invariant t2.Unknown? || PopOperators(op, stack.Contents() + [t2], output.Contents()) == popped
      invariant t2.Unknown? ==> Now(stack, output) == popped
      decreases if t2.Oper? then stack.len + 1 else 0
    {
      PopStep(op, stack.Contents(), t2, output.Contents());
      if Yields(op, t2.op) {
        ok := output.Put(t2);
        if !ok { return; }
        t2 := stack.Pop();
        PopStep(op, stack.Contents(), t2, output.Contents());
      } else {
        ok := stack.Put(t2);
        break;
      }
    }
    if !t2.Unknown? && !t2.Oper? {
      PopStep(op, stack.Contents(), t2, output.Contents());
      ok := stack.Put(t2);
    }
    ok := true;
  }

  /** The case of an operator. */
  method TakeOperator(stack: TokenBuffer, output: TokenBuffer, t1: Token) returns (ok: bool)
    requires Apart(stack, output) && t1.Oper?
    modifies stack`len, stack.data, output`len, output.data
    ensures Apart(stack, output)
    ensures Step(old(Now(stack, output)), t1) == if ok then Now(stack, output) else Failed
  {
    ok := PopYielding(stack, output, t1.op);
    if ok {
      ok := stack.Put(t1);
    }
  }

  /** The case of a closing parenthesis. */
  method TakeClose(stack: TokenBuffer, output: TokenBuffer) returns (ok: bool)
    requires Apart(stack, output)
    modifies stack`len, stack.data, output`len, output.data
    ensures Apart(stack, output)
    ensures CloseParen(old(stack.Contents()), old(output.Contents())) == if ok then Now(stack, output) else Failed
  {
    hide CloseParen;
    ghost var closed := CloseParen(stack.Contents(), output.Contents());
    CloseStep([], Unknown, output.Contents());
    var t2 := stack.Pop();
    CloseStep(stack.Contents(), t2, output.Contents());
    while !t2.ParenOpen?
      invariant Apart(stack, output) && |stack.Contents()| < RPN_LIMIT
      invariant if t2.Unknown? then closed == Failed
                else CloseParen(stack.Contents() + [t2], output.Contents()) == closed
      decreases if t2.Unknown? then 0 else stack.len + 1
    {
      CloseStep(stack.Contents(), t2, output.Contents());
      if !t2.Oper? { return false; }
      ok := output.Put(t2);
      if !ok { return; }
      t2 := stack.Pop();
      CloseStep(stack.Contents(), t2, output.Contents());
    }
    CloseStep(stack.Contents(), t2, output.Contents());
    t2 := stack.Pop();
    if !t2.Func? {
      ok := stack.Put(t2);
    } else {
      ok := output.Put(t2);
    }
  }

  /** The case of END. */
  method TakeEnd(stack: TokenBuffer, output: TokenBuffer) returns (ok: bool)
    requires Apart(stack, output)
    modifies stack`len, stack.data, output`len, output.data
    ensures Apart(stack, output)
    ensures Finish(old(stack.Contents()), old(output.Contents())) == if ok then Some(output.Contents()) else None
  {
    hide Finish;
    ghost var finished := Finish(stack.Contents(), output.Contents());
    var t2 := stack.Pop();
    FinishStep(stack.Contents(), t2, output.Contents());
    while !t2.Unknown?
      invariant Apart(stack, output)
      invariant if t2.Unknown? then Finish([], output.Contents()) == finished
                else Finish(stack.Contents() + [t2], output.Contents()) == finished
      decreases if t2.Unknown? then 0 else stack.len + 1
    {
      FinishStep(stack.Contents(), t2, output.Contents());
      if !t2.Oper? { return false; }
      ok := output.Put(t2);
      if !ok { return; }
      t2 := stack.Pop();
      FinishStep(stack.Contents(), t2, output.Contents());
    }
    FinishStep([], Unknown, output.Contents());
    ok := output.Put(End);
  }

  /** The switch of the parser's loop, for a token other than END and UNKNOWN. */
  method TakeToken(stack: TokenBuffer, output: TokenBuffer, t1: Token) returns (ok: bool)
    requires Apart(stack, output) && !t1.End? && !t1.Unknown?
    modifies stack`len, stack.data, output`len, output.data
    ensures Apart(stack, output)
    ensures Step(old(Now(stack, output)), t1) == if ok then Now(stack, output) else Failed
  {
    match t1 {
      case Constant(_) => ok := output.Put(t1);
      case Variable => ok := output.Put(t1);
      case Func(_) => ok := stack.Put(t1);
      case Oper(_) => ok := TakeOperator(stack, output, t1);
      case ParenOpen => ok := stack.Put(t1);
      case ParenClose => ok := TakeClose(stack, output);
    }
  }

  /** The whole compiler: NULL, or a token array that starts with the compiled form. */
  method RpnParse(strtod: Strtod, expr: string) returns (result: array?<Token>)
    requires InBounds(strtod)
    ensures result == null <==> ParseText(strtod, expr) == None
    ensures result != null ==>
      && fresh(result) && result.Length == RPN_MAX_TOKENS
      && var rpn := ParseText(strtod, expr).value; |rpn| <= RPN_MAX_TOKENS && result[..|rpn|] == rpn
  {
    var stack := new TokenBuffer();
    var output := new TokenBuffer();
    var input := 0;
    ghost var parsed := ParseText(strtod, expr);
    while true
      invariant input <= |expr| && Apart(stack, output)
      invariant fresh(stack) && fresh(output) && fresh(stack.data) && fresh(output.data)
      invariant Resume(Now(stack, output), Lex(strtod, expr, input)) == parsed
      decreases |expr| - input
    {
      var t1, next := GetToken(strtod, expr, input);
      TokenProgress(strtod, expr, input);
      var ok;
      if t1.End? {
        ok := TakeEnd(stack, output);
        return if ok then output.data else null;
      }
      if t1.Unknown? { return null; }
      ResumeStep(Now(stack, output), t1, Lex(strtod, expr, next));
      ResumeFailed(Lex(strtod, expr, next));
      ok := TakeToken(stack, output, t1);
      if !ok { return null; }
      input := next;
    }
  }
}

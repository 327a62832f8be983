/**
 What the parser keeps of any token list it accepts, infix or not: the parentheses
 balance and every other token reaches the output, operands in their original order.
 */
module RpnConservation {
  import opened Wrappers
  import opened RpnTokens
  import opened RpnTrees
  import opened RpnParser
  import opened RpnEvaluator

  datatype Class = Operands | Opens | Solids {
    /** Solid tokens are those a compiled expression is made of. */
    predicate Has(tok: Token) {
      match this
      case Operands => tok.IsOperand()
      case Opens => tok.ParenOpen?
      case Solids => tok.IsOperand() || tok.Oper? || tok.Func?
    }
  }

  function Select(c: Class, toks: seq<Token>): seq<Token> {
    if toks == [] then []
    else Select(c, toks[..|toks| - 1]) + if c.Has(toks[|toks| - 1]) then [toks[|toks| - 1]] else []
  }

  lemma {:induction false} SelectSnoc(c: Class, toks: seq<Token>, tok: Token)
    ensures Select(c, toks + [tok]) == Select(c, toks) + if c.Has(tok) then [tok] else []
  {
    assert (toks + [tok])[..|toks|] == toks;
  }

  /** How many parentheses are open after `toks`. */
  function Height(toks: seq<Token>): int {
    if toks == [] then 0
    else
      Height(toks[..|toks| - 1]) +
      match toks[|toks| - 1]
      case ParenOpen => 1
      case ParenClose => -1
      case _ => 0
  }

  ghost predicate Balanced(toks: seq<Token>) {
    Height(toks) == 0 && forall k :: 0 <= k <= |toks| ==> Height(toks[..k]) >= 0
  }

  /** UNKNOWN only ever sits at the bottom; operands and closing parentheses never get here. */
  predicate WellStacked(stack: seq<Token>) {
    forall i :: 0 <= i < |stack| ==>
      stack[i].Oper? || stack[i].Func? || stack[i].ParenOpen? || (i == 0 && stack[i].Unknown?)
  }

  predicate WellFormed(stack: seq<Token>, output: seq<Token>) {
    WellStacked(stack) && Computes(output) && |output| <= RPN_LIMIT
  }

  /** A set of books: the solid tokens, the operands in order, the open parentheses. */
  datatype Books = Books(solid: multiset<Token>, operands: seq<Token>, height: int) {
    function Enter(tok: Token): Books {
      Books(
        solid + multiset(if Solids.Has(tok) then [tok] else []),
        operands + if tok.IsOperand() then [tok] else [],
        height + if tok.ParenOpen? then 1 else if tok.ParenClose? then -1 else 0)
    }
  }

  /** The books of the input read so far. */
  function Read(toks: seq<Token>): Books {
    Books(multiset(Select(Solids, toks)), Select(Operands, toks), Height(toks))
  }

  /** The books of what the parser holds. */
  function Held(stack: seq<Token>, output: seq<Token>): Books {
    Books(multiset(output) + multiset(Select(Solids, stack)), Select(Operands, output), |Select(Opens, stack)|)
  }

  lemma {:induction false} OpenThenClose(b: Books)
    ensures b.Enter(ParenOpen).Enter(ParenClose) == b
  {
  }

  lemma {:induction false} ReadSnoc(toks: seq<Token>, tok: Token)
    ensures Read(toks + [tok]) == Read(toks).Enter(tok)
  {
    SelectSnoc(Solids, toks, tok);
    SelectSnoc(Operands, toks, tok);
    assert (toks + [tok])[..|toks|] == toks;
  }

  ghost predicate Accounts(toks: seq<Token>, st: State) {
    st.Running? && WellFormed(st.stack, st.output) && Held(st.stack, st.output) == Read(toks)
  }

  lemma {:induction false} QueueOperand(stack: seq<Token>, output: seq<Token>, tok: Token)
    requires WellFormed(stack, output) && tok.IsOperand() && |output| < RPN_LIMIT
    ensures WellFormed(stack, output + [tok])
    ensures Held(stack, output + [tok]) == Held(stack, output).Enter(tok)
  {
    SelectSnoc(Operands, output, tok);
  }

  lemma {:induction false} PushHeld(stack: seq<Token>, output: seq<Token>, tok: Token)
    requires tok.Oper? || tok.Func? || tok.ParenOpen?
    ensures Held(stack + [tok], output) == Held(stack, output).Enter(tok)
  {
    SelectSnoc(Solids, stack, tok);
    SelectSnoc(Opens, stack, tok);
    hide Select;
    var before, after := Held(stack, output), Held(stack + [tok], output);
    assert Solids.Has(tok) == !tok.ParenOpen?;
    assert after.solid == before.solid + multiset(if tok.ParenOpen? then [] else [tok]);
    assert after.height == before.height + if tok.ParenOpen? then 1 else 0;
    assert before.operands == before.operands + [];
  }

  lemma {:induction false} PushToken(stack: seq<Token>, output: seq<Token>, tok: Token)
    requires WellFormed(stack, output) && (tok.Oper? || tok.Func? || tok.ParenOpen?)
    ensures WellFormed(stack + [tok], output)
    ensures Held(stack + [tok], output) == Held(stack, output).Enter(tok)
  {
    hide Held, Computes, Books.Enter;
    PushHeld(stack, output, tok);
  }

  lemma {:induction false} TopHeld(stack: seq<Token>, output: seq<Token>)
    requires stack != [] && (stack[|stack| - 1].Oper? || stack[|stack| - 1].Func?)
    ensures Held(stack[..|stack| - 1], output + [stack[|stack| - 1]]) == Held(stack, output)
  {
    var rest, top := stack[..|stack| - 1], stack[|stack| - 1];
    SelectSnoc(Operands, output, top);
    assert Select(Operands, output) + [] == Select(Operands, output);
    assert Select(Solids, stack) == Select(Solids, rest) + [top];
    assert Select(Opens, stack) == Select(Opens, rest) + [] == Select(Opens, rest);
  }

  /** Moving the top operator or function to the output leaves the books as they are. */
  lemma {:induction false} MoveTop(stack: seq<Token>, output: seq<Token>)
    requires WellFormed(stack, output) && stack != [] && |output| < RPN_LIMIT
    requires stack[|stack| - 1].Oper? || stack[|stack| - 1].Func?
    ensures var rest, out := stack[..|stack| - 1], output + [stack[|stack| - 1]];
            WellFormed(rest, out) && Held(rest, out) == Held(stack, output)
  {
    hide Held;
    TopHeld(stack, output);
  }

  lemma {:induction false} UnknownIsNotHeld(stack: seq<Token>, output: seq<Token>)
    requires stack != [] && stack[|stack| - 1].Unknown?
    ensures Held(stack[..|stack| - 1], output) == Held(stack, output)
  {
    var rest := stack[..|stack| - 1];
    assert Select(Solids, rest) + [] == Select(Solids, rest) && Select(Opens, rest) + [] == Select(Opens, rest);
  }

  lemma {:induction false} PopOperatorsConserves(op: Operator, stack: seq<Token>, output: seq<Token>)
    requires WellFormed(stack, output) && PopOperators(op, stack, output).Running?
    ensures var st := PopOperators(op, stack, output);
            WellFormed(st.stack, st.output) && Held(st.stack, st.output) == Held(stack, output)
    decreases |stack|
  {
    hide Held, Books.Enter, Computes;
    if stack != [] {
      var rest, top := stack[..|stack| - 1], stack[|stack| - 1];
      if top.Oper? && Yields(op, top.op) {
        MoveTop(stack, output);
        PopOperatorsConserves(op, rest, output + [top]);
      } else if top.Unknown? {
        UnknownIsNotHeld(stack, output);
      }
    }
  }

  lemma {:induction false} ApplyFunctionConserves(stack: seq<Token>, output: seq<Token>)
    requires WellFormed(stack, output) && ApplyFunction(stack, output).Running?
    ensures var st := ApplyFunction(stack, output);
            WellFormed(st.stack, st.output) && Held(st.stack, st.output) == Held(stack, output)
  {
    if stack == [] {
      SelectSnoc(Solids, [], Unknown);
      SelectSnoc(Opens, [], Unknown);
      assert [] + [Unknown] == [Unknown];
    } else if stack[|stack| - 1].Func? {
      MoveTop(stack, output);
    }
  }

  lemma {:induction false} CloseParenConserves(stack: seq<Token>, output: seq<Token>)
    requires WellFormed(stack, output) && CloseParen(stack, output).Running?
    ensures var st := CloseParen(stack, output);
            && WellFormed(st.stack, st.output)
            && Held(st.stack, st.output) == Held(stack, output).Enter(ParenClose)
    decreases |stack|
  {
    hide Held, Books.Enter, Computes;
    var rest, top := stack[..|stack| - 1], stack[|stack| - 1];
    if top.ParenOpen? {
      ApplyFunctionConserves(rest, output);
      PushToken(rest, output, ParenOpen);
      assert rest + [ParenOpen] == stack;
      OpenThenClose(Held(rest, output));
    } else {
      MoveTop(stack, output);
      CloseParenConserves(rest, output + [top]);
    }
  }

  lemma {:induction false} StepConserves(toks: seq<Token>, st: State, tok: Token)
    requires Accounts(toks, st) && Step(st, tok).Running?
    ensures Accounts(toks + [tok], Step(st, tok))
  {
    var Running(stack, output) := st;
    ReadSnoc(toks, tok);
    match tok
    case Constant(_) => QueueOperand(stack, output, tok);
    case Variable => QueueOperand(stack, output, tok);
    case Func(_) => PushToken(stack, output, tok);
    case ParenOpen => PushToken(stack, output, tok);
    case ParenClose => CloseParenConserves(stack, output);
    case Oper(op) =>
      PopOperatorsConserves(op, stack, output);
      var popped := PopOperators(op, stack, output);
      PushToken(popped.stack, popped.output, tok);
  }

  lemma {:induction false} NothingRead()
    ensures Run([], Start) == Start && Accounts([], Start) && Height([]) == 0
  {
  }

  lemma {:induction false} RunLast(st: State, tok: Token)
    ensures Run([tok], st) == Step(st, tok)
    ensures Run([tok], st).Running? ==> st.Running?
  {
    assert [tok][1..] == [];
  }

  lemma {:induction false} HeightIsHeld(toks: seq<Token>)
    requires Accounts(toks, Run(toks, Start))
    ensures Height(toks) >= 0
  {
    hide Run, Height;
  }

  lemma {:induction false} RunConserves(toks: seq<Token>)
    requires Run(toks, Start).Running?
    ensures Accounts(toks, Run(toks, Start))
    ensures forall k :: 0 <= k <= |toks| ==> Height(toks[..k]) >= 0
    decreases |toks|
  {
    hide Run, Step, Accounts, Height;
    if toks == [] {
      NothingRead();
    } else {
      var n := |toks| - 1;
      assert toks == toks[..n] + [toks[n]];
      RunConcat(toks[..n], [toks[n]], Start);
      RunLast(Run(toks[..n], Start), toks[n]);
      RunConserves(toks[..n]);
      StepConserves(toks[..n], Run(toks[..n], Start), toks[n]);
      HeightIsHeld(toks);
      forall k | 0 <= k <= |toks|
        ensures Height(toks[..k]) >= 0
      {
        assert if k <= n then toks[..n][..k] == toks[..k] else toks[..k] == toks;
      }
    }
  }

  lemma {:induction false} FinishConserves(stack: seq<Token>, output: seq<Token>) returns (body: seq<Token>)
    requires WellFormed(stack, output) && Finish(stack, output).Some?
    ensures Finish(stack, output).value == body + [End]
    ensures Computes(body) && |body| < RPN_LIMIT
    ensures Held([], body) == Held(stack, output)
    decreases |stack|
  {
    if stack == [] || stack[|stack| - 1].Unknown? {
      assert stack == [] || stack == [] + [Unknown];
      SelectSnoc(Solids, [], Unknown);
      SelectSnoc(Opens, [], Unknown);
      body := output;
    } else {
      MoveTop(stack, output);
      body := FinishConserves(stack[..|stack| - 1], output + [stack[|stack| - 1]]);
    }
  }

  /** Conservation for every accepted token list. */
  lemma {:induction false} CompileConserves(toks: seq<Token>) returns (body: seq<Token>)
    requires Compile(toks).Some?
    ensures Compile(toks).value == body + [End]
    ensures Balanced(toks)
    ensures multiset(body) == multiset(Select(Solids, toks))
    ensures Select(Operands, body) == Select(Operands, toks)
    ensures forall t :: t in toks ==> Solids.Has(t) || t.IsParen()
    ensures Computes(body) && |body| < RPN_LIMIT
  {
    var st := Run(toks, Start);
    RunConserves(toks);
    AcceptedTokensAreOrdinary(toks);
    body := FinishConserves(st.stack, st.output);
    assert toks[..|toks|] == toks;
    assert Held([], body).solid == multiset(body);
  }

  /** Only tokens the machine can skip or that end the input are missing from the classes above. */
  lemma {:induction false} AcceptedTokensAreOrdinary(toks: seq<Token>)
    requires Run(toks, Start).Running?
    ensures forall t :: t in toks ==> Solids.Has(t) || t.IsParen()
    decreases |toks|
  {
    if toks != [] {
      var n := |toks| - 1;
      assert toks == toks[..n] + [toks[n]];
      RunConcat(toks[..n], [toks[n]], Start);
      assert Run([toks[n]], Run(toks[..n], Start)) == Step(Run(toks[..n], Start), toks[n]);
      AcceptedTokensAreOrdinary(toks[..n]);
    }
  }

  /** On anything the parser outputs, the evaluator succeeds on exactly the postfix forms. */
  lemma {:induction false} EvaluatorDecidesParserOutput(m: Libm, toks: seq<Token>, x: real)
    requires Compile(toks).Some?
    ensures End in Compile(toks).value
    ensures var body := Body(Compile(toks).value);
            && (Calc(m, body, x, []).Normal? <==> exists e :: Postfix(e) == body)
            && (forall e :: Postfix(e) == body ==> Calc(m, body, x, []) == Normal(Value(m, e, x)))
            && Calc(m, body, x, []) != Abnormal(StackOverflow)
  {
    var body := CompileConserves(toks);
    BodyOfTerminated(body);
    CalcDecidesWellFormedness(m, body, x);
  }

  lemma {:induction false} BodyOfTerminated(body: seq<Token>)
    requires Computes(body)
    ensures End in body + [End] && Body(body + [End]) == body
  {
    assert (body + [End])[|body|] == End;
    if body != [] {
      assert (body + [End])[1..] == body[1..] + [End];
      BodyOfTerminated(body[1..]);
    }
  }
}

/** The stack machine that evaluates compiled expressions, against the value of their trees. */
module RpnEvaluator {
  import opened Wrappers
  import opened RpnTokens
  import opened RpnTrees

  /** The C library's functions, and the value a division by zero has there. */
  datatype Libm = Libm(
    pow: (real, real) -> real,
    log: real -> real,
    log2: real -> real,
    log10: real -> real,
    sin: real -> real,
    cos: real -> real,
    overZero: real -> real)
  {
    function Divide(a: real, b: real): real {
      if b == 0.0 then overZero(a) else a / b
    }

    function Binary(op: Operator, a: real, b: real): real {
      match op
      case Plus => a + b
      case Minus => a - b
      case Mul => a * b
      case Div => Divide(a, b)
      case Exp => pow(a, b)
    }

    function Unary(fn: Function, v: real): real {
      match fn
      case Ln => log(v)
      case Log2 => log2(v)
      case Log10 => log10(v)
      case Sin => sin(v)
      case Cos => cos(v)
      case Abs => if v >= 0.0 then v else -v
    }
  }

  /** The value of a tree at `x`. */
  function Value(m: Libm, e: Expr, x: real): real {
    match e
    case Var => x
    case Num(v) => v
    case Bin(op, l, r) => m.Binary(op, Value(m, l, x), Value(m, r, x))
    case App(fn, a) => m.Unary(fn, Value(m, a, x))
  }

  datatype CalcError = StackOverflow | OperatorArguments | FunctionArgument | InvalidExpression
  datatype Outcome = Normal(value: real) | Abnormal(error: CalcError)

  /** The machine's run over tokens up to END. Other tokens are skipped with a complaint. */
  function Calc(m: Libm, rpn: seq<Token>, x: real, stack: seq<real>): Outcome {
    if rpn == [] then
      if |stack| == 1 then Normal(stack[0]) else Abnormal(InvalidExpression)
    else
      var n := |stack|;
      match rpn[0]
      case Constant(v) =>
        if n >= RPN_LIMIT then Abnormal(StackOverflow) else Calc(m, rpn[1..], x, stack + [v])
      case Variable =>
        if n >= RPN_LIMIT then Abnormal(StackOverflow) else Calc(m, rpn[1..], x, stack + [x])
      case Oper(op) =>
        if n < 2 then Abnormal(OperatorArguments)
        else Calc(m, rpn[1..], x, stack[..n - 2] + [m.Binary(op, stack[n - 2], stack[n - 1])])
      case Func(fn) =>
        if n < 1 then Abnormal(FunctionArgument)
        else Calc(m, rpn[1..], x, stack[..n - 1] + [m.Unary(fn, stack[n - 1])])
      case _ => Calc(m, rpn[1..], x, stack)
  }

  /** The tokens in front of the first END. */
  function Body(rpn: seq<Token>): (body: seq<Token>)
    requires End in rpn
    ensures body < rpn && rpn[|body|] == End && End !in body
  {
    if rpn[0] == End then [] else [rpn[0]] + Body(rpn[1..])
  }

  datatype Turned = Stop(error: CalcError) | Go(stack: seq<real>)

  /** What one token does to the stack. */
  function Turn(m: Libm, tok: Token, x: real, stack: seq<real>): Turned {
    var n := |stack|;
    match tok
    case Constant(v) => if n >= RPN_LIMIT then Stop(StackOverflow) else Go(stack + [v])
    case Variable => if n >= RPN_LIMIT then Stop(StackOverflow) else Go(stack + [x])
    case Oper(op) =>
      if n < 2 then Stop(OperatorArguments) else Go(stack[..n - 2] + [m.Binary(op, stack[n - 2], stack[n - 1])])
    case Func(fn) =>
      if n < 1 then Stop(FunctionArgument) else Go(stack[..n - 1] + [m.Unary(fn, stack[n - 1])])
    case _ => Go(stack)
  }

  lemma {:induction false} CalcTurn(m: Libm, rpn: seq<Token>, t: nat, x: real, stack: seq<real>)
    requires t <= |rpn|
    ensures Calc(m, rpn[t..], x, stack) ==
            if t == |rpn| then if |stack| == 1 then Normal(stack[0]) else Abnormal(InvalidExpression)
            else
              match Turn(m, rpn[t], x, stack)
              case Stop(e) => Abnormal(e)
              case Go(next) => Calc(m, rpn[t + 1..], x, next)
  {
    if t == |rpn| {
      assert rpn[t..] == [];
    } else {
      assert rpn[t..][1..] == rpn[t + 1..] && rpn[t..][0] == rpn[t];
    }
  }

  ghost predicate Holds(stack: array<Token>, vals: seq<real>)
    reads stack
  {
    |vals| <= RPN_LIMIT < stack.Length && forall i :: 0 <= i < |vals| ==> stack[i] == Constant(vals[i])
  }

  /** The case of one token; `next` is the new stack index. */
  method TakeToken(m: Libm, x: real, tok: Token, stack: array<Token>, si: nat, ghost vals: seq<real>)
    returns (next: nat, error: Option<CalcError>)
    requires Holds(stack, vals) && si == |vals|
    modifies stack
    ensures match Turn(m, tok, x, vals)
            case Stop(e) => error == Some(e)
            case Go(now) => error == None && Holds(stack, now) && next == |now|
  {
    match tok {
      case Constant(v) =>
        if si >= RPN_LIMIT { return si, Some(StackOverflow); }
        stack[si] := tok;
        return si + 1, None;
      case Variable =>
        if si >= RPN_LIMIT { return si, Some(StackOverflow); }
        stack[si] := Constant(x);
        return si + 1, None;
      case Oper(op) =>
        if si < 2 { return si, Some(OperatorArguments); }
        var arg1, arg2 := stack[si - 1].val, stack[si - 2].val;
        stack[si - 1] := Unknown;
        stack[si - 2] := Constant(m.Binary(op, arg2, arg1));
        return si - 1, None;
      case Func(fn) =>
        if si < 1 { return si, Some(FunctionArgument); }
        var arg := stack[si - 1].val;
        stack[si - 1] := Constant(m.Unary(fn, arg));
        return si, None;
      case _ =>
        return si, None;
    }
  }

  /** The evaluator itself: an error is logged and 0.0 returned. */
  method RpnCalc(m: Libm, x: real, rpn: array<Token>) returns (value: real, error: Option<CalcError>)
    requires End in rpn[..]
    ensures match Calc(m, Body(rpn[..]), x, [])
            case Normal(v) => value == v && error == None
            case Abnormal(e) => value == 0.0 && error == Some(e)
  {
    hide Calc, Turn;
    var stack := new Token[RPN_MAX_TOKENS](_ => Unknown);
    ghost var body, vals: seq<real> := Body(rpn[..]), [];
    assert body[0..] == body;
    var si, t := 0, 0;
    while rpn[t] != End
      invariant 0 <= t <= |body| && si == |vals| && Holds(stack, vals)
      invariant Calc(m, body[t..], x, vals) == Calc(m, body, x, [])
      decreases |body| - t
    {
      assert body[t] == rpn[t];
      CalcTurn(m, body, t, x, vals);
      ghost var turned := Turn(m, body[t], x, vals);
      si, error := TakeToken(m, x, rpn[t], stack, si, vals);
      if error != None { return 0.0, error; }
      vals, t := turned.stack, t + 1;
    }
    assert t == |body|;
    CalcTurn(m, body, t, x, vals);
    if si != 1 { return 0.0, Some(InvalidExpression); }
    return stack[0].val, None;
  }

  // --- which token strings have a value

  /** Operands, operators and functions: all that the parser ever queues. */
  predicate Computes(rpn: seq<Token>) {
    forall i :: 0 <= i < |rpn| ==> rpn[i].IsOperand() || rpn[i].Oper? || rpn[i].Func?
  }

  function PostfixAll(ts: seq<Expr>): seq<Token> {
    if ts == [] then [] else PostfixAll(ts[..|ts| - 1]) + Postfix(ts[|ts| - 1])
  }

  /** The machine run symbolically, on trees in place of numbers. */
  function Build(rpn: seq<Token>, ts: seq<Expr>): Option<seq<Expr>> {
    if rpn == [] then Some(ts)
    else
      var n := |ts|;
      match rpn[0]
      case Constant(v) => Build(rpn[1..], ts + [Num(v)])
      case Variable => Build(rpn[1..], ts + [Var])
      case Oper(op) =>
        if n < 2 then None else Build(rpn[1..], ts[..n - 2] + [Bin(op, ts[n - 2], ts[n - 1])])
      case Func(fn) =>
        if n < 1 then None else Build(rpn[1..], ts[..n - 1] + [App(fn, ts[n - 1])])
      case _ => None
  }

  function Values(m: Libm, ts: seq<Expr>, x: real): seq<real> {
    seq(|ts|, i requires 0 <= i < |ts| => Value(m, ts[i], x))
  }

  /** The numeric run follows the symbolic one, and has a value exactly when one tree is left. */
  lemma {:induction false} CalcFollowsBuild(m: Libm, rpn: seq<Token>, x: real, ts: seq<Expr>)
    requires Computes(rpn) && |ts| + |rpn| <= RPN_LIMIT
    ensures var built, r := Build(rpn, ts), Calc(m, rpn, x, Values(m, ts, x));
            && (r.Normal? <==> built.Some? && |built.value| == 1)
            && (r.Normal? ==> r.value == Value(m, built.value[0], x))
            && r != Abnormal(StackOverflow)
  {
    if rpn != [] {
      var n, vals := |ts|, Values(m, ts, x);
      match rpn[0]
      case Constant(v) =>
        CalcFollowsBuild(m, rpn[1..], x, ts + [Num(v)]);
        assert Values(m, ts + [Num(v)], x) == vals + [v];
      case Variable =>
        CalcFollowsBuild(m, rpn[1..], x, ts + [Var]);
        assert Values(m, ts + [Var], x) == vals + [x];
      case Oper(op) =>
        if n >= 2 {
          var next := ts[..n - 2] + [Bin(op, ts[n - 2], ts[n - 1])];
          CalcFollowsBuild(m, rpn[1..], x, next);
          assert Values(m, next, x) == vals[..n - 2] + [m.Binary(op, vals[n - 2], vals[n - 1])];
        }
      case Func(fn) =>
        if n >= 1 {
          var next := ts[..n - 1] + [App(fn, ts[n - 1])];
          CalcFollowsBuild(m, rpn[1..], x, next);
          assert Values(m, next, x) == vals[..n - 1] + [m.Unary(fn, vals[n - 1])];
        }
    }
  }

  lemma {:induction false} PostfixAllSnoc(ts: seq<Expr>, e: Expr)
    ensures PostfixAll(ts + [e]) == PostfixAll(ts) + Postfix(e)
  {
    assert (ts + [e])[..|ts|] == ts;
  }

  /** The symbolic run only ever regroups its tokens. */
  lemma {:induction false} BuildKeepsTokens(rpn: seq<Token>, ts: seq<Expr>)
    requires Build(rpn, ts).Some?
    ensures PostfixAll(Build(rpn, ts).value) == PostfixAll(ts) + rpn
  {
    if rpn != [] {
      var n := |ts|;
      assert rpn == [rpn[0]] + rpn[1..];
      match rpn[0]
      case Constant(v) =>
        BuildKeepsTokens(rpn[1..], ts + [Num(v)]);
        PostfixAllSnoc(ts, Num(v));
      case Variable =>
        BuildKeepsTokens(rpn[1..], ts + [Var]);
        PostfixAllSnoc(ts, Var);
      case Oper(op) =>
        BuildKeepsTokens(rpn[1..], ts[..n - 2] + [Bin(op, ts[n - 2], ts[n - 1])]);
        PostfixAllSnoc(ts[..n - 2], Bin(op, ts[n - 2], ts[n - 1]));
        assert ts[..n - 1][..n - 2] == ts[..n - 2];
      case Func(fn) =>
        BuildKeepsTokens(rpn[1..], ts[..n - 1] + [App(fn, ts[n - 1])]);
        PostfixAllSnoc(ts[..n - 1], App(fn, ts[n - 1]));
    }
  }

  /** On the postfix form of a tree the symbolic run rebuilds that tree. */
  lemma {:induction false} BuildInvertsPostfix(e: Expr, rest: seq<Token>, ts: seq<Expr>)
    ensures Build(Postfix(e) + rest, ts) == Build(rest, ts + [e])
    decreases e
  {
    var all := Postfix(e) + rest;
    match e
    case Var => assert all[1..] == rest;
    case Num(_) => assert all[1..] == rest;
    case Bin(op, l, r) =>
      var tail := [Oper(op)] + rest;
      assert all == Postfix(l) + (Postfix(r) + tail) && tail[1..] == rest;
      BuildInvertsPostfix(l, Postfix(r) + tail, ts);
      BuildInvertsPostfix(r, tail, ts + [l]);
      assert (ts + [l] + [r])[..|ts|] == ts;
    case App(fn, a) =>
      var tail := [Func(fn)] + rest;
      assert all == Postfix(a) + tail && tail[1..] == rest;
      BuildInvertsPostfix(a, tail, ts);
      assert (ts + [a])[..|ts|] == ts;
  }

  lemma {:induction false} PostfixComputes(e: Expr)
    ensures Computes(Postfix(e))
  {
    match e
    case Var =>
    case Num(_) =>
    case Bin(_, l, r) => PostfixComputes(l); PostfixComputes(r);
    case App(_, a) => PostfixComputes(a);
  }

  /** Distinct trees have distinct postfix forms. */
  lemma {:induction false} PostfixIsInjective(e1: Expr, e2: Expr)
    requires Postfix(e1) == Postfix(e2)
    ensures e1 == e2
  {
    BuildInvertsPostfix(e1, [], []);
    BuildInvertsPostfix(e2, [], []);
    assert Postfix(e1) + [] == Postfix(e2) + [];
    assert ([] + [e1])[0] == e1 && ([] + [e2])[0] == e2;
  }

  /** The postfix form of a tree evaluates to the tree's value. */
  lemma {:induction false} CalcOfPostfix(m: Libm, e: Expr, x: real)
    requires |Postfix(e)| <= RPN_LIMIT
    ensures Calc(m, Postfix(e), x, []) == Normal(Value(m, e, x))
  {
    PostfixComputes(e);
    BuildInvertsPostfix(e, [], []);
    assert Postfix(e) + [] == Postfix(e) && [] + [e] == [e];
    CalcFollowsBuild(m, Postfix(e), x, []);
    assert Values(m, [], x) == [];
  }

  /** What an operator makes of the results of its operands. */
  lemma {:induction false} OperatorsCompute(m: Libm, l: Expr, r: Expr, x: real, a: real, b: real)
    requires |Postfix(l)| + |Postfix(r)| < RPN_LIMIT
    requires Calc(m, Postfix(l), x, []) == Normal(a) && Calc(m, Postfix(r), x, []) == Normal(b)
    ensures Calc(m, Postfix(Bin(Plus, l, r)), x, []) == Normal(a + b)
    ensures Calc(m, Postfix(Bin(Minus, l, r)), x, []) == Normal(a - b)
    ensures Calc(m, Postfix(Bin(Mul, l, r)), x, []) == Normal(a * b)
    ensures Calc(m, Postfix(Bin(Div, l, r)), x, []) == Normal(if b != 0.0 then a / b else m.overZero(a))
    ensures Calc(m, Postfix(Bin(Exp, l, r)), x, []) == Normal(m.pow(a, b))
  {
    hide Calc;
    CalcOfPostfix(m, l, x);
    CalcOfPostfix(m, r, x);
    forall op: Operator
      ensures Calc(m, Postfix(Bin(op, l, r)), x, []) == Normal(m.Binary(op, a, b))
    {
      CalcOfPostfix(m, Bin(op, l, r), x);
    }
  }

  /** What a function makes of the result of its argument. */
  lemma {:induction false} FunctionsCompute(m: Libm, e: Expr, x: real, v: real)
    requires |Postfix(e)| < RPN_LIMIT && Calc(m, Postfix(e), x, []) == Normal(v)
    ensures Calc(m, Postfix(App(Ln, e)), x, []) == Normal(m.log(v))
    ensures Calc(m, Postfix(App(Log2, e)), x, []) == Normal(m.log2(v))
    ensures Calc(m, Postfix(App(Log10, e)), x, []) == Normal(m.log10(v))
    ensures Calc(m, Postfix(App(Sin, e)), x, []) == Normal(m.sin(v))
    ensures Calc(m, Postfix(App(Cos, e)), x, []) == Normal(m.cos(v))
    ensures match Calc(m, Postfix(App(Abs, e)), x, [])
            case Normal(w) => w >= 0.0 && (w == v || w == -v)
            case Abnormal(_) => false
  {
    hide Calc;
    CalcOfPostfix(m, e, x);
    forall fn: Function
      ensures Calc(m, Postfix(App(fn, e)), x, []) == Normal(m.Unary(fn, v))
    {
      CalcOfPostfix(m, App(fn, e), x);
    }
  }

  /** What is left to say: a variable stands for the input and a number for itself. */
  lemma {:induction false} LeavesCompute(m: Libm, v: real, x: real)
    ensures Calc(m, Postfix(Var), x, []) == Normal(x) && Calc(m, Postfix(Num(v)), x, []) == Normal(v)
  {
    CalcOfPostfix(m, Var, x);
    CalcOfPostfix(m, Num(v), x);
  }

  /** The evaluator returns normally on exactly the postfix forms of trees; it never overflows. */
  lemma {:induction false} CalcDecidesWellFormedness(m: Libm, rpn: seq<Token>, x: real)
    requires Computes(rpn) && |rpn| <= RPN_LIMIT
    ensures Calc(m, rpn, x, []).Normal? <==> exists e :: Postfix(e) == rpn
    ensures forall e :: Postfix(e) == rpn ==> Calc(m, rpn, x, []) == Normal(Value(m, e, x))
    ensures Calc(m, rpn, x, []) != Abnormal(StackOverflow)
  {
    assert Values(m, [], x) == [];
    CalcFollowsBuild(m, rpn, x, []);
    if Calc(m, rpn, x, []).Normal? {
      BuildKeepsTokens(rpn, []);
      var ts := Build(rpn, []).value;
      assert ts == [] + [ts[0]];
      PostfixAllSnoc([], ts[0]);
      assert Postfix(ts[0]) == PostfixAll([]) + Postfix(ts[0]) == PostfixAll([]) + rpn == rpn;
    }
    forall e | Postfix(e) == rpn
      ensures Calc(m, rpn, x, []) == Normal(Value(m, e, x))
    {
      CalcOfPostfix(m, e, x);
    }
  }
}

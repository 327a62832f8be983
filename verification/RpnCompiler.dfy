/** The parser maps every sufficiently parenthesised spelling to the tree's postfix form. */
module RpnCompiler {
  import opened Wrappers
  import opened RpnTokens
  import opened RpnTrees
  import opened RpnParser

  /** The operators still stacked once a spelling is consumed: its right spine. */
  function Pending(s: Infix): seq<Token> {
    if s.IBin? then [Oper(s.op)] + Pending(s.right) else []
  }

  /** What the spelling has sent to the output by then. */
  function Queued(s: Infix): seq<Token> {
    match s
    case IBin(_, l, r) => Postfix(Tree(l)) + Queued(r)
    case IParen(i) => Postfix(Tree(i))
    case _ => Postfix(Tree(s))
  }

  function Reverse(s: seq<Token>): seq<Token> {
    if s == [] then [] else Reverse(s[1..]) + [s[0]]
  }

  lemma {:induction false} QueuedThenPending(s: Infix)
    ensures Queued(s) + Reverse(Pending(s)) == Postfix(Tree(s))
    ensures |Reverse(Pending(s))| == |Pending(s)|
  {
    if s.IBin? {
      QueuedThenPending(s.right);
      assert Pending(s)[1..] == Pending(s.right);
    }
  }

  /** The stack after a whole spelling: a bare parenthesis on an empty stack leaves UNKNOWN. */
  function After(s: Infix, base: seq<Token>): seq<Token> {
    if s.IParen? && base == [] then [Unknown] else base + Pending(s)
  }

  /** A stack on which an operand may start. */
  predicate Ready(stack: seq<Token>) {
    && (forall i :: 0 <= i < |stack| ==> !stack[i].Unknown?)
    && (stack == [] || stack[|stack| - 1].Oper? || stack[|stack| - 1].ParenOpen?)
  }

  /** The operator on top of the stack waits for the whole of an operand headed by `op`. */
  predicate Stays(stack: seq<Token>, op: Operator) {
    stack != [] && stack[|stack| - 1].Oper? ==> !Yields(op, stack[|stack| - 1].op)
  }

  /** What is left on the stack: `op` gets through to `base` over all of `pending`. */
  predicate AllYield(op: Operator, pending: seq<Token>) {
    forall i :: 0 <= i < |pending| ==> pending[i].Oper? && Yields(op, pending[i].op)
  }

  lemma {:induction false} PendingYields(op: Operator, s: Infix)
    requires EnoughParens(s)
    requires s.IBin? ==> Yields(op, s.op)
    ensures AllYield(op, Pending(s))
  {
    if s.IBin? {
      PendingYields(op, s.right);
    }
  }

  /** Pending operators are queued in reverse order, if the output has room for them. */
  lemma {:induction false} PopPending(op: Operator, base: seq<Token>, pending: seq<Token>, output: seq<Token>)
    requires AllYield(op, pending) && |output| <= RPN_LIMIT
    ensures PopOperators(op, base + pending, output) ==
      if |output| + |pending| <= RPN_LIMIT then PopOperators(op, base, output + Reverse(pending)) else Failed
    decreases |pending|
  {
    if pending == [] {
      assert base + pending == base && output + Reverse(pending) == output;
    } else {
      var n := |pending| - 1;
      ReverseLast(pending);
      assert (base + pending)[..|base| + n] == base + pending[..n];
      if |output| < RPN_LIMIT {
        PopPending(op, base, pending[..n], output + [pending[n]]);
        assert output + [pending[n]] + Reverse(pending[..n]) == output + Reverse(pending);
      }
    }
  }

  lemma {:induction false} ReverseLast(s: seq<Token>)
    requires s != []
    ensures Reverse(s) == [s[|s| - 1]] + Reverse(s[..|s| - 1])
  {
    if |s| > 1 {
      ReverseLast(s[1..]);
      assert s[1..][..|s| - 2] == s[..|s| - 1][1..];
    }
  }

  /** The incoming operator finds its left operand complete and the base untouched. */
  lemma {:induction false} OperatorPops(op: Operator, l: Infix, base: seq<Token>, output: seq<Token>)
    requires EnoughParens(l) && Ready(base) && Stays(base, op) && (l.IBin? ==> Yields(op, l.op))
    requires |output| + |Queued(l)| <= RPN_LIMIT
    ensures PopOperators(op, After(l, base), output + Queued(l)) ==
      if |output| + |Postfix(Tree(l))| <= RPN_LIMIT then Running(base, output + Postfix(Tree(l))) else Failed
  {
    hide EnoughParens, Queued, Pending, Postfix, Yields, AllYield, Ready, Stays;
    QueuedThenPending(l);
    if l.IParen? && base == [] {
      BracketPops(op, l, output);
    } else {
      PendingYields(op, l);
      var queued := output + Queued(l);
      PopPending(op, base, Pending(l), queued);
      assert queued + Reverse(Pending(l)) == output + Postfix(Tree(l));
      StaysPut(op, base, output + Postfix(Tree(l)));
    }
  }

  /** The marker that a bare parenthesis leaves on an empty stack is dropped. */
  lemma {:induction false} BracketPops(op: Operator, l: Infix, output: seq<Token>)
    requires l.IParen?
    ensures Queued(l) == Postfix(Tree(l)) && After(l, []) == [Unknown]
    ensures PopOperators(op, [Unknown], output + Queued(l)) == Running([], output + Postfix(Tree(l)))
  {
    assert [Unknown][..0] == [];
  }

  lemma {:induction false} StaysPut(op: Operator, base: seq<Token>, output: seq<Token>)
    requires Ready(base) && Stays(base, op)
    ensures PopOperators(op, base, output) == Running(base, output)
  {
  }

  /** Closing a parenthesis queues everything pending inside it. */
  lemma {:induction false} ClosePending(base: seq<Token>, pending: seq<Token>, output: seq<Token>)
    requires forall i :: 0 <= i < |pending| ==> pending[i].Oper?
    requires |output| <= RPN_LIMIT
    ensures CloseParen(base + [ParenOpen] + pending, output) ==
      if |output| + |pending| <= RPN_LIMIT then ApplyFunction(base, output + Reverse(pending)) else Failed
    decreases |pending|
  {
    var stack := base + [ParenOpen] + pending;
    if pending == [] {
      assert stack[..|stack| - 1] == base && output + Reverse(pending) == output;
    } else {
      var n := |pending| - 1;
      ReverseLast(pending);
      assert stack[..|stack| - 1] == base + [ParenOpen] + pending[..n];
      if |output| < RPN_LIMIT {
        ClosePending(base, pending[..n], output + [pending[n]]);
        assert output + [pending[n]] + Reverse(pending[..n]) == output + Reverse(pending);
      }
    }
  }

  lemma {:induction false} PendingAreOperators(s: Infix)
    ensures forall i :: 0 <= i < |Pending(s)| ==> Pending(s)[i].Oper?
  {
    if s.IBin? {
      PendingAreOperators(s.right);
    }
  }

  /** The parser's effect on a spelling, stated exactly: including when it overflows. */
  predicate RunsTo(s: Infix, base: seq<Token>, output: seq<Token>) {
    Run(Spell(s), Running(base, output)) ==
    if |base| + Depth(s) <= RPN_LIMIT && |output| + |Queued(s)| <= RPN_LIMIT
    then Running(After(s, base), output + Queued(s)) else Failed
  }

  lemma {:induction false} RunOne(tok: Token, st: State)
    ensures Run([tok], st) == Step(st, tok)
  {
    assert [tok][1..] == [];
  }

  lemma {:induction false} SpellingRuns(s: Infix, base: seq<Token>, output: seq<Token>)
    requires EnoughParens(s) && Ready(base) && (s.IBin? ==> Stays(base, s.op))
    requires |base| <= RPN_LIMIT && |output| <= RPN_LIMIT
    ensures RunsTo(s, base, output)
    decreases s, 1
  {
    hide RunsTo, Run, Queued, Pending, EnoughParens;
    match s
    case IVar => LeafRuns(s, Variable, base, output);
    case INum(v) => LeafRuns(s, Constant(v), base, output);
    case IBin(_, _, _) => BinaryRuns(s, base, output);
    case IParen(_) => BracketRuns(s, base, output);
    case IApp(_, _) => ApplicationRuns(s, base, output);
  }

  lemma {:induction false} LeafRuns(s: Infix, tok: Token, base: seq<Token>, output: seq<Token>)
    requires (s == IVar && tok == Variable) || (s.INum? && tok == Constant(s.val))
    requires |base| <= RPN_LIMIT && |output| <= RPN_LIMIT
    ensures RunsTo(s, base, output)
  {
    RunOne(tok, Running(base, output));
    assert Spell(s) == [tok] && Queued(s) == [tok] && base + Pending(s) == base;
  }

  lemma {:induction false} BracketRuns(s: Infix, base: seq<Token>, output: seq<Token>)
    requires s.IParen? && EnoughParens(s) && Ready(base)
    requires |base| <= RPN_LIMIT && |output| <= RPN_LIMIT
    ensures RunsTo(s, base, output)
    decreases s, 0
  {
    hide Run;
    ParenthesesRun(s.inner, base, output);
  }

  lemma {:induction false} ApplicationRuns(s: Infix, base: seq<Token>, output: seq<Token>)
    requires s.IApp? && EnoughParens(s) && Ready(base)
    requires |base| <= RPN_LIMIT && |output| <= RPN_LIMIT
    ensures RunsTo(s, base, output)
    decreases s, 0
  {
    hide Run;
    var IApp(fn, a) := s;
    var head, tail, start := [Func(fn)], [ParenOpen] + Spell(a) + [ParenClose], Running(base, output);
    assert Spell(s) == head + tail;
    RunConcat(head, tail, start);
    RunOne(Func(fn), start);
    if |base| < RPN_LIMIT {
      ParenthesesRun(a, base + head, output);
      assert (base + head)[..|base|] == base;
    } else {
      RunFailed(tail);
    }
  }

  lemma {:induction false} BinaryRuns(s: Infix, base: seq<Token>, output: seq<Token>)
    requires s.IBin? && EnoughParens(s) && Ready(base) && Stays(base, s.op)
    requires |base| <= RPN_LIMIT && |output| <= RPN_LIMIT
    ensures RunsTo(s, base, output)
    decreases s, 0
  {
    hide Run;
    var IBin(op, l, r) := s;
    var middle, queued := base + [Oper(op)], output + Postfix(Tree(l));
    SpellingRuns(l, base, output);
    LeftRuns(op, l, base, output);
    RunConcat(Spell(l) + [Oper(op)], Spell(r), Running(base, output));
    var left := Run(Spell(l) + [Oper(op)], Running(base, output));
    assert Run(Spell(s), Running(base, output)) == Run(Spell(r), left);
    if left.Failed? {
      RunFailed(Spell(r));
    } else {
      SpellingRuns(r, middle, queued);
      RightRuns(s, base, output);
    }
  }

  /** The right operand runs above the operator it belongs to. */
  lemma {:induction false} RightRuns(s: Infix, base: seq<Token>, output: seq<Token>)
    requires s.IBin?
    ensures After(s.right, base + [Oper(s.op)]) == base + Pending(s)
    ensures output + Postfix(Tree(s.left)) + Queued(s.right) == output + Queued(s)
  {
    assert base + [Oper(s.op)] + Pending(s.right) == base + Pending(s);
  }

  /** The left operand and the operator after it. */
  lemma {:induction false} LeftRuns(op: Operator, l: Infix, base: seq<Token>, output: seq<Token>)
    requires EnoughParens(l) && Ready(base) && Stays(base, op) && (l.IBin? ==> Yields(op, l.op))
    requires |base| <= RPN_LIMIT && |output| <= RPN_LIMIT
    requires RunsTo(l, base, output)
    ensures Run(Spell(l) + [Oper(op)], Running(base, output)) ==
      if |base| + Max(1, Depth(l)) <= RPN_LIMIT && |output| + |Postfix(Tree(l))| <= RPN_LIMIT
      then Running(base + [Oper(op)], output + Postfix(Tree(l))) else Failed
  {
    hide Run, PopOperators, EnoughParens;
    QueuedThenPending(l);
    RunConcat(Spell(l), [Oper(op)], Running(base, output));
    var st := Run(Spell(l), Running(base, output));
    RunOne(Oper(op), st);
    if !st.Failed? {
      OperatorPops(op, l, base, output);
    }
  }

  /** A parenthesised operand leaves the stack below it alone, but for a waiting function. */
  lemma {:induction false} ParenthesesRun(i: Infix, base: seq<Token>, output: seq<Token>)
    requires EnoughParens(i) && (forall k :: 0 <= k < |base| ==> !base[k].Unknown?)
    requires |base| <= RPN_LIMIT && |output| <= RPN_LIMIT
    ensures Run([ParenOpen] + Spell(i) + [ParenClose], Running(base, output)) ==
      if |base| + 1 + Depth(i) <= RPN_LIMIT && |output| + |Postfix(Tree(i))| <= RPN_LIMIT
      then ApplyFunction(base, output + Postfix(Tree(i))) else Failed
    decreases i, 2
  {
    hide Run, CloseParen, ApplyFunction, Spell, Postfix, EnoughParens;
    var opening, inner, start, within := [ParenOpen], Spell(i) + [ParenClose], Running(base, output), base + [ParenOpen];
    assert opening + Spell(i) + [ParenClose] == opening + inner;
    RunConcat(opening, inner, start);
    RunOne(ParenOpen, start);
    if |base| == RPN_LIMIT {
      RunFailed(inner);
    } else {
      RunConcat(Spell(i), [ParenClose], Running(within, output));
      SpellingRuns(i, within, output);
      var st := Run(Spell(i), Running(within, output));
      RunOne(ParenClose, st);
      QueuedThenPending(i);
      if !st.Failed? {
        CloseStep(i, base, output);
      }
    }
  }

  lemma {:induction false} CloseStep(i: Infix, base: seq<Token>, output: seq<Token>)
    requires |output| + |Queued(i)| <= RPN_LIMIT
    ensures CloseParen(base + [ParenOpen] + Pending(i), output + Queued(i)) ==
      if |output| + |Postfix(Tree(i))| <= RPN_LIMIT then ApplyFunction(base, output + Postfix(Tree(i))) else Failed
  {
    QueuedThenPending(i);
    PendingAreOperators(i);
    var queued := output + Queued(i);
    ClosePending(base, Pending(i), queued);
    assert queued + Reverse(Pending(i)) == output + Postfix(Tree(i));
  }

  /** END queues what is pending and then itself. */
  lemma {:induction false} FinishPending(pending: seq<Token>, output: seq<Token>)
    requires forall i :: 0 <= i < |pending| ==> pending[i].Oper?
    requires |output| <= RPN_LIMIT
    ensures Finish(pending, output) ==
      if |output| + |pending| < RPN_LIMIT then Some(output + Reverse(pending) + [End]) else None
    decreases |pending|
  {
    if pending == [] {
      assert output + Reverse(pending) == output;
    } else {
      var n := |pending| - 1;
      ReverseLast(pending);
      if |output| < RPN_LIMIT {
        FinishPending(pending[..n], output + [pending[n]]);
        assert output + [pending[n]] + Reverse(pending[..n]) == output + Reverse(pending);
      }
    }
  }

  /**
   A sufficiently parenthesised spelling compiles to the postfix form of its tree,
   and it does so exactly when both fit their buffers.
   */
  lemma {:induction false} CompilesToPostfix(s: Infix)
    requires EnoughParens(s)
    ensures Compile(Spell(s)) ==
      if Depth(s) <= 255 && |Postfix(Tree(s))| <= 254 then Some(Postfix(Tree(s)) + [End]) else None
  {
    SpellingRuns(s, [], []);
    QueuedThenPending(s);
    PendingAreOperators(s);
    if Depth(s) <= RPN_LIMIT && |Queued(s)| <= RPN_LIMIT {
      assert [] + Queued(s) == Queued(s) && [] + Pending(s) == Pending(s);
      FinishPending(Pending(s), Queued(s));
    }
  }

  /** In particular, whatever takes at most 254 tokens to write compiles. */
  lemma {:induction false} ShortSpellingsCompile(s: Infix)
    requires EnoughParens(s) && |Spell(s)| <= 254
    ensures Compile(Spell(s)) == Some(Postfix(Tree(s)) + [End])
  {
    SpellingBounds(s);
    CompilesToPostfix(s);
  }
}

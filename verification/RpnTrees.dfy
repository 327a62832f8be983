/** Expression trees, their infix spellings and their postfix form. */
module RpnTrees {
  import opened RpnTokens

  datatype Expr =
    | Var
    | Num(val: real)
    | Bin(op: Operator, left: Expr, right: Expr)
    | App(fn: Function, arg: Expr)

  function Postfix(e: Expr): seq<Token> {
    match e
    case Var => [Variable]
    case Num(v) => [Constant(v)]
    case Bin(op, l, r) => Postfix(l) + Postfix(r) + [Oper(op)]
    case App(fn, a) => Postfix(a) + [Func(fn)]
  }

  /** A tree together with the parentheses it is written with. */
  datatype Infix =
    | IVar
    | INum(val: real)
    | IBin(op: Operator, left: Infix, right: Infix)
    | IApp(fn: Function, arg: Infix)
    | IParen(inner: Infix)

  function Spell(s: Infix): seq<Token> {
    match s
    case IVar => [Variable]
    case INum(v) => [Constant(v)]
    case IBin(op, l, r) => Spell(l) + [Oper(op)] + Spell(r)
    case IApp(fn, a) => [Func(fn), ParenOpen] + Spell(a) + [ParenClose]
    case IParen(i) => [ParenOpen] + Spell(i) + [ParenClose]
  }

  function Tree(s: Infix): Expr {
    match s
    case IVar => Var
    case INum(v) => Num(v)
    case IBin(op, l, r) => Bin(op, Tree(l), Tree(r))
    case IApp(fn, a) => App(fn, Tree(a))
    case IParen(i) => Tree(i)
  }

  /**
   An operator `inner` standing unparenthesised to the left (right) of `outer` belongs
   to the left (right) operand of `outer` by precedence, or by associativity among equals.
   */
  predicate BindsLeft(inner: Operator, outer: Operator) {
    || Precedence(inner) > Precedence(outer)
    || (Precedence(inner) == Precedence(outer) && Associativity(outer) == Left)
  }

  predicate BindsRight(outer: Operator, inner: Operator) {
    || Precedence(inner) > Precedence(outer)
    || (Precedence(inner) == Precedence(outer) && Associativity(outer) == Right)
  }

  /** Sums and differences bind weaker than products and quotients, and those weaker than powers. */
  predicate Weaker(a: Operator, b: Operator) {
    ((a.Plus? || a.Minus?) && !(b.Plus? || b.Minus?)) || ((a.Mul? || a.Div?) && b.Exp?)
  }

  /**
   The tables say what is usual: powers bind before products, products before sums, and among
   equals the left operator comes first, except with powers.
   */
  lemma {:induction false} UsualPrecedence(inner: Operator, outer: Operator)
    ensures BindsLeft(inner, outer) <==> !Weaker(inner, outer) && !(inner.Exp? && outer.Exp?)
    ensures BindsRight(outer, inner) <==> Weaker(outer, inner) || (inner.Exp? && outer.Exp?)
  {
  }

  /** Every parenthesis the precedence and associativity tables demand is there. */
  predicate EnoughParens(s: Infix) {
    match s
    case IVar => true
    case INum(_) => true
    case IBin(op, l, r) =>
      && EnoughParens(l) && EnoughParens(r)
      && (l.IBin? ==> BindsLeft(l.op, op))
      && (r.IBin? ==> BindsRight(op, r.op))
    case IApp(_, a) => EnoughParens(a)
    case IParen(i) => EnoughParens(i)
  }

  function Max(a: nat, b: nat): nat {
    if a < b then b else a
  }

  /** How many stack slots the spelling needs at its deepest point. */
  function Depth(s: Infix): nat {
    match s
    case IVar => 0
    case INum(_) => 0
    case IBin(_, l, r) => Max(Depth(l), 1 + Depth(r))
    case IApp(_, a) => 2 + Depth(a)
    case IParen(i) => 1 + Depth(i)
  }

  lemma {:induction false} SpellingBounds(s: Infix)
    ensures |Postfix(Tree(s))| <= |Spell(s)|
    ensures Depth(s) < |Spell(s)|
  {
    match s
    case IVar =>
    case INum(_) =>
    case IBin(_, l, r) => SpellingBounds(l); SpellingBounds(r);
    case IApp(_, a) => SpellingBounds(a);
    case IParen(i) => SpellingBounds(i);
  }

  /** Every tree has a spelling: put parentheses around every operand. */
  function Parenthesise(e: Expr): Infix {
    match e
    case Var => IVar
    case Num(v) => INum(v)
    case Bin(op, l, r) => IBin(op, IParen(Parenthesise(l)), IParen(Parenthesise(r)))
    case App(fn, a) => IApp(fn, Parenthesise(a))
  }

  lemma {:induction false} EveryTreeCanBeWritten(e: Expr)
    ensures EnoughParens(Parenthesise(e)) && Tree(Parenthesise(e)) == e
  {
    match e
    case Var =>
    case Num(_) =>
    case Bin(_, l, r) => EveryTreeCanBeWritten(l); EveryTreeCanBeWritten(r);
    case App(_, a) => EveryTreeCanBeWritten(a);
  }
}

/** Printing tokens with one space between them, and reading them back. */
module RpnPrinter {
  import opened Wrappers
  import opened Decimals
  import opened RpnTokens
  import opened RpnTrees
  import opened RpnParser
  import opened RpnCompiler
  import opened RpnEvaluator
  import opened RpnLexer
  import opened RpnParseMethod

  /** strtod reads decimal integers in front of a blank or the end of the input. */
  ghost predicate ReadsDecimals(strtod: Strtod) {
    forall n: int, s: string, i: nat {:trigger Decimal(n), strtod(s, i)} ::
      && i + |Decimal(n)| <= |s|
      && s[i..i + |Decimal(n)|] == Decimal(n)
      && (i + |Decimal(n)| < |s| ==> s[i + |Decimal(n)|] == ' ')
      ==> strtod(s, i) == Conversion(n as real, i + |Decimal(n)|, false)
  }

  function OperatorText(op: Operator): string {
    match op
    case Plus => "+"
    case Minus => "-"
    case Mul => "*"
    case Div => "/"
    case Exp => "^"
  }

  function FunctionText(fn: Function): string {
    match fn
    case Ln => "ln"
    case Log2 => "log2"
    case Log10 => "log10"
    case Sin => "sin"
    case Cos => "cos"
    case Abs => "abs"
  }

  /** Tokens that have a text: constants must be integers. */
  predicate Writable(tok: Token) {
    match tok
    case Constant(v) => v.Floor as real == v
    case Unknown => false
    case End => false
    case _ => true
  }

  function Text(tok: Token): string
    requires Writable(tok)
  {
    match tok
    case Variable => "x"
    case Constant(v) => Decimal(v.Floor)
    case Oper(op) => OperatorText(op)
    case Func(fn) => FunctionText(fn)
    case ParenOpen => "("
    case ParenClose => ")"
  }

  function Print(toks: seq<Token>): string
    requires forall t :: t in toks ==> Writable(t)
    decreases |toks|, 0
  {
    if toks == [] then "" else Text(toks[0]) + Tail(toks[1..])
  }

  function Tail(toks: seq<Token>): string
    requires forall t :: t in toks ==> Writable(t)
    decreases |toks|, 1
  {
    if toks == [] then "" else " " + Print(toks)
  }

  /** `word` stands at position `i` of `s`, in front of a space or at the end. */
  ghost predicate WordAt(s: string, i: nat, word: string) {
    && i + |word| <= |s|
    && (forall k :: 0 <= k < |word| ==> s[i + k] == word[k])
    && (i + |word| < |s| ==> s[i + |word|] == ' ')
  }

  lemma {:induction false} FirstOfWord(s: string, i: nat, word: string)
    requires WordAt(s, i, word) && word != []
    ensures s[i] == word[0]
  {
    assert s[i + 0] == word[0];
  }

  /** A text in front of a tail that is empty or starts with a space is a word. */
  lemma {:induction false} WordInFront(s: string, i: nat, word: string, tail: string)
    requires i <= |s| && s[i..] == word + tail && (tail != "" ==> tail[0] == ' ')
    ensures WordAt(s, i, word) && s[i + |word|..] == tail
  {
    assert s[i + |word|..] == s[i..][|word|..];
    forall k | 0 <= k < |word|
      ensures s[i + k] == word[k]
    {
      assert s[i + k] == s[i..][k];
    }
    if i + |word| < |s| {
      assert s[i + |word|] == s[i + |word|..][0];
    }
  }

  /** A function name is read to its last character and looked up. */
  lemma {:induction false} NameReadsBack(s: string, i: nat, name: string, room: nat)
    requires WordAt(s, i, name) && (forall c :: c in name ==> IsNameChar(c)) && |name| < room
    ensures NameEnd(s, i, room) == i + |name|
    decreases |name|
  {
    if name != [] {
      assert s[i] == name[0];
      assert WordAt(s, i + 1, name[1..]) by {
        forall k | 0 <= k < |name[1..]|
          ensures s[i + 1 + k] == name[1..][k]
        {
          assert s[i + (k + 1)] == name[k + 1];
        }
      }
      NameReadsBack(s, i + 1, name[1..], room - 1);
    }
  }

  /** The names are short words of the table, and all but one start like a function. */
  lemma {:induction false} FunctionNames(fn: Function)
    ensures var name := FunctionText(fn);
            && name != [] && |name| < NAME_MAX && FuncLookup(name) == Some(fn)
            && (forall c :: c in name ==> IsNameChar(c))
            && (if fn == Abs then name[0] == 'a' else name[0] == 'l' || name[0] == 's' || name[0] == 'c')
  {
  }

  lemma {:induction false} FunctionReadsBack(strtod: Strtod, s: string, i: nat, fn: Function)
    requires WordAt(s, i, FunctionText(fn))
    ensures TokenAt(strtod, s, i) == if fn == Abs then (Unknown, i) else (Func(fn), i + |FunctionText(fn)|)
  {
    hide TokenAt, FuncLookup, FunctionText, NameEnd;
    var name := FunctionText(fn);
    FunctionNames(fn);
    FirstOfWord(s, i, name);
    NameAtLetter(strtod, s, i);
    if fn != Abs {
      NameReadsBack(s, i, name, NAME_MAX);
      assert s[i..i + |name|] == name;
    }
  }

  /** A letter other than 'x' starts a name or nothing. */
  lemma {:induction false} NameAtLetter(strtod: Strtod, s: string, i: nat)
    requires i < |s| && 'a' <= s[i] <= 'z' && s[i] != 'x'
    ensures TokenAt(strtod, s, i) == if s[i] == 'l' || s[i] == 's' || s[i] == 'c' then NameAt(s, i) else (Unknown, i)
  {
    hide NameAt;
    assert SkipBlanks(s, i) == i;
  }

  lemma {:induction false} NumberReadsBack(strtod: Strtod, s: string, i: nat, n: int)
    requires ReadsDecimals(strtod) && WordAt(s, i, Decimal(n))
    ensures NumberAt(strtod, s, i) == (Constant(n as real), i + |Decimal(n)|)
  {
    assert s[i..i + |Decimal(n)|] == Decimal(n);
    assert strtod(s, i) == Conversion(n as real, i + |Decimal(n)|, false);
  }

  lemma {:induction false} ConstantReadsBack(strtod: Strtod, s: string, i: nat, n: int)
    requires ReadsDecimals(strtod) && WordAt(s, i, Decimal(n))
    ensures TokenAt(strtod, s, i) == (Constant(n as real), i + |Decimal(n)|)
  {
    NumberReadsBack(strtod, s, i, n);
    var word := Decimal(n);
    FirstOfWord(s, i, word);
    if n < 0 {
      assert Digits(-n)[0] in Digits(-n);
      assert s[i + 1] == word[1] == Digits(-n)[0];
    } else {
      assert Digits(n)[0] in Digits(n);
    }
  }

  /** A written token is read back, wherever it stands. `abs` alone is not: nothing starts with 'a'. */
  lemma {:induction false} TokenReadsBack(strtod: Strtod, s: string, i: nat, tok: Token)
    requires ReadsDecimals(strtod) && Writable(tok) && WordAt(s, i, Text(tok))
    ensures TokenAt(strtod, s, i) ==
      if tok == Func(Abs) then (Unknown, i) else (tok, i + |Text(tok)|)
  {
    hide TokenAt;
    match tok
    case Constant(v) => ConstantReadsBack(strtod, s, i, v.Floor);
    case Func(fn) => FunctionReadsBack(strtod, s, i, fn);
    case Oper(op) => OperatorReadsBack(strtod, s, i, op);
    case Variable => SymbolReadsBack(strtod, s, i, Variable, 'x');
    case ParenOpen => SymbolReadsBack(strtod, s, i, ParenOpen, '(');
    case ParenClose => SymbolReadsBack(strtod, s, i, ParenClose, ')');
  }

  lemma {:induction false} SymbolReadsBack(strtod: Strtod, s: string, i: nat, tok: Token, c: char)
    requires (tok == Variable && c == 'x') || (tok == ParenOpen && c == '(') || (tok == ParenClose && c == ')')
    requires WordAt(s, i, [c])
    ensures TokenAt(strtod, s, i) == (tok, i + 1)
  {
    FirstOfWord(s, i, [c]);
  }

  lemma {:induction false} OperatorReadsBack(strtod: Strtod, s: string, i: nat, op: Operator)
    requires WordAt(s, i, OperatorText(op))
    ensures TokenAt(strtod, s, i) == (Oper(op), i + 1)
  {
    assert |OperatorText(op)| == 1;
    FirstOfWord(s, i, OperatorText(op));
    assert !IsDigit(CharAt(s, i + 1));
  }

  lemma {:induction false} SkipOneSpace(strtod: Strtod, s: string, i: nat)
    requires i < |s| && s[i] == ' '
    ensures TokenAt(strtod, s, i) == TokenAt(strtod, s, i + 1)
  {
  }

  /** The tokens read up to the first `abs`, which stops the lexer. */
  function Readable(toks: seq<Token>): Lexed {
    if toks == [] then Lexed([], true)
    else if toks[0] == Func(Abs) then Lexed([], false)
    else var rest := Readable(toks[1..]); Lexed([toks[0]] + rest.toks, rest.complete)
  }

  lemma {:induction false} ReadableIsAll(toks: seq<Token>)
    ensures Func(Abs) !in toks ==> Readable(toks) == Lexed(toks, true)
    ensures Func(Abs) in toks ==> !Readable(toks).complete
  {
    if toks != [] {
      ReadableIsAll(toks[1..]);
      assert toks == [toks[0]] + toks[1..];
    }
  }

  /** The rest of a printed text lexes to the rest of the tokens. */
  lemma {:induction false} TailLexes(strtod: Strtod, s: string, i: nat, toks: seq<Token>)
    requires InBounds(strtod) && ReadsDecimals(strtod)
    requires forall t :: t in toks ==> Writable(t)
    requires i <= |s| && s[i..] == Tail(toks)
    ensures Lex(strtod, s, i) == Readable(toks)
    decreases |toks|, 1
  {
    if toks == [] {
      assert |s[i..]| == 0;
    } else {
      DropFirst(s, i, ' ', Print(toks));
      SkipOneSpace(strtod, s, i);
      HeadLexes(strtod, s, i, i + 1, toks);
    }
  }

  lemma {:induction false} DropFirst(s: string, i: nat, c: char, rest: string)
    requires i <= |s| && s[i..] == [c] + rest
    ensures i < |s| && s[i] == c && s[i + 1..] == rest
  {
    assert |s[i..]| > 0 && s[i] == s[i..][0];
    assert s[i + 1..] == s[i..][1..];
  }

  lemma {:induction false} PrintStep(toks: seq<Token>)
    requires toks != [] && forall t :: t in toks ==> Writable(t)
    ensures Print(toks) == Text(toks[0]) + Tail(toks[1..])
    ensures Tail(toks[1..]) != "" ==> Tail(toks[1..])[0] == ' '
  {
  }

  lemma {:induction false} LexStep(strtod: Strtod, s: string, i: nat)
    requires InBounds(strtod) && i <= |s|
    ensures var (tok, next) := TokenAt(strtod, s, i);
            && (tok.End? ==> Lex(strtod, s, i) == Lexed([], true))
            && (tok.Unknown? ==> Lex(strtod, s, i) == Lexed([], false))
            && (!tok.End? && !tok.Unknown? ==>
                  && next <= |s|
                  && Lex(strtod, s, i) == Lexed([tok] + Lex(strtod, s, next).toks, Lex(strtod, s, next).complete))
  {
    hide TokenAt;
    TokenProgress(strtod, s, i);
  }

  lemma {:induction false} HeadLexes(strtod: Strtod, s: string, from: nat, i: nat, toks: seq<Token>)
    requires InBounds(strtod) && ReadsDecimals(strtod)
    requires toks != [] && forall t :: t in toks ==> Writable(t)
    requires from <= i <= |s| && s[i..] == Print(toks)
    requires TokenAt(strtod, s, from) == TokenAt(strtod, s, i)
    ensures Lex(strtod, s, from) == Readable(toks)
    decreases |toks|, 0
  {
    hide Lex, TokenAt, ReadsDecimals, InBounds, Print, Tail, Text, WordAt;
    PrintStep(toks);
    LexStep(strtod, s, from);
    var word := Text(toks[0]);
    WordInFront(s, i, word, Tail(toks[1..]));
    TokenReadsBack(strtod, s, i, toks[0]);
    if toks[0] != Func(Abs) {
      TailLexes(strtod, s, i + |word|, toks[1..]);
    }
  }

  /** Printed tokens lex back to themselves exactly when `abs` is not among them. */
  lemma {:induction false} PrintLexes(strtod: Strtod, toks: seq<Token>)
    requires InBounds(strtod) && ReadsDecimals(strtod)
    requires forall t :: t in toks ==> Writable(t)
    ensures Lex(strtod, Print(toks), 0) == Lexed(toks, true) <==> Func(Abs) !in toks
    ensures Func(Abs) in toks ==> ParseText(strtod, Print(toks)) == None
  {
    ReadableIsAll(toks);
    if toks == [] {
      assert TokenAt(strtod, "", 0).0 == End;
    } else {
      assert Print(toks)[0..] == Print(toks);
      HeadLexes(strtod, Print(toks), 0, 0, toks);
    }
  }

  /** The leaves and functions a spelling can be printed with and read back. */
  predicate Printable(s: Infix) {
    match s
    case IVar => true
    case INum(v) => v.Floor as real == v
    case IBin(_, l, r) => Printable(l) && Printable(r)
    case IApp(fn, a) => fn != Abs && Printable(a)
    case IParen(i) => Printable(i)
  }

  lemma {:induction false} PrintableSpelling(s: Infix)
    requires Printable(s)
    ensures forall t :: t in Spell(s) ==> Writable(t) && t != Func(Abs)
  {
    match s
    case IVar =>
    case INum(_) =>
    case IBin(_, l, r) => PrintableSpelling(l); PrintableSpelling(r);
    case IApp(_, a) => PrintableSpelling(a);
    case IParen(i) => PrintableSpelling(i);
  }

  /**
   The round trip: print a tree with enough parentheses, lex and compile the text, and the
   result is the tree's postfix form, which evaluates to the tree's value at every x.
   */
  lemma {:induction false} PrintedTreesRoundTrip(m: Libm, strtod: Strtod, s: Infix)
    requires InBounds(strtod) && ReadsDecimals(strtod)
    requires Printable(s) && EnoughParens(s)
    requires Depth(s) <= RPN_LIMIT && |Postfix(Tree(s))| < RPN_LIMIT
    ensures (forall t :: t in Spell(s) ==> Writable(t))
    ensures ParseText(strtod, Print(Spell(s))) == Some(Postfix(Tree(s)) + [End])
    ensures forall x :: Calc(m, Postfix(Tree(s)), x, []) == Normal(Value(m, Tree(s), x))
  {
    PrintableSpelling(s);
    PrintLexes(strtod, Spell(s));
    CompilesToPostfix(s);
    forall x
      ensures Calc(m, Postfix(Tree(s)), x, []) == Normal(Value(m, Tree(s), x))
    {
      CalcOfPostfix(m, Tree(s), x);
    }
  }

  // --- a reader of decimal integers, which meets what is assumed of strtod

  function ReadDecimal(s: string, i: nat): Conversion {
    if i >= |s| then Conversion(0.0, i, false)
    else if CharAt(s, i) == '-' then
      var (n, next) := Scan(s, i + 1, 0); Conversion((0 - n) as real, next, false)
    else
      var (n, next) := Scan(s, i, 0); Conversion(n as real, next, false)
  }

  lemma {:induction false} DecimalReads(n: int, s: string, i: nat)
    requires i + |Decimal(n)| <= |s| && s[i..i + |Decimal(n)|] == Decimal(n)
    requires i + |Decimal(n)| < |s| ==> s[i + |Decimal(n)|] == ' '
    ensures ReadDecimal(s, i) == Conversion(n as real, i + |Decimal(n)|, false)
  {
    WordInSlice(s, i, Decimal(n));
    if n < 0 {
      NegativeReads(-n, s, i);
    } else {
      assert Digits(n)[0] in Digits(n);
      NumberScans(s, i, n);
    }
  }

  lemma {:induction false} NegativeReads(n: nat, s: string, i: nat)
    requires i + 1 + |Digits(n)| <= |s| && forall k :: 0 <= k <= |Digits(n)| ==> s[i + k] == ("-" + Digits(n))[k]
    requires i + 1 + |Digits(n)| < |s| ==> s[i + 1 + |Digits(n)|] == ' '
    ensures ReadDecimal(s, i) == Conversion((0 - n) as real, i + 1 + |Digits(n)|, false)
  {
    var digits := Digits(n);
    assert s[i] == s[i + 0] == ("-" + digits)[0];
    forall k | 0 <= k < |digits|
      ensures s[i + 1 + k] == digits[k]
    {
      assert s[i + (k + 1)] == ("-" + digits)[k + 1];
    }
    NumberScans(s, i + 1, n);
  }

  lemma {:induction false} WordInSlice(s: string, i: nat, word: string)
    requires i + |word| <= |s| && s[i..i + |word|] == word && word != []
    ensures s[i] == word[0] && forall k :: 0 <= k < |word| ==> word[k] == s[i + k]
  {
    forall k | 0 <= k < |word|
      ensures word[k] == s[i + k]
    {
      assert s[i + k] == s[i..i + |word|][k];
    }
    assert word[0] == s[i + 0];
  }

  lemma {:induction false} StrtodAssumptionsHold()
    ensures InBounds(ReadDecimal) && ReadsDecimals(ReadDecimal)
  {
    forall n: int, s: string, i: nat |
        && i + |Decimal(n)| <= |s|
        && s[i..i + |Decimal(n)|] == Decimal(n)
        && (i + |Decimal(n)| < |s| ==> s[i + |Decimal(n)|] == ' ')
      ensures ReadDecimal(s, i) == Conversion(n as real, i + |Decimal(n)|, false)
    {
      DecimalReads(n, s, i);
    }
  }
}

/** The lexer of response-curve expressions. */
module RpnLexer {
  import opened Wrappers
  import opened Decimals
  import opened RpnTokens

  /** What strtod reports: the value, where it stopped, and whether errno was set. */
  datatype Conversion = Conversion(val: real, next: nat, range: bool)
  type Strtod = (string, nat) -> Conversion

  /** strtod never leaves its input. */
  ghost predicate InBounds(strtod: Strtod) {
    forall s: string, i: nat :: i <= |s| ==> i <= strtod(s, i).next <= |s|
  }

  /** Strings end in a NUL. */
  function CharAt(s: string, i: nat): char {
    if i < |s| then s[i] else '\0'
  }

  predicate IsBlank(c: char) { c == ' ' || c == '\t' }
  predicate IsNameChar(c: char) { 'a' <= c <= 'z' || IsDigit(c) }

  /** Room for the characters of a function name. */
  const NAME_MAX: nat := 63

  function SkipBlanks(s: string, i: nat): (j: nat)
    requires i <= |s|
    ensures i <= j <= |s|
    decreases |s| - i
  {
    if IsBlank(CharAt(s, i)) then SkipBlanks(s, i + 1) else i
  }

  function NameEnd(s: string, i: nat, room: nat): (j: nat)
    requires i <= |s|
    ensures i <= j <= |s|
    decreases room
  {
    if IsNameChar(CharAt(s, i)) && room > 0 then NameEnd(s, i + 1, room - 1) else i
  }

  function FuncLookup(name: string): Option<Function> {
    if name == "ln" then Some(Ln)
    else if name == "log2" then Some(Log2)
    else if name == "log10" then Some(Log10)
    else if name == "sin" then Some(Sin)
    else if name == "cos" then Some(Cos)
    else if name == "abs" then Some(Abs)
    else None
  }

  function NumberAt(strtod: Strtod, s: string, i: nat): (Token, nat) {
    var c := strtod(s, i);
    if c.range || c.next == i then (Unknown, i) else (Constant(c.val), c.next)
  }

  function SignAt(strtod: Strtod, s: string, i: nat, op: Operator): (Token, nat) {
    if IsDigit(CharAt(s, i + 1)) then NumberAt(strtod, s, i) else (Oper(op), i + 1)
  }

  function NameAt(s: string, i: nat): (Token, nat)
    requires i <= |s|
  {
    var j := NameEnd(s, i, NAME_MAX);
    match FuncLookup(s[i..j])
    case Some(fn) => (Func(fn), j)
    case None => (Unknown, i)
  }

  /** The token at `start` and where lexing continues. */
  function TokenAt(strtod: Strtod, s: string, start: nat): (Token, nat)
    requires start <= |s|
  {
    var i := SkipBlanks(s, start);
    var c := CharAt(s, i);
    if c == '+' then SignAt(strtod, s, i, Plus)
    else if c == '-' then SignAt(strtod, s, i, Minus)
    else if c == '*' then (Oper(Mul), i + 1)
    else if c == '/' then (Oper(Div), i + 1)
    else if c == '^' then (Oper(Exp), i + 1)
    else if c == '(' then (ParenOpen, i + 1)
    else if c == ')' then (ParenClose, i + 1)
    else if c == 'x' then (Variable, i + 1)
    else if IsDigit(c) then NumberAt(strtod, s, i)
    else if c == 'l' || c == 's' || c == 'c' then NameAt(s, i)
    else if c == '\0' then (End, i)
    else (Unknown, i)
  }

  /** Blanks are passed over, a number out of range and a character that starts no token are unknown. */
  lemma {:induction false} NothingElseLexes(strtod: Strtod, s: string, i: nat)
    requires i < |s|
    ensures s[i] == ' ' || s[i] == '\t' ==> TokenAt(strtod, s, i) == TokenAt(strtod, s, i + 1)
    ensures '0' <= s[i] <= '9' && strtod(s, i).range ==> TokenAt(strtod, s, i) == (Unknown, i)
    ensures s[i] !in " \t+-*/^()x0123456789lsc\0" ==> TokenAt(strtod, s, i) == (Unknown, i)
  {
  }

  /** Every token other than END and UNKNOWN consumes input: the parser's loop terminates. */
  lemma {:induction false} TokenProgress(strtod: Strtod, s: string, start: nat)
    requires InBounds(strtod) && start <= |s|
    ensures var (tok, next) := TokenAt(strtod, s, start);
            start <= next <= |s| && (tok.End? || tok.Unknown? || start < next)
  {
    var i := SkipBlanks(s, start);
    assert i <= strtod(s, i).next <= |s|;
    if CharAt(s, i) == 'l' || CharAt(s, i) == 's' || CharAt(s, i) == 'c' {
      assert NameEnd(s, i, NAME_MAX) > i;
    }
  }

  /** The tokens up to the end of the input, or up to the first unknown one. */
  datatype Lexed = Lexed(toks: seq<Token>, complete: bool)

  function Lex(strtod: Strtod, s: string, i: nat): Lexed
    requires InBounds(strtod) && i <= |s|
    decreases |s| - i
  {
    TokenProgress(strtod, s, i);
    var (tok, next) := TokenAt(strtod, s, i);
    if tok.End? then Lexed([], true)
    else if tok.Unknown? then Lexed([], false)
    else var rest := Lex(strtod, s, next); Lexed([tok] + rest.toks, rest.complete)
  }

  method GetToken(strtod: Strtod, input: string, start: nat) returns (tok: Token, next: nat)
    requires start <= |input|
    ensures (tok, next) == TokenAt(strtod, input, start)
  {
    var i := start;
    while IsBlank(CharAt(input, i))
      invariant i <= |input| && SkipBlanks(input, i) == SkipBlanks(input, start)
      decreases |input| - i
    {
      i := i + 1;
    }
    match CharAt(input, i) {
      case '+' => return SignAt(strtod, input, i, Plus).0, SignAt(strtod, input, i, Plus).1;
      case '-' => return SignAt(strtod, input, i, Minus).0, SignAt(strtod, input, i, Minus).1;
      case '*' => return Oper(Mul), i + 1;
      case '/' => return Oper(Div), i + 1;
      case '^' => return Oper(Exp), i + 1;
      case '(' => return ParenOpen, i + 1;
      case ')' => return ParenClose, i + 1;
      case 'x' => return Variable, i + 1;
      case '\0' => return End, i;
      case c =>
        if IsDigit(c) {
          return NumberAt(strtod, input, i).0, NumberAt(strtod, input, i).1;
        } else if c == 'l' || c == 's' || c == 'c' {
          var j, len := i, 0;
          while IsNameChar(CharAt(input, j)) && len < NAME_MAX
            invariant i <= j <= |input| && len <= NAME_MAX
            invariant NameEnd(input, j, NAME_MAX - len) == NameEnd(input, i, NAME_MAX)
            decreases NAME_MAX - len
          {
            j, len := j + 1, len + 1;
          }
          match FuncLookup(input[i..j]) {
            case Some(fn) => return Func(fn), j;
            case None => return Unknown, i;
          }
        } else {
          return Unknown, i;
        }
    }
  }
}

/** The `minicalc3` variant: plain operator functions instead of operator
    classes, a tokenizer without parentheses that first deletes the spaces,
    and a parser in which every binary operator has precedence 1 and `!`
    throws away the operand before it. A binary operator met where the
    minimum precedence is 2 is handed back without being consumed, so the
    operand loop spins; as in the `minicalc2` model, every parser function
    takes a `fuel` bound. */
module MiniCalc3 {
  import opened Results
  import opened Lexer
  import opened Tree
  import opened Arith

  /** The six operator functions. */
  datatype Fn = Add | Subtract | Multiply | Divide | Power | Factorial

  /** `OPERATORS`: symbol to function. */
  const Functions: map<char, Fn> :=
    map['+' := Add, '-' := Subtract, '*' := Multiply, '/' := Divide, '^' := Power, '!' := Factorial]

  /** The tokenizer's character class is built from the table's keys alone:
      no parentheses. */
  const Symbols: Alphabet := Alphabet({'+', '-', '*', '/', '^', '!'}, false)

  /** The one precedence `handle_binary` gives every binary operator. */
  const BinaryPrecedence: int := 1

  /** The number of arguments each function takes. */
  function Arity(f: Fn): nat {
    if f == Factorial then 1 else 2
  }

  lemma TableConsistent()
    ensures Symbols.symbols == Functions.Keys && ValidAlphabet(Symbols) && !Symbols.parens
    ensures forall c :: c in Functions && Functions[c] == Factorial <==> c == '!'
  {
  }

  /** Calling an operator function with some arguments: a call with the
      wrong number of arguments is a `TypeError`; `divide` rejects a zero
      divisor and `factorial` a negative operand, before truncating it. */
  function Apply(f: Fn, args: seq<real>): (r: Result<real>)
    ensures |args| != Arity(f) <==> r == Err(WrongOperandCount)
    ensures f == Factorial && |args| == 1 ==> r == CheckedFactorial(args[0])
  {
    if |args| != Arity(f) then Err(WrongOperandCount)
    else
      match f
      case Add => Ok(args[0] + args[1])
      case Subtract => Ok(args[0] - args[1])
      case Multiply => Ok(args[0] * args[1])
      case Divide => Quotient(args[0], args[1])
      case Power => DecimalPower(args[0], args[1])
      case Factorial => CheckedFactorial(args[0])
  }

  /** Every node of a tree calls its function with as many arguments as it
      takes: `factorial` on one node, the others on two. */
  predicate ArityRespected(n: Node<Fn>) {
    match n
    case Number(_) => true
    case Unary(f, x) => Arity(f) == 1 && ArityRespected(x)
    case Binary(f, l, r) => Arity(f) == 2 && ArityRespected(l) && ArityRespected(r)
  }

  /** `node.evaluate()`: the operand values, left before right, passed to
      the node's function. A tree that evaluates calls every function with
      its own number of arguments, so it holds no signed operand. */
  function Eval(n: Node<Fn>): (r: Result<real>)
    ensures r.Ok? ==> ArityRespected(n)
  {
    match n
    case Number(v) => Ok(v)
    case Unary(f, x) =>
      var v :- Eval(x);
      Apply(f, [v])
    case Binary(f, l, r) =>
      var a :- Eval(l);
      var b :- Eval(r);
      Apply(f, [a, b])
  }

  /** `expression.replace(' ', '')`. */
  function Strip(s: string): (r: string)
    ensures |r| <= |s| && ' ' !in r
    ensures forall c :: c != ' ' ==> (c in r <==> c in s)
    decreases |s|
  {
    if s == [] then []
    else if s[0] == ' ' then Strip(s[1..])
    else [s[0]] + Strip(s[1..])
  }

  /** Text without spaces is left as it is, so deleting the spaces twice is
      deleting them once. */
  lemma {:induction false} StripNoSpaces(s: string)
    requires ' ' !in s
    ensures Strip(s) == s
    decreases |s|
  {
    if s != [] {
      assert s == [s[0]] + s[1..];
      StripNoSpaces(s[1..]);
    }
  }

  /** Deleting spaces works character by character: a text's pieces are
      stripped separately and put back together in the same order, a space
      vanishes and every other character stays. With `StripNoSpaces` this
      says the other characters are kept in order and with their counts. */
  lemma {:induction false} StripAppend(s: string, t: string)
    ensures Strip(s + t) == Strip(s) + Strip(t)
    decreases |s|
  {
    if s != [] {
      assert (s + t)[1..] == s[1..] + t;
      StripAppend(s[1..], t);
    } else {
      assert s + t == t;
    }
  }

  lemma StripChar(c: char)
    ensures Strip([c]) == if c == ' ' then [] else [c]
  {
  }

  lemma StripIdempotent(s: string)
    ensures Strip(Strip(s)) == Strip(s)
  {
    StripNoSpaces(Strip(s));
  }

  // ---------------------------------------------------------------- parser

  /** The token at `pos` is in the function table. */
  predicate IsFunction(ts: seq<Token>, pos: nat) {
    pos < |ts| && ts[pos].Symbol? && ts[pos].sym in Functions
  }

  function FnAt(ts: seq<Token>, pos: nat): Fn
    requires IsFunction(ts, pos)
  {
    Functions[ts[pos].sym]
  }

  /** `parse_expr(min_prec)`: a term, then the operand loop. Fuel is spent by
      each `parse_expr` call, each turn of the loop and each operator
      handled. */
  function ParseExpr(ts: seq<Token>, pos: nat, minPrec: int, fuel: nat): (r: Result<Parsed<Fn>>)
    requires pos <= |ts|
    ensures r.Ok? ==> pos < r.value.pos <= |ts| && !IsFunction(ts, r.value.pos)
    decreases fuel, |ts| - pos, 3
  {
    if fuel == 0 then Err(OutOfFuel)
    else
      var first :- ParseTerm(ts, pos, fuel - 1);
      ExprLoop(ts, first.node, first.pos, minPrec, fuel - 1)
  }

  /** The `while True` loop of `parse_expr`: its only exit is a token that
      is not in the table. */
  function ExprLoop(ts: seq<Token>, left: Node<Fn>, pos: nat, minPrec: int, fuel: nat): (r: Result<Parsed<Fn>>)
    requires pos <= |ts|
    ensures r.Ok? ==> pos <= r.value.pos <= |ts| && !IsFunction(ts, r.value.pos)
    ensures !IsFunction(ts, pos) && fuel > 0 ==> r == Ok(Parsed(left, pos))
    decreases fuel, |ts| - pos, 5
  {
    if fuel == 0 then Err(OutOfFuel)
    else if !IsFunction(ts, pos) then Ok(Parsed(left, pos))
    else
      var next :- HandleOperator(ts, FnAt(ts, pos), left, pos, minPrec, fuel - 1);
      ExprLoop(ts, next.node, next.pos, minPrec, fuel - 1)
  }

  /** `handle_operator` with `handle_unary` and `handle_binary` inlined:
      `factorial` consumes its symbol and applies to the term after it,
      dropping `left`; any other function is binary with precedence 1, and
      is handed back unconsumed when that is below the minimum. */
  function HandleOperator(ts: seq<Token>, f: Fn, left: Node<Fn>, pos: nat, minPrec: int, fuel: nat)
    : (r: Result<Parsed<Fn>>)
    requires pos < |ts|
    ensures r.Ok? ==> pos <= r.value.pos <= |ts|
    ensures f != Factorial && BinaryPrecedence < minPrec ==> r == Ok(Parsed(left, pos))
    decreases fuel, |ts| - pos, 4
  {
    if f == Factorial then
      var operand :- ParseTerm(ts, pos + 1, fuel);
      Ok(Parsed(Unary(Factorial, operand.node), operand.pos))
    else if BinaryPrecedence < minPrec then
      Ok(Parsed(left, pos))
    else
      var right :- ParseExpr(ts, pos + 1, BinaryPrecedence + 1, fuel);
      Ok(Parsed(Binary(f, left, right.node), right.pos))
  }

  /** `parse_term`: a leading `-` or `+` applies its function, as a single
      argument, to the factor after it. */
  function ParseTerm(ts: seq<Token>, pos: nat, fuel: nat): (r: Result<Parsed<Fn>>)
    requires pos <= |ts|
    ensures r.Ok? ==> pos < r.value.pos <= |ts|
    ensures pos == |ts| ==> r == Err(NoToken)
    decreases fuel, |ts| - pos, 2
  {
    if pos < |ts| && ts[pos] in {Symbol('-'), Symbol('+')} then
      var operand :- ParseFactor(ts, pos + 1, fuel);
      Ok(Parsed(Unary(Functions[ts[pos].sym], operand.node), operand.pos))
    else
      ParseFactor(ts, pos, fuel)
  }

  /** `parse_factor`: a number, a parenthesised expression, or `!` before a
      primary. Past the last token the current token is `None`, whose
      missing `isdigit` method is reported as `NoToken`. */
  function ParseFactor(ts: seq<Token>, pos: nat, fuel: nat): (r: Result<Parsed<Fn>>)
    requires pos <= |ts|
    ensures r.Ok? ==> pos < r.value.pos <= |ts|
    ensures pos == |ts| ==> r == Err(NoToken)
    ensures pos < |ts| && ts[pos].Numeral? ==> r == Ok(Parsed(Leaf(ts[pos].text), pos + 1))
    ensures pos < |ts| && (ts[pos] == RParen || (ts[pos].Symbol? && ts[pos].sym != '!')) ==> r == Err(UnexpectedToken(pos))
    decreases fuel, |ts| - pos, 1
  {
    if pos == |ts| then
      Err(NoToken)
    else
      match ts[pos]
      case Numeral(text) => Ok(Parsed(Leaf(text), pos + 1))
      case LParen => Enclosed(ts, pos, fuel)
      case Symbol(c) =>
        if c == '!' then
          var operand :- ParsePrimary(ts, pos + 1, fuel);
          Ok(Parsed(Unary(Factorial, operand.node), operand.pos))
        else
          Err(UnexpectedToken(pos))
      case RParen => Err(UnexpectedToken(pos))
  }

  /** `parse_primary`: a number or a parenthesised expression. */
  function ParsePrimary(ts: seq<Token>, pos: nat, fuel: nat): (r: Result<Parsed<Fn>>)
    requires pos <= |ts|
    ensures r.Ok? ==> pos < r.value.pos <= |ts|
    ensures pos == |ts| ==> r == Err(UnexpectedEnd)
    ensures pos < |ts| && ts[pos].Numeral? ==> r == Ok(Parsed(Leaf(ts[pos].text), pos + 1))
    ensures pos < |ts| && (ts[pos].Symbol? || ts[pos] == RParen) ==> r == Err(UnexpectedToken(pos))
    decreases fuel, |ts| - pos, 1
  {
    if pos == |ts| then
      Err(UnexpectedEnd)
    else
      match ts[pos]
      case Numeral(text) => Ok(Parsed(Leaf(text), pos + 1))
      case LParen => Enclosed(ts, pos, fuel)
      case _ => Err(UnexpectedToken(pos))
  }

  /** `consume('(')`, `parse_expr(0)`, `consume(')')`: the branch both
      `parse_factor` and `parse_primary` have and the tokenizer never feeds. */
  function Enclosed(ts: seq<Token>, pos: nat, fuel: nat): (r: Result<Parsed<Fn>>)
    requires pos < |ts| && ts[pos] == LParen
    ensures r.Ok? ==> pos + 2 < r.value.pos <= |ts| && ts[r.value.pos - 1] == RParen
    decreases fuel, |ts| - pos, 0
  {
    var inner :- ParseExpr(ts, pos + 1, 0, fuel);
    if inner.pos < |ts| && ts[inner.pos] == RParen then
      Ok(Parsed(inner.node, inner.pos + 1))
    else
      Err(Expected(')', inner.pos))
  }

  /** `parse`: one expression that must use up every token, the first token
      it leaves being reported as "Unexpected token at end". */
  function Parse(ts: seq<Token>, fuel: nat): (r: Result<Node<Fn>>)
    ensures r.Ok? ==> exists p :: ParseExpr(ts, 0, 0, fuel) == Ok(p) && p.node == r.value && p.pos == |ts|
    ensures r.Ok? <==> ParseExpr(ts, 0, 0, fuel).Ok? && ParseExpr(ts, 0, 0, fuel).value.pos == |ts|
    ensures ParseExpr(ts, 0, 0, fuel).Ok? && ParseExpr(ts, 0, 0, fuel).value.pos < |ts| ==>
              r == Err(TrailingToken(ParseExpr(ts, 0, 0, fuel).value.pos))
  {
    var p :- ParseExpr(ts, 0, 0, fuel);
    if p.pos != |ts| then Err(TrailingToken(p.pos)) else Ok(p.node)
  }

  /** The token list of a line: spaces deleted, then the pattern scanned. */
  function Tokens3(expression: string): (ts: seq<Token>)
    ensures forall t :: t in ts ==> t != LParen && t != RParen
  {
    Tokenize(Strip(expression), Symbols)
  }

  /** `Calculator.evaluate`: a line that evaluates parses to a tree in
      which every function gets its own number of arguments, so no leading
      `-` or `+` survives into a result. */
  function Evaluate(expression: string, fuel: nat): (r: Result<real>)
    ensures r.Ok? ==> Parse(Tokens3(expression), fuel).Ok? && ArityRespected(Parse(Tokens3(expression), fuel).value)
  {
    var tree :- Parse(Tokens3(expression), fuel);
    Eval(tree)
  }

  // ------------------------------------------------------- fuel stability

  /** Fuel only cuts a parse short: a parse that does not run out of fuel
      gives the same outcome, tree or error, with any larger bound. */
  lemma {:induction false} ExprMonotone(ts: seq<Token>, pos: nat, minPrec: int, fuel: nat, more: nat)
    requires pos <= |ts| && fuel <= more && ParseExpr(ts, pos, minPrec, fuel) != Err(OutOfFuel)
    ensures ParseExpr(ts, pos, minPrec, more) == ParseExpr(ts, pos, minPrec, fuel)
    decreases fuel, |ts| - pos, 3
  {
    var first := ParseTerm(ts, pos, fuel - 1);
    TermMonotone(ts, pos, fuel - 1, more - 1);
    if first.Ok? {
      LoopMonotone(ts, first.value.node, first.value.pos, minPrec, fuel - 1, more - 1);
    }
  }

  lemma {:induction false} LoopMonotone(ts: seq<Token>, left: Node<Fn>, pos: nat, minPrec: int, fuel: nat, more: nat)
    requires pos <= |ts| && fuel <= more && ExprLoop(ts, left, pos, minPrec, fuel) != Err(OutOfFuel)
    ensures ExprLoop(ts, left, pos, minPrec, more) == ExprLoop(ts, left, pos, minPrec, fuel)
    decreases fuel, |ts| - pos, 5
  {
    if IsFunction(ts, pos) {
      var next := HandleOperator(ts, FnAt(ts, pos), left, pos, minPrec, fuel - 1);
      HandleMonotone(ts, FnAt(ts, pos), left, pos, minPrec, fuel - 1, more - 1);
      if next.Ok? {
        LoopMonotone(ts, next.value.node, next.value.pos, minPrec, fuel - 1, more - 1);
      }
    }
  }

  lemma {:induction false} HandleMonotone(ts: seq<Token>, f: Fn, left: Node<Fn>, pos: nat, minPrec: int, fuel: nat, more: nat)
    requires pos < |ts| && fuel <= more && HandleOperator(ts, f, left, pos, minPrec, fuel) != Err(OutOfFuel)
    ensures HandleOperator(ts, f, left, pos, minPrec, more) == HandleOperator(ts, f, left, pos, minPrec, fuel)
    decreases fuel, |ts| - pos, 4
  {
    if f == Factorial {
      TermMonotone(ts, pos + 1, fuel, more);
    } else if BinaryPrecedence >= minPrec {
      ExprMonotone(ts, pos + 1, BinaryPrecedence + 1, fuel, more);
    }
  }

  lemma {:induction false} TermMonotone(ts: seq<Token>, pos: nat, fuel: nat, more: nat)
    requires pos <= |ts| && fuel <= more && ParseTerm(ts, pos, fuel) != Err(OutOfFuel)
    ensures ParseTerm(ts, pos, more) == ParseTerm(ts, pos, fuel)
    decreases fuel, |ts| - pos, 2
  {
    if pos < |ts| && ts[pos] in {Symbol('-'), Symbol('+')} {
      FactorMonotone(ts, pos + 1, fuel, more);
    } else {
      FactorMonotone(ts, pos, fuel, more);
    }
  }

  lemma {:induction false} FactorMonotone(ts: seq<Token>, pos: nat, fuel: nat, more: nat)
    requires pos <= |ts| && fuel <= more && ParseFactor(ts, pos, fuel) != Err(OutOfFuel)
    ensures ParseFactor(ts, pos, more) == ParseFactor(ts, pos, fuel)
    decreases fuel, |ts| - pos, 1
  {
    if pos < |ts| {
      if ts[pos] == LParen {
        EnclosedMonotone(ts, pos, fuel, more);
      } else if ts[pos] == Symbol('!') {
        PrimaryMonotone(ts, pos + 1, fuel, more);
      }
    }
  }

  lemma {:induction false} PrimaryMonotone(ts: seq<Token>, pos: nat, fuel: nat, more: nat)
    requires pos <= |ts| && fuel <= more && ParsePrimary(ts, pos, fuel) != Err(OutOfFuel)
    ensures ParsePrimary(ts, pos, more) == ParsePrimary(ts, pos, fuel)
    decreases fuel, |ts| - pos, 1
  {
    if pos < |ts| && ts[pos] == LParen {
      EnclosedMonotone(ts, pos, fuel, more);
    }
  }

  lemma {:induction false} EnclosedMonotone(ts: seq<Token>, pos: nat, fuel: nat, more: nat)
    requires pos < |ts| && ts[pos] == LParen && fuel <= more && Enclosed(ts, pos, fuel) != Err(OutOfFuel)
    ensures Enclosed(ts, pos, more) == Enclosed(ts, pos, fuel)
    decreases fuel, |ts| - pos, 0
  {
    ExprMonotone(ts, pos + 1, 0, fuel, more);
  }

  /** So a whole parse that does not run out of fuel is the same with every
      larger bound. */
  lemma ParseMonotone(ts: seq<Token>, fuel: nat, more: nat)
    requires fuel <= more && Parse(ts, fuel) != Err(OutOfFuel)
    ensures Parse(ts, more) == Parse(ts, fuel)
  {
    ExprMonotone(ts, 0, 0, fuel, more);
  }
}

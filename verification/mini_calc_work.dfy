/** The working calculator: operator table, tree evaluation and the
    precedence-climbing parser with prefix `-` and postfix `!`. Its operator
    classes and tree nodes are shared, unchanged, by the `minicalc2` variant. */
module MiniCalcWork {
  import opened Results
  import opened Lexer
  import opened Tree
  import opened Arith
  import Numerals

  datatype Op = Plus | Minus | Multiply | Divide | Power | Factorial

  datatype Assoc = LeftAssoc | RightAssoc

  /** The attributes every operator object carries. */
  datatype OpDesc = OpDesc(
    symbol: char,
    precedence: int,
    numOperands: nat,
    isUnary: bool,
    allowUnary: bool,
    assoc: Assoc)

  function Desc(op: Op): OpDesc {
    match op
    case Plus => OpDesc('+', 1, 2, false, false, LeftAssoc)
    case Minus => OpDesc('-', 1, 2, false, true, LeftAssoc)
    case Multiply => OpDesc('*', 2, 2, false, false, LeftAssoc)
    case Divide => OpDesc('/', 2, 2, false, false, LeftAssoc)
    case Power => OpDesc('^', 3, 2, false, false, RightAssoc)
    case Factorial => OpDesc('!', 4, 1, true, false, LeftAssoc)
  }

  /** The `Calculator`'s symbol table. */
  const Operators: map<char, Op> :=
    map['+' := Plus, '-' := Minus, '*' := Multiply, '/' := Divide, '^' := Power, '!' := Factorial]

  /** The tokenizer's character class: the table's symbols and the parentheses. */
  const Symbols: Alphabet := Alphabet({'+', '-', '*', '/', '^', '!'}, true)

  /** The table is keyed by each operator's own symbol, the alphabet holds
      exactly its keys, and only `-` may stand in prefix position. */
  lemma TableConsistent()
    ensures Symbols.symbols == Operators.Keys && ValidAlphabet(Symbols)
    ensures forall c :: c in Operators ==> Desc(Operators[c]).symbol == c
    ensures forall c :: c in Operators && Desc(Operators[c]).allowUnary ==> c == '-'
    ensures forall c :: c in Operators && Desc(Operators[c]).isUnary ==> c == '!'
  {
  }

  /** The operand counts `op.execute` takes: the operator's own count, and
      for `Minus`, whose `execute(*args)` takes one or two, also one. */
  predicate Accepts(op: Op, n: nat) {
    n == Desc(op).numOperands || (op == Minus && n == 1)
  }

  /** `operator.execute(*args)`: each operator accepts only the operand
      counts its `execute` signature admits; `Minus` negates one operand and
      subtracts two. */
  function Apply(op: Op, args: seq<real>): (r: Result<real>)
    ensures r == Err(WrongOperandCount) <==> !Accepts(op, |args|)
    ensures op == Minus && |args| == 1 ==> r == Ok(-args[0])
    ensures op == Minus && |args| == 2 ==> r == Ok(args[0] - args[1])
  {
    match op
    case Plus => if |args| == 2 then Ok(args[0] + args[1]) else Err(WrongOperandCount)
    case Minus =>
      if |args| == 1 then Ok(-args[0])
      else if |args| == 2 then Ok(args[0] - args[1])
      else Err(WrongOperandCount)
    case Multiply => if |args| == 2 then Ok(args[0] * args[1]) else Err(WrongOperandCount)
    case Divide => if |args| == 2 then Quotient(args[0], args[1]) else Err(WrongOperandCount)
    case Power => if |args| == 2 then DecimalPower(args[0], args[1]) else Err(WrongOperandCount)
    case Factorial => if |args| == 1 then TruncFactorial(args[0]) else Err(WrongOperandCount)
  }

  /** Every node of a tree gives its operator an operand count it takes. */
  predicate WellApplied(n: Node<Op>) {
    match n
    case Number(_) => true
    case Unary(op, x) => Accepts(op, 1) && WellApplied(x)
    case Binary(op, l, r) => Accepts(op, 2) && WellApplied(l) && WellApplied(r)
  }

  /** `node.evaluate()`: operands first, the left one before the right one,
      so the left operand's error wins. A tree that evaluates gives every
      operator an operand count it takes. */
  function Eval(n: Node<Op>): (r: Result<real>)
    ensures r.Ok? ==> WellApplied(n)
  {
    match n
    case Number(v) => Ok(v)
    case Unary(op, x) =>
      var v :- Eval(x);
      Apply(op, [v])
    case Binary(op, l, r) =>
      var a :- Eval(l);
      var b :- Eval(r);
      Apply(op, [a, b])
  }

  /** Conversely, a tree whose every operator gets a count it takes never
      fails on the operand count. */
  lemma {:induction false} NoCountError(n: Node<Op>)
    requires WellApplied(n)
    ensures Eval(n) != Err(WrongOperandCount)
  {
    match n
    case Number(_) =>
    case Unary(op, x) =>
      NoCountError(x);
    case Binary(op, l, r) =>
      NoCountError(l);
      NoCountError(r);
  }

  // ---------------------------------------------------------------- parser

  /** The token at `pos` is in the operator table. */
  predicate IsOperator(ts: seq<Token>, pos: nat) {
    pos < |ts| && ts[pos].Symbol? && ts[pos].sym in Operators
  }

  function OpAt(ts: seq<Token>, pos: nat): Op
    requires IsOperator(ts, pos)
  {
    Operators[ts[pos].sym]
  }

  /** The operand loop of `parse_expr(minPrec)` stops at `pos`. */
  predicate LoopExits(ts: seq<Token>, pos: nat, minPrec: int) {
    !IsOperator(ts, pos) || Desc(OpAt(ts, pos)).precedence < minPrec
  }

  /** The minimum precedence for an infix operator's right operand: one
      above its own when it groups to the left, its own when to the right. */
  function NextMin(op: Op): int {
    if Desc(op).assoc == LeftAssoc then Desc(op).precedence + 1 else Desc(op).precedence
  }

  /** The errors `parse` can raise. */
  predicate SyntaxError(e: Error) {
    e.UnexpectedEnd? || e.UnexpectedToken? || e.Expected? || e.TrailingToken?
  }

  /** Tokens an operand can begin with, and tokens it can end with. */
  predicate StartsOperand(t: Token) {
    t.Numeral? || t == LParen || t == Symbol('-')
  }

  predicate EndsOperand(t: Token) {
    t.Numeral? || t == RParen || t == Symbol('!')
  }

  /** `parse_expr(min_prec)`: a prefix term, then a loop that wraps postfix
      operators and folds infix operators of precedence at least `minPrec`. */
  function ParseExpr(ts: seq<Token>, pos: nat, minPrec: int): (r: Result<Parsed<Op>>)
    requires pos <= |ts|
    ensures r.Ok? ==> pos < r.value.pos <= |ts|
    ensures r.Ok? ==> StartsOperand(ts[pos]) && EndsOperand(ts[r.value.pos - 1])
    ensures r.Ok? ==> LoopExits(ts, r.value.pos, minPrec)
    ensures r.Ok? ==> WellApplied(r.value.node)
    ensures r.Err? ==> SyntaxError(r.error)
    ensures pos == |ts| ==> r == Err(UnexpectedEnd)
    decreases |ts| - pos, 2
  {
    var first :- ParsePrefix(ts, pos);
    ExprLoop(ts, first.node, first.pos, minPrec)
  }

  /** The `while True` loop of `parse_expr`; every iteration either leaves the
      loop or consumes a token. */
  function ExprLoop(ts: seq<Token>, left: Node<Op>, pos: nat, minPrec: int): (r: Result<Parsed<Op>>)
    requires 0 < pos <= |ts| && EndsOperand(ts[pos - 1])
    ensures r.Ok? ==> pos <= r.value.pos <= |ts|
    ensures r.Ok? ==> EndsOperand(ts[r.value.pos - 1])
    ensures r.Ok? ==> LoopExits(ts, r.value.pos, minPrec)
    ensures r.Ok? && WellApplied(left) ==> WellApplied(r.value.node)
    ensures r.Err? ==> SyntaxError(r.error)
    decreases |ts| - pos, 1
  {
    if !IsOperator(ts, pos) then
      Ok(Parsed(left, pos))
    else
      var op := OpAt(ts, pos);
      var d := Desc(op);
      if d.precedence < minPrec then
        Ok(Parsed(left, pos))
      else if d.isUnary && !d.allowUnary then
        ExprLoop(ts, Unary(op, left), pos + 1, minPrec)
      else
        var right :- ParseExpr(ts, pos + 1, NextMin(op));
        ExprLoop(ts, Binary(op, left, right.node), right.pos, minPrec)
  }

  /** `parse_prefix`: a run of prefix-capable operators before a primary. */
  function ParsePrefix(ts: seq<Token>, pos: nat): (r: Result<Parsed<Op>>)
    requires pos <= |ts|
    ensures r.Ok? ==> pos < r.value.pos <= |ts|
    ensures r.Ok? ==> StartsOperand(ts[pos]) && EndsOperand(ts[r.value.pos - 1])
    ensures r.Ok? ==> WellApplied(r.value.node)
    ensures r.Err? ==> SyntaxError(r.error)
    ensures pos == |ts| ==> r == Err(UnexpectedEnd)
    decreases |ts| - pos, 1
  {
    if IsOperator(ts, pos) && Desc(OpAt(ts, pos)).allowUnary then
      var operand :- ParsePrefix(ts, pos + 1);
      Ok(Parsed(Unary(OpAt(ts, pos), operand.node), operand.pos))
    else
      ParsePrimary(ts, pos)
  }

  /** `parse_primary`: a number, or a parenthesised expression. */
  function ParsePrimary(ts: seq<Token>, pos: nat): (r: Result<Parsed<Op>>)
    requires pos <= |ts|
    ensures r.Ok? ==> pos < r.value.pos <= |ts|
    ensures r.Ok? ==> (ts[pos].Numeral? || ts[pos] == LParen) && EndsOperand(ts[r.value.pos - 1])
    ensures pos == |ts| ==> r == Err(UnexpectedEnd)
    ensures pos < |ts| && !ts[pos].Numeral? && ts[pos] != LParen ==> r == Err(UnexpectedToken(pos))
    ensures pos < |ts| && ts[pos] == LParen && ParseExpr(ts, pos + 1, 0).Ok? ==>
              var q := ParseExpr(ts, pos + 1, 0).value.pos;
              if q < |ts| && ts[q] == RParen then r == Ok(Parsed(ParseExpr(ts, pos + 1, 0).value.node, q + 1))
              else r == Err(Expected(')', q))
    ensures r.Ok? ==> WellApplied(r.value.node)
    ensures r.Err? ==> SyntaxError(r.error)
    decreases |ts| - pos, 0
  {
    if pos == |ts| then
      Err(UnexpectedEnd)
    else
      match ts[pos]
      case Numeral(text) => Ok(Parsed(Leaf(text), pos + 1))
      case LParen =>
        var inner :- ParseExpr(ts, pos + 1, 0);
        if inner.pos < |ts| && ts[inner.pos] == RParen then
          Ok(Parsed(inner.node, inner.pos + 1))
        else
          Err(Expected(')', inner.pos))
      case _ => Err(UnexpectedToken(pos))
  }

  /** `parse`: one expression that must use up every token, the first token
      it leaves being reported. A successful parse covers the whole input,
      which begins with a token an operand can begin with and ends with one
      an operand can end with. */
  function Parse(ts: seq<Token>): (r: Result<Node<Op>>)
    ensures r.Ok? <==> ParseExpr(ts, 0, 0).Ok? && ParseExpr(ts, 0, 0).value.pos == |ts|
    ensures r.Ok? ==> ParseExpr(ts, 0, 0) == Ok(Parsed(r.value, |ts|))
    ensures ParseExpr(ts, 0, 0).Ok? && ParseExpr(ts, 0, 0).value.pos < |ts| ==>
              r == Err(TrailingToken(ParseExpr(ts, 0, 0).value.pos))
    ensures r.Ok? ==> |ts| > 0 && StartsOperand(ts[0]) && EndsOperand(ts[|ts| - 1])
    ensures r.Ok? ==> WellApplied(r.value)
    ensures r.Err? ==> SyntaxError(r.error)
    ensures ts == [] ==> r == Err(UnexpectedEnd)
  {
    var p :- ParseExpr(ts, 0, 0);
    if p.pos != |ts| then Err(TrailingToken(p.pos)) else Ok(p.node)
  }

  /** `Calculator.evaluate`: tokenize, parse, evaluate. The parser puts
      only `-` in prefix and only `!` in postfix position, so no operator is
      ever called with an operand count it does not take; input without
      tokens is at its end at once. */
  function Evaluate(expression: string): (r: Result<real>)
    ensures r != Err(WrongOperandCount)
    ensures Tokenize(expression, Symbols) == [] ==> r == Err(UnexpectedEnd)
  {
    var tree :- Parse(Tokenize(expression, Symbols));
    NoCountError(tree);
    Eval(tree)
  }
}

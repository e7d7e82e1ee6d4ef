/** The class-based calculator: the tokenizer built from the registry's keys
    and the parentheses, a parser whose `parse_expression` and `parse_term`
    are the same left fold over every operator of arity 2, a factor branch
    for operators of arity 1, and evaluation through the operator classes.

    The parser is given the registry as a parameter so that its arity-1
    branch can be stated; `Execute` uses the registry itself, which has no
    such operator. Cursor positions are never checked against the token
    count before `tokens[pos]` is read, and the closing parenthesis is
    skipped without being looked at, so a position can run past the end;
    `Remaining` is the measure that still decreases. */
module Calculator {
  import opened Results
  import opened Lexer
  import opened Tree
  import opened Operations

  /** Tokens left from `pos` on; 0 once the cursor is at or past the end. */
  function Remaining(ts: seq<Token>, pos: nat): nat {
    if pos <= |ts| then |ts| - pos else 0
  }

  /** The token at `pos` is a registered operator of the given arity. */
  predicate HasArity(reg: map<char, Operator>, ts: seq<Token>, pos: nat, arity: nat) {
    pos < |ts| && ts[pos].Symbol? && ts[pos].sym in reg && reg[ts[pos].sym].arity == arity
  }

  /** The condition of both `while` loops. */
  predicate IsBinary(reg: map<char, Operator>, ts: seq<Token>, pos: nat) {
    HasArity(reg, ts, pos, 2)
  }

  /** The class of the operator at `pos`. */
  function KindAt(reg: map<char, Operator>, ts: seq<Token>, pos: nat): Kind
    requires pos < |ts| && ts[pos].Symbol? && ts[pos].sym in reg
  {
    reg[ts[pos].sym].kind
  }

  /** A tree without unary nodes: the only trees the parser can return,
      since a `UnaryOpNode` cannot be built. */
  predicate NoUnary(n: Node<Kind>) {
    match n
    case Number(_) => true
    case Unary(_, _) => false
    case Binary(_, l, r) => NoUnary(l) && NoUnary(r)
  }

  /** `parse_expression`: a term, then the loop over arity-2 operators, each
      followed by a term. */
  function ParseExpression(reg: map<char, Operator>, ts: seq<Token>, pos: nat): (r: Result<Parsed<Kind>>)
    ensures r.Ok? ==> pos < |ts| && pos < r.value.pos && NoUnary(r.value.node)
    ensures r.Ok? ==> !IsBinary(reg, ts, r.value.pos)
    ensures pos >= |ts| ==> r == Err(IndexOutOfRange(pos))
    decreases Remaining(ts, pos), 4
  {
    var first :- ParseTerm(reg, ts, pos);
    ExpressionLoop(reg, ts, first.node, first.pos)
  }

  /** The `while` loop of `parse_expression`, from `left` at `pos`. */
  function ExpressionLoop(reg: map<char, Operator>, ts: seq<Token>, left: Node<Kind>, pos: nat): (r: Result<Parsed<Kind>>)
    ensures r.Ok? ==> pos <= r.value.pos && !IsBinary(reg, ts, r.value.pos)
    ensures r.Ok? && NoUnary(left) ==> NoUnary(r.value.node)
    ensures !IsBinary(reg, ts, pos) ==> r == Ok(Parsed(left, pos))
    decreases Remaining(ts, pos), 2
  {
    if IsBinary(reg, ts, pos) then
      var right :- ParseTerm(reg, ts, pos + 1);
      ExpressionLoop(reg, ts, Binary(KindAt(reg, ts, pos), left, right.node), right.pos)
    else
      Ok(Parsed(left, pos))
  }

  /** `parse_term`: a factor, then the loop over arity-2 operators, each
      followed by a factor. */
  function ParseTerm(reg: map<char, Operator>, ts: seq<Token>, pos: nat): (r: Result<Parsed<Kind>>)
    ensures r.Ok? ==> pos < |ts| && pos < r.value.pos && NoUnary(r.value.node)
    ensures r.Ok? ==> !IsBinary(reg, ts, r.value.pos)
    ensures pos >= |ts| ==> r == Err(IndexOutOfRange(pos))
    decreases Remaining(ts, pos), 3
  {
    var first :- ParseFactor(reg, ts, pos);
    TermLoop(reg, ts, first.node, first.pos)
  }

  /** The `while` loop of `parse_term`, from `left` at `pos`. */
  function TermLoop(reg: map<char, Operator>, ts: seq<Token>, left: Node<Kind>, pos: nat): (r: Result<Parsed<Kind>>)
    ensures r.Ok? ==> pos <= r.value.pos && !IsBinary(reg, ts, r.value.pos)
    ensures r.Ok? && NoUnary(left) ==> NoUnary(r.value.node)
    ensures !IsBinary(reg, ts, pos) ==> r == Ok(Parsed(left, pos))
    decreases Remaining(ts, pos), 2
  {
    if IsBinary(reg, ts, pos) then
      var right :- ParseFactor(reg, ts, pos + 1);
      TermLoop(reg, ts, Binary(KindAt(reg, ts, pos), left, right.node), right.pos)
    else
      Ok(Parsed(left, pos))
  }

  /** `parse_factor`: an operator of arity 1 takes a factor (when `side_oper`
      holds) or a primary after it, and wraps it in a `UnaryOpNode`, whose
      class leaves the abstract `execute_operation` undefined: building it
      is a `TypeError`. Anything else is a primary. */
  function ParseFactor(reg: map<char, Operator>, ts: seq<Token>, pos: nat): (r: Result<Parsed<Kind>>)
    ensures r.Ok? ==> pos < |ts| && pos < r.value.pos && NoUnary(r.value.node)
    ensures pos >= |ts| ==> r == Err(IndexOutOfRange(pos))
    decreases Remaining(ts, pos), 1
  {
    if pos >= |ts| then
      Err(IndexOutOfRange(pos))
    else if HasArity(reg, ts, pos, 1) then
      var operand :-
        if reg[ts[pos].sym].sideOper then ParseFactor(reg, ts, pos + 1) else ParsePrimary(reg, ts, pos + 1);
      Err(AbstractNode)
    else
      ParsePrimary(reg, ts, pos)
  }

  /** `parse_primary`: a number token is a leaf; `(` is followed by an
      expression, after which the cursor moves one further whatever the
      token there is; any other token is an error. */
  function ParsePrimary(reg: map<char, Operator>, ts: seq<Token>, pos: nat): (r: Result<Parsed<Kind>>)
    ensures r.Ok? ==> pos < |ts| && pos < r.value.pos && NoUnary(r.value.node)
    ensures pos >= |ts| ==> r == Err(IndexOutOfRange(pos))
    ensures pos < |ts| && ts[pos].Numeral? ==> r == Ok(Parsed(Leaf(ts[pos].text), pos + 1))
    ensures pos < |ts| && (ts[pos].Symbol? || ts[pos] == RParen) ==> r == Err(UnexpectedToken(pos))
    decreases Remaining(ts, pos), 0
  {
    if pos >= |ts| then
      Err(IndexOutOfRange(pos))
    else
      match ts[pos]
      case Numeral(text) => Ok(Parsed(Leaf(text), pos + 1))
      case LParen =>
        var inner :- ParseExpression(reg, ts, pos + 1);
        Ok(Parsed(inner.node, inner.pos + 1))
      case _ => Err(UnexpectedToken(pos))
  }

  /** `parse`: the expression from the first token, whatever follows it. */
  function Parse(reg: map<char, Operator>, ts: seq<Token>): (r: Result<Node<Kind>>)
    ensures r.Ok? ==> |ts| > 0 && NoUnary(r.value)
    ensures ts == [] ==> r == Err(IndexOutOfRange(0))
  {
    var p :- ParseExpression(reg, ts, 0);
    Ok(p.node)
  }

  /** `execute_operation` on a tree: a number node returns its value; a
      binary node passes its operands' values, left before right, to its
      operator. A unary node has no `execute_operation`. */
  function Eval(n: Node<Kind>, hidden: (Kind, seq<real>) -> Result<real>): (r: Result<real>)
    ensures r.Ok? ==> Evaluable(n)
  {
    match n
    case Number(v) => Ok(v)
    case Unary(_, _) => Err(AbstractNode)
    case Binary(k, l, r) =>
      var a :- Eval(l, hidden);
      var b :- Eval(r, hidden);
      Apply(k, [a, b], hidden)
  }

  /** A tree whose evaluation can succeed: no unary node, and no binary node
      for an operator whose method takes one argument. */
  predicate Evaluable(n: Node<Kind>) {
    match n
    case Number(_) => true
    case Unary(_, _) => false
    case Binary(k, l, r) => k != Negative && k != Factorial && Evaluable(l) && Evaluable(r)
  }

  /** `Calculator.execute`: tokenize with the registry's keys and the
      parentheses, parse, evaluate. An empty line fails at the first index
      lookup; a result comes only from a parsed tree that is evaluable. */
  function Execute(expr: string, hidden: (Kind, seq<real>) -> Result<real>): (r: Result<real>)
    ensures Tokenize(expr, Symbols) == [] ==> r == Err(IndexOutOfRange(0))
    ensures var p := Parse(Registry, Tokenize(expr, Symbols));
            r.Ok? ==> p.Ok? && Evaluable(p.value)
  {
    var tree :- Parse(Registry, Tokenize(expr, Symbols));
    Eval(tree, hidden)
  }
}

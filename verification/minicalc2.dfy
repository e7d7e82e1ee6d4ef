/** The `minicalc2` variant: the working calculator's operators, nodes and
    tokenizer, with a parser that sends every operator in the operand loop
    through `handle_operator`. Its binary handler returns without consuming
    when the operator's precedence is below the minimum, and the loop has no
    other exit at an operator, so the parser can spin forever. Each parser
    function takes a `fuel` bound: a parse that would not terminate runs out
    of it on every bound. */
module MiniCalc2 {
  import opened Results
  import opened Lexer
  import opened Tree
  import Work = MiniCalcWork

  /** `parse_expr(min_prec)`: a prefix term, then the operand loop. Fuel is
      spent by each `parse_expr` call, each turn of the loop and each
      operator handled. */
  function ParseExpr(ts: seq<Token>, pos: nat, minPrec: int, fuel: nat): (r: Result<Parsed<Work.Op>>)
    requires pos <= |ts|
    ensures r.Ok? ==> pos < r.value.pos <= |ts| && !Work.IsOperator(ts, r.value.pos)
    decreases fuel, |ts| - pos, 2
  {
    if fuel == 0 then Err(OutOfFuel)
    else
      var first :- ParsePrefix(ts, pos, fuel - 1);
      ExprLoop(ts, first.node, first.pos, minPrec, fuel - 1)
  }

  /** The `while True` loop of `parse_expr`: its only exit is a token that
      is not an operator. */
  function ExprLoop(ts: seq<Token>, left: Node<Work.Op>, pos: nat, minPrec: int, fuel: nat): (r: Result<Parsed<Work.Op>>)
    requires pos <= |ts|
    ensures r.Ok? ==> pos <= r.value.pos <= |ts| && !Work.IsOperator(ts, r.value.pos)
    decreases fuel, |ts| - pos, 4
  {
    if fuel == 0 then Err(OutOfFuel)
    else if !Work.IsOperator(ts, pos) then Ok(Parsed(left, pos))
    else
      var next :- HandleOperator(ts, Work.OpAt(ts, pos), left, pos, minPrec, fuel - 1);
      ExprLoop(ts, next.node, next.pos, minPrec, fuel - 1)
  }

  /** `handle_operator` with `handle_unary` and `handle_binary` inlined: the
      unary handler is for operators both unary and allowed in prefix
      position; the binary handler hands `left` back untouched, without
      consuming, below the minimum precedence. */
  function HandleOperator(ts: seq<Token>, op: Work.Op, left: Node<Work.Op>, pos: nat, minPrec: int, fuel: nat)
    : (r: Result<Parsed<Work.Op>>)
    requires pos < |ts|
    ensures r.Ok? ==> pos <= r.value.pos <= |ts|
    ensures Work.Desc(op).precedence < minPrec && !(Work.Desc(op).isUnary && Work.Desc(op).allowUnary)
            ==> r == Ok(Parsed(left, pos))
    decreases fuel, |ts| - pos, 3
  {
    var d := Work.Desc(op);
    if d.isUnary && d.allowUnary then
      Ok(Parsed(Unary(op, left), pos + 1))
    else if d.precedence < minPrec then
      Ok(Parsed(left, pos))
    else
      var right :- ParseExpr(ts, pos + 1, Work.NextMin(op), fuel);
      Ok(Parsed(Binary(op, left, right.node), right.pos))
  }

  /** `parse_prefix`: as in the working calculator. */
  function ParsePrefix(ts: seq<Token>, pos: nat, fuel: nat): (r: Result<Parsed<Work.Op>>)
    requires pos <= |ts|
    ensures r.Ok? ==> pos < r.value.pos <= |ts|
    decreases fuel, |ts| - pos, 1
  {
    if Work.IsOperator(ts, pos) && Work.Desc(Work.OpAt(ts, pos)).allowUnary then
      var operand :- ParsePrefix(ts, pos + 1, fuel);
      Ok(Parsed(Unary(Work.OpAt(ts, pos), operand.node), operand.pos))
    else
      ParsePrimary(ts, pos, fuel)
  }

  /** `parse_primary`: as in the working calculator. */
  function ParsePrimary(ts: seq<Token>, pos: nat, fuel: nat): (r: Result<Parsed<Work.Op>>)
    requires pos <= |ts|
    ensures r.Ok? ==> pos < r.value.pos <= |ts|
    ensures pos == |ts| ==> r == Err(UnexpectedEnd)
    ensures pos < |ts| && !ts[pos].Numeral? && ts[pos] != LParen ==> r == Err(UnexpectedToken(pos))
    ensures pos < |ts| && ts[pos] == LParen && ParseExpr(ts, pos + 1, 0, fuel).Ok? ==>
              var q := ParseExpr(ts, pos + 1, 0, fuel).value.pos;
              if q < |ts| && ts[q] == RParen then r == Ok(Parsed(ParseExpr(ts, pos + 1, 0, fuel).value.node, q + 1))
              else r == Err(Expected(')', q))
    decreases fuel, |ts| - pos, 0
  {
    if pos == |ts| then
      Err(UnexpectedEnd)
    else
      match ts[pos]
      case Numeral(text) => Ok(Parsed(Leaf(text), pos + 1))
      case LParen =>
        var inner :- ParseExpr(ts, pos + 1, 0, fuel);
        if inner.pos < |ts| && ts[inner.pos] == RParen then
          Ok(Parsed(inner.node, inner.pos + 1))
        else
          Err(Expected(')', inner.pos))
      case _ => Err(UnexpectedToken(pos))
  }

  /** `parse`: one expression that must use up every token, the first token
      it leaves being reported. */
  function Parse(ts: seq<Token>, fuel: nat): (r: Result<Node<Work.Op>>)
    ensures r.Ok? ==> exists p :: ParseExpr(ts, 0, 0, fuel) == Ok(p) && p.node == r.value && p.pos == |ts|
    ensures r.Ok? <==> ParseExpr(ts, 0, 0, fuel).Ok? && ParseExpr(ts, 0, 0, fuel).value.pos == |ts|
    ensures ParseExpr(ts, 0, 0, fuel).Ok? && ParseExpr(ts, 0, 0, fuel).value.pos < |ts| ==>
              r == Err(TrailingToken(ParseExpr(ts, 0, 0, fuel).value.pos))
  {
    var p :- ParseExpr(ts, 0, 0, fuel);
    if p.pos != |ts| then Err(TrailingToken(p.pos)) else Ok(p.node)
  }

  /** `Calculator.evaluate`, with the working calculator's tokenizer and
      node evaluation. A line whose parse succeeds without meeting `!` has
      the working calculator's result. */
  function Evaluate(expression: string, fuel: nat): (r: Result<real>)
    ensures var ts := Tokenize(expression, Work.Symbols);
            Parse(ts, fuel).Ok? && !Mentions(Parse(ts, fuel).value, Work.Factorial) ==> r == Work.Evaluate(expression)
  {
    var ts := Tokenize(expression, Work.Symbols);
    var tree :- Parse(ts, fuel);
    if Mentions(tree, Work.Factorial) then Work.Eval(tree)
    else ParseAgrees(ts, fuel); Work.Eval(tree)
  }

  // ------------------------------------------------------------ properties

  /** No operator in the table is both unary and allowed in prefix position,
      so the unary handler is never used and `!` goes to the binary one. */
  lemma NoUnaryHandler(op: Work.Op)
    ensures !(Work.Desc(op).isUnary && Work.Desc(op).allowUnary)
  {
  }

  /** Non-progress: once the loop meets an operator whose precedence is
      below its minimum, the binary handler returns without consuming and
      the loop runs out of every fuel bound at the same position. */
  lemma {:induction false} Spins(ts: seq<Token>, left: Node<Work.Op>, pos: nat, minPrec: int, fuel: nat)
    requires Work.IsOperator(ts, pos) && Work.Desc(Work.OpAt(ts, pos)).precedence < minPrec
    ensures ExprLoop(ts, left, pos, minPrec, fuel) == Err(OutOfFuel)
  {
    NoUnaryHandler(Work.OpAt(ts, pos));
    if fuel > 0 {
      Spins(ts, left, pos, minPrec, fuel - 1);
    }
  }

  /** Whether a tree uses an operator anywhere. */
  predicate Mentions(n: Node<Work.Op>, op: Work.Op) {
    match n
    case Number(_) => false
    case Unary(o, x) => o == op || Mentions(x, op)
    case Binary(o, l, r) => o == op || Mentions(l, op) || Mentions(r, op)
  }

  /** Agreement with the working parser: whatever this parser builds
      without meeting `!` is what the working parser builds from the same
      tokens. The two differ only where this one spins or treats `!` as a
      binary operator. */
  lemma {:induction false} ExprAgrees(ts: seq<Token>, pos: nat, minPrec: int, fuel: nat)
    requires pos <= |ts|
    requires ParseExpr(ts, pos, minPrec, fuel).Ok?
    requires !Mentions(ParseExpr(ts, pos, minPrec, fuel).value.node, Work.Factorial)
    ensures Work.ParseExpr(ts, pos, minPrec) == ParseExpr(ts, pos, minPrec, fuel)
    decreases fuel, |ts| - pos, 2
  {
    var first := ParsePrefix(ts, pos, fuel - 1).value;
    LoopKeepsLeft(ts, first.node, first.pos, minPrec, fuel - 1);
    PrefixAgrees(ts, pos, fuel - 1);
    LoopAgrees(ts, first.node, first.pos, minPrec, fuel - 1);
  }

  lemma {:induction false} LoopAgrees(ts: seq<Token>, left: Node<Work.Op>, pos: nat, minPrec: int, fuel: nat)
    requires 0 < pos <= |ts| && Work.EndsOperand(ts[pos - 1])
    requires ExprLoop(ts, left, pos, minPrec, fuel).Ok?
    requires !Mentions(ExprLoop(ts, left, pos, minPrec, fuel).value.node, Work.Factorial)
    ensures Work.ExprLoop(ts, left, pos, minPrec) == ExprLoop(ts, left, pos, minPrec, fuel)
    decreases fuel, |ts| - pos, 4
  {
    if Work.IsOperator(ts, pos) {
      var op := Work.OpAt(ts, pos);
      NoUnaryHandler(op);
      if Work.Desc(op).precedence < minPrec {
        Spins(ts, left, pos, minPrec, fuel);
      } else {
        var next := HandleOperator(ts, op, left, pos, minPrec, fuel - 1).value;
        LoopKeepsLeft(ts, next.node, next.pos, minPrec, fuel - 1);
        var right := ParseExpr(ts, pos + 1, Work.NextMin(op), fuel - 1).value;
        assert next.node == Binary(op, left, right.node);
        ExprAgrees(ts, pos + 1, Work.NextMin(op), fuel - 1);
        LoopAgrees(ts, next.node, next.pos, minPrec, fuel - 1);
      }
    }
  }

  lemma {:induction false} PrefixAgrees(ts: seq<Token>, pos: nat, fuel: nat)
    requires pos <= |ts|
    requires ParsePrefix(ts, pos, fuel).Ok?
    requires !Mentions(ParsePrefix(ts, pos, fuel).value.node, Work.Factorial)
    ensures Work.ParsePrefix(ts, pos) == ParsePrefix(ts, pos, fuel)
    decreases fuel, |ts| - pos, 1
  {
    if Work.IsOperator(ts, pos) && Work.Desc(Work.OpAt(ts, pos)).allowUnary {
      PrefixAgrees(ts, pos + 1, fuel);
    } else {
      PrimaryAgrees(ts, pos, fuel);
    }
  }

  lemma {:induction false} PrimaryAgrees(ts: seq<Token>, pos: nat, fuel: nat)
    requires pos <= |ts|
    requires ParsePrimary(ts, pos, fuel).Ok?
    requires !Mentions(ParsePrimary(ts, pos, fuel).value.node, Work.Factorial)
    ensures Work.ParsePrimary(ts, pos) == ParsePrimary(ts, pos, fuel)
    decreases fuel, |ts| - pos, 0
  {
    if ts[pos] == LParen {
      ExprAgrees(ts, pos + 1, 0, fuel);
    }
  }

  /** The operand loop only grows its left operand: a tree it returns
      contains the one it started from, so a `!` in the left operand stays
      in the result. */
  lemma {:induction false} LoopKeepsLeft(ts: seq<Token>, left: Node<Work.Op>, pos: nat, minPrec: int, fuel: nat)
    requires pos <= |ts|
    requires ExprLoop(ts, left, pos, minPrec, fuel).Ok?
    ensures Mentions(left, Work.Factorial) ==> Mentions(ExprLoop(ts, left, pos, minPrec, fuel).value.node, Work.Factorial)
    decreases fuel
  {
    if Work.IsOperator(ts, pos) {
      var next := HandleOperator(ts, Work.OpAt(ts, pos), left, pos, minPrec, fuel - 1).value;
      LoopKeepsLeft(ts, next.node, next.pos, minPrec, fuel - 1);
    }
  }

  /** So a parse that succeeds without `!` is the working calculator's parse,
      and the two calculators then compute the same result. */
  lemma ParseAgrees(ts: seq<Token>, fuel: nat)
    requires Parse(ts, fuel).Ok? && !Mentions(Parse(ts, fuel).value, Work.Factorial)
    ensures Work.Parse(ts) == Parse(ts, fuel)
  {
    ExprAgrees(ts, 0, 0, fuel);
  }

  /** Fuel only cuts a parse short: a parse that does not run out of fuel
      gives the same outcome, tree or error, with any larger bound. */
  lemma {:induction false} ExprMonotone(ts: seq<Token>, pos: nat, minPrec: int, fuel: nat, more: nat)
    requires pos <= |ts| && fuel <= more && ParseExpr(ts, pos, minPrec, fuel) != Err(OutOfFuel)
    ensures ParseExpr(ts, pos, minPrec, more) == ParseExpr(ts, pos, minPrec, fuel)
    decreases fuel, |ts| - pos, 2
  {
    var first := ParsePrefix(ts, pos, fuel - 1);
    PrefixMonotone(ts, pos, fuel - 1, more - 1);
    if first.Ok? {
      LoopMonotone(ts, first.value.node, first.value.pos, minPrec, fuel - 1, more - 1);
    }
  }

  lemma {:induction false} LoopMonotone(ts: seq<Token>, left: Node<Work.Op>, pos: nat, minPrec: int, fuel: nat, more: nat)
    requires pos <= |ts| && fuel <= more && ExprLoop(ts, left, pos, minPrec, fuel) != Err(OutOfFuel)
    ensures ExprLoop(ts, left, pos, minPrec, more) == ExprLoop(ts, left, pos, minPrec, fuel)
    decreases fuel, |ts| - pos, 4
  {
    if Work.IsOperator(ts, pos) {
      var next := HandleOperator(ts, Work.OpAt(ts, pos), left, pos, minPrec, fuel - 1);
      HandleMonotone(ts, Work.OpAt(ts, pos), left, pos, minPrec, fuel - 1, more - 1);
      if next.Ok? {
        LoopMonotone(ts, next.value.node, next.value.pos, minPrec, fuel - 1, more - 1);
      }
    }
  }

  lemma {:induction false} HandleMonotone(ts: seq<Token>, op: Work.Op, left: Node<Work.Op>, pos: nat, minPrec: int, fuel: nat, more: nat)
    requires pos < |ts| && fuel <= more && HandleOperator(ts, op, left, pos, minPrec, fuel) != Err(OutOfFuel)
    ensures HandleOperator(ts, op, left, pos, minPrec, more) == HandleOperator(ts, op, left, pos, minPrec, fuel)
    decreases fuel, |ts| - pos, 3
  {
    var d := Work.Desc(op);
    if !(d.isUnary && d.allowUnary) && d.precedence >= minPrec {
      ExprMonotone(ts, pos + 1, Work.NextMin(op), fuel, more);
    }
  }

  lemma {:induction false} PrefixMonotone(ts: seq<Token>, pos: nat, fuel: nat, more: nat)
    requires pos <= |ts| && fuel <= more && ParsePrefix(ts, pos, fuel) != Err(OutOfFuel)
    ensures ParsePrefix(ts, pos, more) == ParsePrefix(ts, pos, fuel)
    decreases fuel, |ts| - pos, 1
  {
    if Work.IsOperator(ts, pos) && Work.Desc(Work.OpAt(ts, pos)).allowUnary {
      PrefixMonotone(ts, pos + 1, fuel, more);
    } else {
      PrimaryMonotone(ts, pos, fuel, more);
    }
  }

  lemma {:induction false} PrimaryMonotone(ts: seq<Token>, pos: nat, fuel: nat, more: nat)
    requires pos <= |ts| && fuel <= more && ParsePrimary(ts, pos, fuel) != Err(OutOfFuel)
    ensures ParsePrimary(ts, pos, more) == ParsePrimary(ts, pos, fuel)
    decreases fuel, |ts| - pos, 0
  {
    if pos < |ts| && ts[pos] == LParen {
      ExprMonotone(ts, pos + 1, 0, fuel, more);
    }
  }

  /** So a whole parse that does not run out of fuel is the same with every
      larger bound. */
  lemma ParseMonotone(ts: seq<Token>, fuel: nat, more: nat)
    requires fuel <= more && Parse(ts, fuel) != Err(OutOfFuel)
    ensures Parse(ts, more) == Parse(ts, fuel)
  {
    ExprMonotone(ts, 0, 0, fuel, more);
  }
}

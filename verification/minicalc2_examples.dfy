/** What the `minicalc2` parser does with two infix operators in a row, with
    a postfix `!`, and with whole input lines. */
module MiniCalc2Examples {
  import opened Results
  import opened Lexer
  import opened Tree
  import opened Arith
  import opened MiniCalc2
  import Work = MiniCalcWork
  import WorkProps = MiniCalcWorkProps
  import WorkExamples = MiniCalcWorkExamples
  import Numerals

  /** A number token is a complete prefix term, whatever the fuel. */
  lemma PrefixNumber(ts: seq<Token>, pos: nat, fuel: nat)
    requires pos < |ts| && ts[pos].Numeral?
    ensures ParsePrefix(ts, pos, fuel) == Ok(Parsed(Leaf(ts[pos].text), pos + 1))
  {
  }

  /** An expression is its prefix term followed by the operand loop. */
  lemma ExprStart(ts: seq<Token>, pos: nat, minPrec: int, fuel: nat, first: Parsed<Work.Op>)
    requires pos <= |ts| && fuel > 0 && ParsePrefix(ts, pos, fuel - 1) == Ok(first)
    ensures first.pos <= |ts|
    ensures ParseExpr(ts, pos, minPrec, fuel) == ExprLoop(ts, first.node, first.pos, minPrec, fuel - 1)
  {
  }

  /** The operand loop keeps what it has at a token that is not an operator. */
  lemma LoopStops(ts: seq<Token>, left: Node<Work.Op>, pos: nat, minPrec: int, fuel: nat)
    requires pos <= |ts| && fuel > 0 && !Work.IsOperator(ts, pos)
    ensures ExprLoop(ts, left, pos, minPrec, fuel) == Ok(Parsed(left, pos))
  {
  }

  /** One turn of the operand loop at an infix operator of at least the
      minimum precedence: the right operand is parsed at `NextMin` and the
      outcome of the loop is the outcome of the next turn, or the right
      operand's error. */
  lemma LoopInfix(ts: seq<Token>, left: Node<Work.Op>, pos: nat, minPrec: int, fuel: nat)
    requires pos < |ts| && fuel >= 1 && Work.IsOperator(ts, pos)
    requires Work.Desc(Work.OpAt(ts, pos)).precedence >= minPrec
    ensures var right := ParseExpr(ts, pos + 1, Work.NextMin(Work.OpAt(ts, pos)), fuel - 1);
            && (right.Err? ==> ExprLoop(ts, left, pos, minPrec, fuel) == Err(right.error))
            && (right.Ok? ==> ExprLoop(ts, left, pos, minPrec, fuel)
                              == ExprLoop(ts, Binary(Work.OpAt(ts, pos), left, right.value.node), right.value.pos, minPrec, fuel - 1))
  {
    NoUnaryHandler(Work.OpAt(ts, pos));
  }

  /** A number followed by a token that is not an operator is a whole
      expression, given two units of fuel. */
  lemma NumberExpr(ts: seq<Token>, pos: nat, minPrec: int, fuel: nat)
    requires pos < |ts| && ts[pos].Numeral? && !Work.IsOperator(ts, pos + 1) && fuel >= 2
    ensures ParseExpr(ts, pos, minPrec, fuel) == Ok(Parsed(Leaf(ts[pos].text), pos + 1))
  {
    PrefixNumber(ts, pos, fuel - 1);
    LoopStops(ts, Leaf(ts[pos].text), pos + 1, minPrec, fuel - 1);
  }

  /** `a o1 b o2 c` with `o2` binding tighter than `o1` allows, or equally
      tight and grouping to the right: the working parser's tree, given six
      units of fuel. */
  lemma GroupsRight(ts: seq<Token>, fuel: nat)
    requires WorkProps.TwoInfix(ts) && fuel >= 6
    requires Work.Desc(Work.OpAt(ts, 3)).precedence >= Work.NextMin(Work.OpAt(ts, 1))
    ensures Parse(ts, fuel) == Work.Parse(ts)
  {
    var o1, o2 := Work.OpAt(ts, 1), Work.OpAt(ts, 3);
    var A, B, C := Leaf(ts[0].text), Leaf(ts[2].text), Leaf(ts[4].text);
    var n1 := Work.NextMin(o1);
    NumberExpr(ts, 4, Work.NextMin(o2), fuel - 4);
    PrefixNumber(ts, 2, fuel - 3);
    ExprStart(ts, 2, n1, fuel - 2, Parsed(B, 3));
    LoopInfix(ts, B, 3, n1, fuel - 3);
    LoopStops(ts, Binary(o2, B, C), 5, n1, fuel - 4);
    PrefixNumber(ts, 0, fuel - 1);
    ExprStart(ts, 0, 0, fuel, Parsed(A, 1));
    LoopInfix(ts, A, 1, 0, fuel - 1);
    LoopStops(ts, Binary(o1, A, Binary(o2, B, C)), 5, 0, fuel - 2);
    WorkProps.GroupsRight(ts);
  }

  /** `a o1 b o2 c` where the working parser groups to the left: the inner
      `parse_expr` meets `o2` below its minimum precedence and never returns,
      so every fuel bound runs out. `1+2+3` and `2*3+4` are such inputs. */
  lemma GroupsLeftSpins(ts: seq<Token>, fuel: nat)
    requires WorkProps.TwoInfix(ts)
    requires Work.Desc(Work.OpAt(ts, 3)).precedence < Work.NextMin(Work.OpAt(ts, 1))
    ensures Parse(ts, fuel) == Err(OutOfFuel)
  {
    var A, B := Leaf(ts[0].text), Leaf(ts[2].text);
    var n1 := Work.NextMin(Work.OpAt(ts, 1));
    if fuel >= 3 {
      PrefixNumber(ts, 2, fuel - 3);
      ExprStart(ts, 2, n1, fuel - 2, Parsed(B, 3));
      Spins(ts, B, 3, n1, fuel - 3);
    }
    if fuel >= 2 {
      assert ParseExpr(ts, 2, n1, fuel - 2) == Err(OutOfFuel);
      LoopInfix(ts, A, 1, 0, fuel - 1);
    }
    if fuel >= 1 {
      PrefixNumber(ts, 0, fuel - 1);
      ExprStart(ts, 0, 0, fuel, Parsed(A, 1));
    }
  }

  /** Two infix operators in a row: this parser builds the working parser's
      tree exactly when that tree groups to the right, and otherwise never
      finishes. */
  lemma InfixGrouping(ts: seq<Token>, a: string, b: string, c: string, o1: Work.Op, o2: Work.Op, fuel: nat)
    requires WorkProps.IsInfix(o1) && WorkProps.IsInfix(o2)
    requires ts == [Numeral(a), WorkProps.Sym(o1), Numeral(b), WorkProps.Sym(o2), Numeral(c)]
    requires fuel >= 6
    ensures Work.Desc(o2).precedence >= Work.NextMin(o1)
            ==> Parse(ts, fuel) == Ok(Binary(o1, Leaf(a), Binary(o2, Leaf(b), Leaf(c))))
    ensures Work.Desc(o2).precedence < Work.NextMin(o1) ==> Parse(ts, fuel) == Err(OutOfFuel)
  {
    WorkProps.TwoInfixShape(ts, a, b, c, o1, o2);
    if Work.Desc(o2).precedence >= Work.NextMin(o1) {
      GroupsRight(ts, fuel);
      WorkProps.GroupsRight(ts);
    } else {
      GroupsLeftSpins(ts, fuel);
    }
  }

  /** `!` goes to the binary handler, which wants a right operand: `a!`
      runs out of input. */
  lemma FactorialWantsOperand(ts: seq<Token>, a: string, fuel: nat)
    requires ts == [Numeral(a), WorkProps.Sym(Work.Factorial)]
    requires fuel >= 3
    ensures Parse(ts, fuel) == Err(UnexpectedEnd)
  {
    assert Work.OpAt(ts, 1) == Work.Factorial;
    PrefixNumber(ts, 0, fuel - 1);
    ExprStart(ts, 0, 0, fuel, Parsed(Leaf(a), 1));
    assert ParseExpr(ts, 2, Work.NextMin(Work.Factorial), fuel - 2) == Err(UnexpectedEnd);
    LoopInfix(ts, Leaf(a), 1, 0, fuel - 1);
  }

  /** `a!b` parses as a binary `!`, whose evaluation passes two operands to
      the one-operand factorial and fails. */
  lemma FactorialAsBinary(ts: seq<Token>, a: string, b: string, fuel: nat)
    requires ts == [Numeral(a), WorkProps.Sym(Work.Factorial), Numeral(b)]
    requires fuel >= 5
    ensures Parse(ts, fuel) == Ok(Binary(Work.Factorial, Leaf(a), Leaf(b)))
    ensures Work.Eval(Parse(ts, fuel).value) == Err(WrongOperandCount)
  {
    var A, B := Leaf(a), Leaf(b);
    var F := Work.Factorial;
    assert Work.OpAt(ts, 1) == F;
    NumberExpr(ts, 2, Work.NextMin(F), fuel - 2);
    PrefixNumber(ts, 0, fuel - 1);
    ExprStart(ts, 0, 0, fuel, Parsed(A, 1));
    LoopInfix(ts, A, 1, 0, fuel - 1);
    LoopStops(ts, Binary(F, A, B), 3, 0, fuel - 2);
  }

  lemma SumTokens(s: string)
    requires s == "1+2+3"
    ensures Tokenize(s, Work.Symbols) == [Numeral("1"), Symbol('+'), Numeral("2"), Symbol('+'), Numeral("3")]
  {
    var ts := [Numeral("1"), Symbol('+'), Numeral("2"), Symbol('+'), Numeral("3")];
    Numerals.DigitText(1); Numerals.DigitText(2); Numerals.DigitText(3);
    assert Lexable(Work.Symbols, ts);
    WorkExamples.Lexes(s, ts);
  }

  /** `1+2+3` never evaluates: every fuel bound runs out. */
  lemma SumSpins(s: string, fuel: nat)
    requires s == "1+2+3"
    ensures Evaluate(s, fuel) == Err(OutOfFuel)
  {
    SumTokens(s);
    WorkProps.TwoInfixShape(Tokenize(s, Work.Symbols), "1", "2", "3", Work.Plus, Work.Plus);
    GroupsLeftSpins(Tokenize(s, Work.Symbols), fuel);
  }

  /** `2^3^2` still groups to the right and evaluates to 512. */
  lemma PowerTower(s: string, fuel: nat)
    requires s == "2^3^2" && fuel >= 6
    ensures Evaluate(s, fuel) == Ok(512.0)
  {
    var ts := Tokenize(s, Work.Symbols);
    WorkExamples.RightAssocTokens(s);
    Numerals.DigitText(2); Numerals.DigitText(3);
    InfixGrouping(ts, "2", "3", "2", Work.Power, Work.Power, fuel);
    WorkExamples.RightAssocValue();
  }
}

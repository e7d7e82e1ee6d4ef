/** What the `minicalc3` parser does: binary operators accepted only at the
    top level, a `!` that replaces the operand before it, signs that call a
    two-argument function with one argument, and a parser that never
    finishes once a second binary operator follows. */
module MiniCalc3Props {
  import opened Results
  import opened Lexer
  import opened Tree
  import opened Arith
  import opened MiniCalc3
  import Work = MiniCalcWork

  /** A number token is a complete term, whatever the fuel. */
  lemma TermNumber(ts: seq<Token>, pos: nat, fuel: nat)
    requires pos < |ts| && ts[pos].Numeral?
    ensures ParseTerm(ts, pos, fuel) == Ok(Parsed(Leaf(ts[pos].text), pos + 1))
  {
  }

  /** An expression is its term followed by the operand loop. */
  lemma ExprStart(ts: seq<Token>, pos: nat, minPrec: int, fuel: nat, first: Parsed<Fn>)
    requires pos <= |ts| && fuel > 0 && ParseTerm(ts, pos, fuel - 1) == Ok(first)
    ensures first.pos <= |ts|
    ensures ParseExpr(ts, pos, minPrec, fuel) == ExprLoop(ts, first.node, first.pos, minPrec, fuel - 1)
  {
  }

  /** One turn of the operand loop at a binary operator where the minimum
      precedence is at most 1: the right operand is parsed at minimum 2 and
      the loop goes on with the combined tree, or stops at the right
      operand's error. */
  lemma LoopBinary(ts: seq<Token>, left: Node<Fn>, pos: nat, minPrec: int, fuel: nat)
    requires pos < |ts| && fuel >= 1 && IsFunction(ts, pos) && FnAt(ts, pos) != Factorial
    requires minPrec <= BinaryPrecedence
    ensures var right := ParseExpr(ts, pos + 1, BinaryPrecedence + 1, fuel - 1);
            && (right.Err? ==> ExprLoop(ts, left, pos, minPrec, fuel) == Err(right.error))
            && (right.Ok? ==> ExprLoop(ts, left, pos, minPrec, fuel)
                              == ExprLoop(ts, Binary(FnAt(ts, pos), left, right.value.node), right.value.pos, minPrec, fuel - 1))
  {
  }

  /** One turn of the operand loop at `!`: the loop goes on with the
      factorial of the term after the `!`, at any minimum precedence. */
  lemma LoopFactorial(ts: seq<Token>, left: Node<Fn>, pos: nat, minPrec: int, fuel: nat)
    requires pos < |ts| && fuel >= 1 && ts[pos] == Symbol('!')
    ensures var operand := ParseTerm(ts, pos + 1, fuel - 1);
            && (operand.Err? ==> ExprLoop(ts, left, pos, minPrec, fuel) == Err(operand.error))
            && (operand.Ok? ==> ExprLoop(ts, left, pos, minPrec, fuel)
                                == ExprLoop(ts, Unary(Factorial, operand.value.node), operand.value.pos, minPrec, fuel - 1))
  {
    assert FnAt(ts, pos) == Factorial;
  }

  /** At a `!` the operand loop forgets what it has built: its outcome is
      the same whatever the operand before the `!` was. */
  lemma DropsLeft(ts: seq<Token>, l1: Node<Fn>, l2: Node<Fn>, pos: nat, minPrec: int, fuel: nat)
    requires pos < |ts| && ts[pos] == Symbol('!')
    ensures ExprLoop(ts, l1, pos, minPrec, fuel) == ExprLoop(ts, l2, pos, minPrec, fuel)
  {
    if fuel >= 1 {
      LoopFactorial(ts, l1, pos, minPrec, fuel);
      LoopFactorial(ts, l2, pos, minPrec, fuel);
    }
  }

  /** Non-progress: a binary operator met where the minimum precedence is
      above 1 is handed back unconsumed, and the loop runs out of every
      fuel bound at the same position. */
  lemma {:induction false} Spins(ts: seq<Token>, left: Node<Fn>, pos: nat, minPrec: int, fuel: nat)
    requires IsFunction(ts, pos) && FnAt(ts, pos) != Factorial && minPrec > BinaryPrecedence
    ensures ExprLoop(ts, left, pos, minPrec, fuel) == Err(OutOfFuel)
  {
    if fuel > 0 {
      Spins(ts, left, pos, minPrec, fuel - 1);
    }
  }

  /** A number followed by a binary operator is the start of no right
      operand: parsing it at minimum precedence 2 never finishes. */
  lemma RightOperandSpins(ts: seq<Token>, pos: nat, fuel: nat)
    requires pos + 1 < |ts| && ts[pos].Numeral? && IsFunction(ts, pos + 1) && FnAt(ts, pos + 1) != Factorial
    ensures ParseExpr(ts, pos, BinaryPrecedence + 1, fuel) == Err(OutOfFuel)
  {
    if fuel >= 1 {
      var B := Leaf(ts[pos].text);
      TermNumber(ts, pos, fuel - 1);
      ExprStart(ts, pos, BinaryPrecedence + 1, fuel, Parsed(B, pos + 1));
      Spins(ts, B, pos + 1, BinaryPrecedence + 1, fuel - 1);
    }
  }

  /** `a o b`: three tokens, a binary operator between two numbers. */
  predicate OneBinary(ts: seq<Token>) {
    |ts| == 3 && ts[0].Numeral? && ts[2].Numeral? && IsFunction(ts, 1) && FnAt(ts, 1) != Factorial
  }

  /** `a o1 b o2 c`: five tokens, binary operators between numbers. */
  predicate TwoBinary(ts: seq<Token>) {
    && |ts| == 5 && ts[0].Numeral? && ts[2].Numeral? && ts[4].Numeral?
    && IsFunction(ts, 1) && FnAt(ts, 1) != Factorial
    && IsFunction(ts, 3) && FnAt(ts, 3) != Factorial
  }

  /** One binary operator is parsed as such, given four units of fuel. */
  lemma SingleBinary(ts: seq<Token>, fuel: nat)
    requires OneBinary(ts) && fuel >= 4
    ensures Parse(ts, fuel) == Ok(Binary(FnAt(ts, 1), Leaf(ts[0].text), Leaf(ts[2].text)))
  {
    var A, B := Leaf(ts[0].text), Leaf(ts[2].text);
    TermNumber(ts, 2, fuel - 3);
    ExprStart(ts, 2, BinaryPrecedence + 1, fuel - 2, Parsed(B, 3));
    TermNumber(ts, 0, fuel - 1);
    ExprStart(ts, 0, 0, fuel, Parsed(A, 1));
    LoopBinary(ts, A, 1, 0, fuel - 1);
  }

  /** Two binary operators, whichever they are, never parse: the right
      operand of the first one spins at the second. So `1+2*3` and `1*2+3`
      alike never evaluate. */
  lemma TwoBinarySpins(ts: seq<Token>, fuel: nat)
    requires TwoBinary(ts)
    ensures Parse(ts, fuel) == Err(OutOfFuel)
  {
    var A := Leaf(ts[0].text);
    if fuel >= 2 {
      RightOperandSpins(ts, 2, fuel - 2);
      LoopBinary(ts, A, 1, 0, fuel - 1);
    }
    if fuel >= 1 {
      TermNumber(ts, 0, fuel - 1);
      ExprStart(ts, 0, 0, fuel, Parsed(A, 1));
    }
  }

  /** `a!b` is the factorial of `b`: the `a` is dropped. */
  lemma FactorialDropsOperand(ts: seq<Token>, fuel: nat)
    requires |ts| == 3 && ts[0].Numeral? && ts[1] == Symbol('!') && ts[2].Numeral? && fuel >= 3
    ensures Parse(ts, fuel) == Ok(Unary(Factorial, Leaf(ts[2].text)))
  {
    var A: Node<Fn> := Leaf(ts[0].text);
    TermNumber(ts, 0, fuel - 1);
    ExprStart(ts, 0, 0, fuel, Parsed(A, 1));
    TermNumber(ts, 2, fuel - 2);
    LoopFactorial(ts, A, 1, 0, fuel - 1);
  }

  /** A `!` at the end wants a term after it and finds no token. */
  lemma FactorialAtEnd(ts: seq<Token>, fuel: nat)
    requires |ts| == 2 && ts[0].Numeral? && ts[1] == Symbol('!') && fuel >= 2
    ensures Parse(ts, fuel) == Err(NoToken)
  {
    var A := Leaf(ts[0].text);
    TermNumber(ts, 0, fuel - 1);
    ExprStart(ts, 0, 0, fuel, Parsed(A, 1));
    LoopFactorial(ts, A, 1, 0, fuel - 1);
  }

  /** A leading `!` is the factorial of the number after it. */
  lemma FactorialFirst(ts: seq<Token>, fuel: nat)
    requires |ts| == 2 && ts[0] == Symbol('!') && ts[1].Numeral? && fuel >= 2
    ensures Parse(ts, fuel) == Ok(Unary(Factorial, Leaf(ts[1].text)))
  {
    var FA := Unary(Factorial, Leaf(ts[1].text));
    assert ParseTerm(ts, 0, fuel - 1) == Ok(Parsed(FA, 2));
    ExprStart(ts, 0, 0, fuel, Parsed(FA, 2));
  }

  /** A leading `-` or `+` builds a one-argument call of `subtract` or
      `add`, which needs two: the sign is a parse that cannot be evaluated. */
  lemma SignedNumber(ts: seq<Token>, fuel: nat)
    requires |ts| == 2 && ts[0] in {Symbol('-'), Symbol('+')} && ts[1].Numeral? && fuel >= 2
    ensures Parse(ts, fuel) == Ok(Unary(Functions[ts[0].sym], Leaf(ts[1].text)))
    ensures Eval(Parse(ts, fuel).value) == Err(WrongOperandCount)
  {
    var SA := Unary(Functions[ts[0].sym], Leaf(ts[1].text));
    assert ParseTerm(ts, 0, fuel - 1) == Ok(Parsed(SA, 2));
    ExprStart(ts, 0, 0, fuel, Parsed(SA, 2));
  }

  /** The factorial here and in the working calculator agree except on
      operands strictly between -1 and 0, which this one rejects as
      negative and the other truncates to 0 (giving 1). */
  lemma FactorialsDiffer(x: real)
    ensures Apply(Factorial, [x]) == Work.Apply(Work.Factorial, [x]) <==> !(-1.0 < x < 0.0)
    ensures -1.0 < x < 0.0
            ==> Apply(Factorial, [x]) == Err(NegativeFactorial) && Work.Apply(Work.Factorial, [x]) == Ok(1.0)
  {
  }
}

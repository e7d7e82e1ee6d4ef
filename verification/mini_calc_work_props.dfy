/** What the working calculator's parser and evaluator do with precedence,
    associativity, prefix and postfix operators, and malformed input. */
module MiniCalcWorkProps {
  import opened Results
  import opened Lexer
  import opened Tree
  import opened Arith
  import opened MiniCalcWork
  import Numerals

  function Sym(op: Op): Token {
    Symbol(Desc(op).symbol)
  }

  predicate IsInfix(op: Op) {
    op != Factorial
  }

  /** An operator's symbol is in the table and looks the operator up. */
  lemma SymOp(op: Op)
    ensures Sym(op).sym in Operators && Operators[Sym(op).sym] == op
  {
  }

  /** A number token is a complete prefix term. */
  lemma PrefixNumber(ts: seq<Token>, pos: nat)
    requires pos < |ts| && ts[pos].Numeral?
    ensures ParsePrefix(ts, pos) == Ok(Parsed(Leaf(ts[pos].text), pos + 1))
  {
  }

  /** An expression is its prefix term followed by the operand loop. */
  lemma ExprStart(ts: seq<Token>, pos: nat, minPrec: int, first: Parsed<Op>)
    requires pos <= |ts| && ParsePrefix(ts, pos) == Ok(first)
    ensures 0 < first.pos <= |ts| && EndsOperand(ts[first.pos - 1])
    ensures ParseExpr(ts, pos, minPrec) == ExprLoop(ts, first.node, first.pos, minPrec)
  {
  }

  /** One turn of the operand loop at an infix operator it accepts: the
      right operand is parsed at the operator's `NextMin` and folded in. */
  lemma LoopInfix(ts: seq<Token>, left: Node<Op>, pos: nat, minPrec: int, right: Parsed<Op>)
    requires 0 < pos <= |ts| && EndsOperand(ts[pos - 1])
    requires IsOperator(ts, pos) && IsInfix(OpAt(ts, pos)) && Desc(OpAt(ts, pos)).precedence >= minPrec
    requires ParseExpr(ts, pos + 1, NextMin(OpAt(ts, pos))) == Ok(right)
    ensures pos < right.pos <= |ts| && EndsOperand(ts[right.pos - 1])
    ensures ExprLoop(ts, left, pos, minPrec)
         == ExprLoop(ts, Binary(OpAt(ts, pos), left, right.node), right.pos, minPrec)
  {
  }

  /** One turn of the operand loop at a postfix `!` it accepts. */
  lemma LoopPostfix(ts: seq<Token>, left: Node<Op>, pos: nat, minPrec: int)
    requires 0 < pos <= |ts| && EndsOperand(ts[pos - 1])
    requires pos < |ts| && ts[pos] == Sym(Factorial) && minPrec <= 4
    ensures ExprLoop(ts, left, pos, minPrec) == ExprLoop(ts, Unary(Factorial, left), pos + 1, minPrec)
  {
    assert OpAt(ts, pos) == Factorial;
  }

  /** The operand loop keeps what it has where it exits. */
  lemma LoopStops(ts: seq<Token>, left: Node<Op>, pos: nat, minPrec: int)
    requires 0 < pos <= |ts| && EndsOperand(ts[pos - 1]) && LoopExits(ts, pos, minPrec)
    ensures ExprLoop(ts, left, pos, minPrec) == Ok(Parsed(left, pos))
  {
  }

  /** A number followed by a point where the loop exits is a whole expression. */
  lemma NumberExpr(ts: seq<Token>, pos: nat, minPrec: int)
    requires pos < |ts| && ts[pos].Numeral? && LoopExits(ts, pos + 1, minPrec)
    ensures ParseExpr(ts, pos, minPrec) == Ok(Parsed(Leaf(ts[pos].text), pos + 1))
  {
    PrefixNumber(ts, pos);
    ExprStart(ts, pos, minPrec, Parsed(Leaf(ts[pos].text), pos + 1));
    LoopStops(ts, Leaf(ts[pos].text), pos + 1, minPrec);
  }

  /** Tokens `a o1 b o2 c`: three numbers with an infix operator between
      each two. */
  predicate TwoInfix(ts: seq<Token>) {
    && |ts| == 5 && ts[0].Numeral? && ts[2].Numeral? && ts[4].Numeral?
    && IsOperator(ts, 1) && IsOperator(ts, 3)
    && IsInfix(OpAt(ts, 1)) && IsInfix(OpAt(ts, 3))
  }

  lemma TwoInfixShape(ts: seq<Token>, a: string, b: string, c: string, o1: Op, o2: Op)
    requires IsInfix(o1) && IsInfix(o2)
    requires ts == [Numeral(a), Sym(o1), Numeral(b), Sym(o2), Numeral(c)]
    ensures TwoInfix(ts) && OpAt(ts, 1) == o1 && OpAt(ts, 3) == o2
  {
  }

  /** Two infix operators in a row, `a o1 b o2 c`: the second one takes `b`
      as its left operand exactly when its precedence reaches the minimum the
      first one sets for its right operand, so higher precedence binds
      tighter, equal precedence groups to the left, and `^` to the right. */
  lemma InfixGrouping(ts: seq<Token>, a: string, b: string, c: string, o1: Op, o2: Op)
    requires IsInfix(o1) && IsInfix(o2)
    requires ts == [Numeral(a), Sym(o1), Numeral(b), Sym(o2), Numeral(c)]
    ensures Parse(ts)
         == if Desc(o2).precedence >= NextMin(o1)
            then Ok(Binary(o1, Leaf(a), Binary(o2, Leaf(b), Leaf(c))))
            else Ok(Binary(o2, Binary(o1, Leaf(a), Leaf(b)), Leaf(c)))
  {
    TwoInfixShape(ts, a, b, c, o1, o2);
    if Desc(o2).precedence >= NextMin(o1) {
      GroupsRight(ts);
    } else {
      GroupsLeft(ts);
    }
  }

  /** The right-grouping half of `InfixGrouping`. */
  lemma GroupsRight(ts: seq<Token>)
    requires TwoInfix(ts) && Desc(OpAt(ts, 3)).precedence >= NextMin(OpAt(ts, 1))
    ensures Parse(ts)
         == Ok(Binary(OpAt(ts, 1), Leaf(ts[0].text), Binary(OpAt(ts, 3), Leaf(ts[2].text), Leaf(ts[4].text))))
  {
    var o1, o2 := OpAt(ts, 1), OpAt(ts, 3);
    var A, B, C := Leaf(ts[0].text), Leaf(ts[2].text), Leaf(ts[4].text);
    NumberExpr(ts, 4, NextMin(o2));
    PrefixNumber(ts, 2);
    ExprStart(ts, 2, NextMin(o1), Parsed(B, 3));
    LoopInfix(ts, B, 3, NextMin(o1), Parsed(C, 5));
    LoopStops(ts, Binary(o2, B, C), 5, NextMin(o1));
    PrefixNumber(ts, 0);
    ExprStart(ts, 0, 0, Parsed(A, 1));
    LoopInfix(ts, A, 1, 0, Parsed(Binary(o2, B, C), 5));
    LoopStops(ts, Binary(o1, A, Binary(o2, B, C)), 5, 0);
  }

  /** The left-grouping half of `InfixGrouping`. */
  lemma GroupsLeft(ts: seq<Token>)
    requires TwoInfix(ts) && Desc(OpAt(ts, 3)).precedence < NextMin(OpAt(ts, 1))
    ensures Parse(ts)
         == Ok(Binary(OpAt(ts, 3), Binary(OpAt(ts, 1), Leaf(ts[0].text), Leaf(ts[2].text)), Leaf(ts[4].text)))
  {
    var o1, o2 := OpAt(ts, 1), OpAt(ts, 3);
    var A, B, C := Leaf(ts[0].text), Leaf(ts[2].text), Leaf(ts[4].text);
    NumberExpr(ts, 4, NextMin(o2));
    NumberExpr(ts, 2, NextMin(o1));
    PrefixNumber(ts, 0);
    ExprStart(ts, 0, 0, Parsed(A, 1));
    LoopInfix(ts, A, 1, 0, Parsed(B, 3));
    LoopInfix(ts, Binary(o1, A, B), 3, 0, Parsed(C, 5));
    LoopStops(ts, Binary(o2, Binary(o1, A, B), C), 5, 0);
  }

  /** Postfix `!` wraps the operand already built before any infix operator
      is seen: `a! o b` is `(a!) o b`. */
  lemma PostfixBeforeInfix(ts: seq<Token>, a: string, b: string, o: Op)
    requires IsInfix(o) && ts == [Numeral(a), Sym(Factorial), Sym(o), Numeral(b)]
    ensures Parse(ts) == Ok(Binary(o, Unary(Factorial, Leaf(a)), Leaf(b)))
  {
    SymOp(o);
    PostfixLeft(ts);
  }

  /** The positional core of `PostfixBeforeInfix`. */
  lemma PostfixLeft(ts: seq<Token>)
    requires |ts| == 4 && ts[0].Numeral? && ts[1] == Sym(Factorial) && ts[3].Numeral?
    requires IsOperator(ts, 2) && IsInfix(OpAt(ts, 2))
    ensures Parse(ts) == Ok(Binary(OpAt(ts, 2), Unary(Factorial, Leaf(ts[0].text)), Leaf(ts[3].text)))
  {
    var o, A, B := OpAt(ts, 2), Leaf(ts[0].text), Leaf(ts[3].text);
    NumberExpr(ts, 3, NextMin(o));
    PrefixNumber(ts, 0);
    ExprStart(ts, 0, 0, Parsed(A, 1));
    LoopPostfix(ts, A, 1, 0);
    LoopInfix(ts, Unary(Factorial, A), 2, 0, Parsed(B, 4));
    LoopStops(ts, Binary(o, Unary(Factorial, A), B), 4, 0);
  }

  /** On the right of an infix operator, postfix `!` still takes only the
      number before it: `a o b!` is `a o (b!)`. */
  lemma PostfixAfterInfix(ts: seq<Token>, a: string, b: string, o: Op)
    requires IsInfix(o) && ts == [Numeral(a), Sym(o), Numeral(b), Sym(Factorial)]
    ensures Parse(ts) == Ok(Binary(o, Leaf(a), Unary(Factorial, Leaf(b))))
  {
    SymOp(o);
    PostfixRight(ts);
  }

  /** The positional core of `PostfixAfterInfix`. */
  lemma PostfixRight(ts: seq<Token>)
    requires |ts| == 4 && ts[0].Numeral? && ts[2].Numeral? && ts[3] == Sym(Factorial)
    requires IsOperator(ts, 1) && IsInfix(OpAt(ts, 1))
    ensures Parse(ts) == Ok(Binary(OpAt(ts, 1), Leaf(ts[0].text), Unary(Factorial, Leaf(ts[2].text))))
  {
    var o, A, B := OpAt(ts, 1), Leaf(ts[0].text), Leaf(ts[2].text);
    PrefixNumber(ts, 2);
    ExprStart(ts, 2, NextMin(o), Parsed(B, 3));
    LoopPostfix(ts, B, 3, NextMin(o));
    LoopStops(ts, Unary(Factorial, B), 4, NextMin(o));
    PrefixNumber(ts, 0);
    ExprStart(ts, 0, 0, Parsed(A, 1));
    LoopInfix(ts, A, 1, 0, Parsed(Unary(Factorial, B), 4));
    LoopStops(ts, Binary(o, A, Unary(Factorial, B)), 4, 0);
  }

  /** Prefix `-` is applied to the prefix term after it before the infix
      loop runs, so it binds tighter than every infix operator, `^` included. */
  lemma PrefixBindsFirst(ts: seq<Token>, a: string, b: string, o: Op)
    requires IsInfix(o) && ts == [Sym(Minus), Numeral(a), Sym(o), Numeral(b)]
    ensures Parse(ts) == Ok(Binary(o, Unary(Minus, Leaf(a)), Leaf(b)))
  {
    var A, B := Leaf(a), Leaf(b);
    assert OpAt(ts, 0) == Minus && OpAt(ts, 2) == o;
    PrefixNumber(ts, 1);
    assert ParsePrefix(ts, 0) == Ok(Parsed(Unary(Minus, A), 2));
    ExprStart(ts, 0, 0, Parsed(Unary(Minus, A), 2));
    NumberExpr(ts, 3, NextMin(o));
    LoopInfix(ts, Unary(Minus, A), 2, 0, Parsed(B, 4));
    LoopStops(ts, Binary(o, Unary(Minus, A), B), 4, 0);
  }

  /** Prefixes stack: `--a` negates twice. */
  lemma PrefixesStack(ts: seq<Token>, a: string)
    requires ts == [Sym(Minus), Sym(Minus), Numeral(a)]
    ensures Parse(ts) == Ok(Unary(Minus, Unary(Minus, Leaf(a))))
  {
    var A := Leaf(a);
    assert OpAt(ts, 0) == Minus && OpAt(ts, 1) == Minus;
    PrefixNumber(ts, 2);
    assert ParsePrefix(ts, 1) == Ok(Parsed(Unary(Minus, A), 3));
    assert ParsePrefix(ts, 0) == Ok(Parsed(Unary(Minus, Unary(Minus, A)), 3));
    ExprStart(ts, 0, 0, Parsed(Unary(Minus, Unary(Minus, A)), 3));
    LoopStops(ts, Unary(Minus, Unary(Minus, A)), 3, 0);
  }

  /** Input that ends with a token no operand can end with (an operator
      other than `!`, or `(`) never parses; nor does input that starts with a
      token no operand can start with (an operator other than `-`, a leading
      `+`, `!` or `)` included). */
  lemma DanglingRejected(ts: seq<Token>, t: Token)
    ensures !EndsOperand(t) ==> Parse(ts + [t]).Err?
    ensures !StartsOperand(t) ==> Parse([t] + ts).Err?
  {
    assert (ts + [t])[|ts + [t]| - 1] == t;
    assert ([t] + ts)[0] == t;
  }

  /** One infix operator between two numbers. */
  lemma SingleInfix(ts: seq<Token>, a: string, b: string, o: Op)
    requires IsInfix(o) && ts == [Numeral(a), Sym(o), Numeral(b)]
    ensures Parse(ts) == Ok(Binary(o, Leaf(a), Leaf(b)))
  {
    assert OpAt(ts, 1) == o;
    NumberExpr(ts, 2, NextMin(o));
    PrefixNumber(ts, 0);
    ExprStart(ts, 0, 0, Parsed(Leaf(a), 1));
    LoopInfix(ts, Leaf(a), 1, 0, Parsed(Leaf(b), 3));
    LoopStops(ts, Binary(o, Leaf(a), Leaf(b)), 3, 0);
  }

  /** A prefix `-` is applied before a postfix `!` that follows its operand:
      `-a!` is the factorial of `-a`. */
  lemma PrefixBeforePostfix(ts: seq<Token>, a: string)
    requires ts == [Sym(Minus), Numeral(a), Sym(Factorial)]
    ensures Parse(ts) == Ok(Unary(Factorial, Unary(Minus, Leaf(a))))
  {
    var NA := Unary(Minus, Leaf(a));
    assert OpAt(ts, 0) == Minus;
    PrefixNumber(ts, 1);
    assert ParsePrefix(ts, 0) == Ok(Parsed(NA, 2));
    ExprStart(ts, 0, 0, Parsed(NA, 2));
    LoopPostfix(ts, NA, 2, 0);
    LoopStops(ts, Unary(Factorial, NA), 3, 0);
  }

  /** A parenthesised `a o b` at the start of the input is one prefix term. */
  lemma GroupFirst(ts: seq<Token>)
    requires |ts| >= 5 && ts[0] == LParen && ts[1].Numeral? && ts[3].Numeral? && ts[4] == RParen
    requires IsOperator(ts, 2) && IsInfix(OpAt(ts, 2))
    ensures ParsePrefix(ts, 0) == Ok(Parsed(Binary(OpAt(ts, 2), Leaf(ts[1].text), Leaf(ts[3].text)), 5))
  {
    var o, A, B := OpAt(ts, 2), Leaf(ts[1].text), Leaf(ts[3].text);
    NumberExpr(ts, 3, NextMin(o));
    PrefixNumber(ts, 1);
    ExprStart(ts, 1, 0, Parsed(A, 2));
    LoopInfix(ts, A, 2, 0, Parsed(B, 4));
    LoopStops(ts, Binary(o, A, B), 4, 0);
    assert ParsePrimary(ts, 0) == Ok(Parsed(Binary(o, A, B), 5));
  }

  /** Parentheses override precedence and associativity: `(a o1 b) o2 c`
      groups `a o1 b` first whatever the two operators are. */
  lemma Grouped(ts: seq<Token>, a: string, b: string, c: string, o1: Op, o2: Op)
    requires IsInfix(o1) && IsInfix(o2)
    requires ts == [LParen, Numeral(a), Sym(o1), Numeral(b), RParen, Sym(o2), Numeral(c)]
    ensures Parse(ts) == Ok(Binary(o2, Binary(o1, Leaf(a), Leaf(b)), Leaf(c)))
  {
    var AB, C := Binary(o1, Leaf(a), Leaf(b)), Leaf(c);
    SymOp(o1); SymOp(o2);
    GroupFirst(ts);
    assert OpAt(ts, 5) == o2;
    NumberExpr(ts, 6, NextMin(o2));
    ExprStart(ts, 0, 0, Parsed(AB, 5));
    LoopInfix(ts, AB, 5, 0, Parsed(C, 7));
    LoopStops(ts, Binary(o2, AB, C), 7, 0);
  }

  /** A tree is evaluated left operand first: a failing left operand is the
      outcome whatever the right one, and with both values the operator gets
      them in order. */
  lemma LeftFirst(op: Op, l: Node<Op>, r: Node<Op>)
    ensures Eval(l).Err? ==> Eval(Binary(op, l, r)) == Eval(l)
    ensures Eval(l).Ok? && Eval(r).Err? ==> Eval(Binary(op, l, r)) == Eval(r)
    ensures Eval(l).Ok? && Eval(r).Ok? ==> Eval(Binary(op, l, r)) == Apply(op, [Eval(l).value, Eval(r).value])
  {
  }

  /** `-` negates the value of its one operand and subtracts the values of
      its two. */
  lemma {:induction false} MinusRule(x: Node<Op>, y: Node<Op>)
    ensures Eval(x).Ok? ==> Eval(Unary(Minus, x)) == Ok(-Eval(x).value)
    ensures Eval(x).Ok? && Eval(y).Ok? ==> Eval(Binary(Minus, x, y)) == Ok(Eval(x).value - Eval(y).value)
  {
    if Eval(x).Ok? {
      NegatesOperand(x, Eval(x).value);
      if Eval(y).Ok? {
        SubtractsOperands(x, y, Eval(x).value, Eval(y).value);
      }
    }
  }

  lemma NegatesOperand(x: Node<Op>, a: real)
    requires Eval(x) == Ok(a)
    ensures Eval(Unary(Minus, x)) == Ok(-a)
  {
    assert Eval(Unary(Minus, x)) == Apply(Minus, [a]);
  }

  lemma SubtractsOperands(x: Node<Op>, y: Node<Op>, a: real, b: real)
    requires Eval(x) == Ok(a) && Eval(y) == Ok(b)
    ensures Eval(Binary(Minus, x, y)) == Ok(a - b)
  {
    assert Eval(Binary(Minus, x, y)) == Apply(Minus, [a, b]);
  }

  /** A parsed `-a` evaluates to the negation of `a`'s value, and `--a` to
      `a`'s value. */
  lemma NegationValues(a: string)
    ensures Eval(Unary(Minus, Leaf(a))) == Ok(-Numerals.LiteralValue(a))
    ensures Eval(Unary(Minus, Unary(Minus, Leaf(a)))) == Ok(Numerals.LiteralValue(a))
  {
  }

  // ------------------------------------------------------ trailing tokens

  /** A number after the tokens a successful parse used looks like the end
      of input to every part of the parser: it is not an operator and not
      `)`, so each step takes the same branch as before. */
  lemma {:induction false} ExprExtends(ts: seq<Token>, t: Token, pos: nat, minPrec: int)
    requires pos <= |ts| && t.Numeral? && ParseExpr(ts, pos, minPrec).Ok?
    ensures ParseExpr(ts + [t], pos, minPrec) == ParseExpr(ts, pos, minPrec)
    decreases |ts| - pos, 3
  {
    PrefixExtends(ts, t, pos);
    var first := ParsePrefix(ts, pos).value;
    LoopExtends(ts, t, first.node, first.pos, minPrec);
  }

  lemma {:induction false} LoopExtends(ts: seq<Token>, t: Token, left: Node<Op>, pos: nat, minPrec: int)
    requires 0 < pos <= |ts| && EndsOperand(ts[pos - 1]) && t.Numeral?
    requires ExprLoop(ts, left, pos, minPrec).Ok?
    ensures ExprLoop(ts + [t], left, pos, minPrec) == ExprLoop(ts, left, pos, minPrec)
    decreases |ts| - pos, 2
  {
    var us := ts + [t];
    assert us[pos - 1] == ts[pos - 1];
    assert IsOperator(us, pos) == IsOperator(ts, pos);
    if IsOperator(ts, pos) && Desc(OpAt(ts, pos)).precedence >= minPrec {
      assert us[pos] == ts[pos];
      var op := OpAt(ts, pos);
      if Desc(op).isUnary && !Desc(op).allowUnary {
        LoopExtends(ts, t, Unary(op, left), pos + 1, minPrec);
      } else {
        InfixExtends(ts, t, left, pos, minPrec);
      }
    }
  }

  /** The infix turn of the loop, on its own. */
  lemma {:induction false} InfixExtends(ts: seq<Token>, t: Token, left: Node<Op>, pos: nat, minPrec: int)
    requires 0 < pos < |ts| && t.Numeral? && IsOperator(ts, pos)
    requires Desc(OpAt(ts, pos)).precedence >= minPrec
    requires !(Desc(OpAt(ts, pos)).isUnary && !Desc(OpAt(ts, pos)).allowUnary)
    requires ParseExpr(ts, pos + 1, NextMin(OpAt(ts, pos))).Ok?
    requires var right := ParseExpr(ts, pos + 1, NextMin(OpAt(ts, pos))).value;
             ExprLoop(ts, Binary(OpAt(ts, pos), left, right.node), right.pos, minPrec).Ok?
    ensures var right := ParseExpr(ts, pos + 1, NextMin(OpAt(ts, pos))).value;
            ParseExpr(ts + [t], pos + 1, NextMin(OpAt(ts, pos))) == Ok(right) &&
            ExprLoop(ts + [t], Binary(OpAt(ts, pos), left, right.node), right.pos, minPrec)
              == ExprLoop(ts, Binary(OpAt(ts, pos), left, right.node), right.pos, minPrec)
    decreases |ts| - pos, 1
  {
    var op := OpAt(ts, pos);
    ExprExtends(ts, t, pos + 1, NextMin(op));
    var right := ParseExpr(ts, pos + 1, NextMin(op)).value;
    LoopExtends(ts, t, Binary(op, left, right.node), right.pos, minPrec);
  }

  lemma {:induction false} PrefixExtends(ts: seq<Token>, t: Token, pos: nat)
    requires pos <= |ts| && t.Numeral? && ParsePrefix(ts, pos).Ok?
    ensures ParsePrefix(ts + [t], pos) == ParsePrefix(ts, pos)
    decreases |ts| - pos, 1
  {
    var us := ts + [t];
    assert us[pos] == ts[pos];
    if IsOperator(ts, pos) && Desc(OpAt(ts, pos)).allowUnary {
      PrefixExtends(ts, t, pos + 1);
    } else {
      PrimaryExtends(ts, t, pos);
    }
  }

  lemma {:induction false} PrimaryExtends(ts: seq<Token>, t: Token, pos: nat)
    requires pos <= |ts| && t.Numeral? && ParsePrimary(ts, pos).Ok?
    ensures ParsePrimary(ts + [t], pos) == ParsePrimary(ts, pos)
    decreases |ts| - pos, 0
  {
    var us := ts + [t];
    assert us[pos] == ts[pos];
    if ts[pos] == LParen {
      ExprExtends(ts, t, pos + 1, 0);
      var inner := ParseExpr(ts, pos + 1, 0).value;
      assert us[inner.pos] == ts[inner.pos];
    }
  }

  /** A number appended to a line that parses is a trailing token, reported
      at its own position: `2#3` generalised to every parsable line. */
  lemma TrailingNumber(ts: seq<Token>, x: string)
    requires Parse(ts).Ok?
    ensures Parse(ts + [Numeral(x)]) == Err(TrailingToken(|ts|))
  {
    ExprExtends(ts, Numeral(x), 0, 0);
  }
}

/** Whole-expression results of the working calculator, from the text the
    user types to the value it prints or the error it reports. */
module MiniCalcWorkExamples {
  import opened Results
  import opened Lexer
  import opened Tree
  import opened Arith
  import opened MiniCalcWork
  import opened MiniCalcWorkProps
  import Numerals

  /** Text that renders from well-formed, separated tokens tokenizes back to them. */
  lemma Lexes(s: string, ts: seq<Token>)
    requires Lexable(Symbols, ts) && Render(ts) == s
    ensures Tokenize(s, Symbols) == ts
  {
    TableConsistent();
    Relexes(s, ts, Symbols);
  }

  /** The pipeline's outcome once the tokens and the parse are known. */
  lemma Pipeline(s: string, ts: seq<Token>)
    requires Tokenize(s, Symbols) == ts
    ensures Parse(ts).Err? ==> Evaluate(s) == Err(Parse(ts).error)
    ensures Parse(ts).Ok? ==> Evaluate(s) == Eval(Parse(ts).value)
  {
  }

  // Each example takes its input text and tokens as parameters fixed by
  // preconditions, and its tokens, parse and value are established by lemmas
  // of their own, so that the verifier never unfolds the whole pipeline on a
  // literal.

  lemma PrecedenceTokens(s: string)
    requires s == "2+3*4"
    ensures Tokenize(s, Symbols) == [Numeral("2"), Symbol('+'), Numeral("3"), Symbol('*'), Numeral("4")]
  {
    var ts := [Numeral("2"), Symbol('+'), Numeral("3"), Symbol('*'), Numeral("4")];
    assert Lexable(Symbols, ts) by { Numerals.DigitText(2); Numerals.DigitText(3); Numerals.DigitText(4); }
    assert Render(ts) == s;
    Lexes(s, ts);
  }

  lemma PrecedenceTree(ts: seq<Token>)
    requires ts == [Numeral("2"), Symbol('+'), Numeral("3"), Symbol('*'), Numeral("4")]
    ensures Parse(ts) == Ok(Binary(Plus, Number(2.0), Binary(Multiply, Number(3.0), Number(4.0))))
  {
    Numerals.DigitText(2); Numerals.DigitText(3); Numerals.DigitText(4);
    InfixGrouping(ts, "2", "3", "4", Plus, Multiply);
  }

  lemma PrecedenceValue()
    ensures Eval(Binary(Plus, Number(2.0), Binary(Multiply, Number(3.0), Number(4.0)))) == Ok(14.0)
  {
  }

  /** `*` binds tighter than `+`. */
  lemma PrecedenceExample(s: string)
    requires s == "2+3*4"
    ensures Evaluate(s) == Ok(14.0)
  {
    PrecedenceTokens(s);
    PrecedenceTree(Tokenize(s, Symbols));
    PrecedenceValue();
    Pipeline(s, Tokenize(s, Symbols));
  }

  lemma LeftAssocTokens(s: string)
    requires s == "8/4/2"
    ensures Tokenize(s, Symbols) == [Numeral("8"), Symbol('/'), Numeral("4"), Symbol('/'), Numeral("2")]
  {
    var ts := [Numeral("8"), Symbol('/'), Numeral("4"), Symbol('/'), Numeral("2")];
    assert Lexable(Symbols, ts) by { Numerals.DigitText(8); Numerals.DigitText(4); Numerals.DigitText(2); }
    assert Render(ts) == s;
    Lexes(s, ts);
  }

  lemma LeftAssocTree(ts: seq<Token>)
    requires ts == [Numeral("8"), Symbol('/'), Numeral("4"), Symbol('/'), Numeral("2")]
    ensures Parse(ts) == Ok(Binary(Divide, Binary(Divide, Number(8.0), Number(4.0)), Number(2.0)))
  {
    Numerals.DigitText(8); Numerals.DigitText(4); Numerals.DigitText(2);
    InfixGrouping(ts, "8", "4", "2", Divide, Divide);
  }

  lemma LeftAssocValue()
    ensures Eval(Binary(Divide, Binary(Divide, Number(8.0), Number(4.0)), Number(2.0))) == Ok(1.0)
  {
  }

  /** `/` groups to the left: (8 / 4) / 2. */
  lemma LeftAssocExample(s: string)
    requires s == "8/4/2"
    ensures Evaluate(s) == Ok(1.0)
  {
    LeftAssocTokens(s);
    LeftAssocTree(Tokenize(s, Symbols));
    LeftAssocValue();
    Pipeline(s, Tokenize(s, Symbols));
  }

  lemma RightAssocTokens(s: string)
    requires s == "2^3^2"
    ensures Tokenize(s, Symbols) == [Numeral("2"), Symbol('^'), Numeral("3"), Symbol('^'), Numeral("2")]
  {
    var ts := [Numeral("2"), Symbol('^'), Numeral("3"), Symbol('^'), Numeral("2")];
    assert Lexable(Symbols, ts) by { Numerals.DigitText(2); Numerals.DigitText(3); }
    assert Render(ts) == s;
    Lexes(s, ts);
  }

  lemma RightAssocTree(ts: seq<Token>)
    requires ts == [Numeral("2"), Symbol('^'), Numeral("3"), Symbol('^'), Numeral("2")]
    ensures Parse(ts) == Ok(Binary(Power, Number(2.0), Binary(Power, Number(3.0), Number(2.0))))
  {
    Numerals.DigitText(2); Numerals.DigitText(3);
    InfixGrouping(ts, "2", "3", "2", Power, Power);
  }

  lemma RightAssocValue()
    ensures Eval(Binary(Power, Number(2.0), Binary(Power, Number(3.0), Number(2.0)))) == Ok(512.0)
  {
    assert 2.0.Floor == 2 && PowNat(3.0, 2) == 9.0;
    assert 9.0.Floor == 9 && PowNat(2.0, 9) == 512.0;
  }

  /** `^` groups to the right: 2 ^ (3 ^ 2). */
  lemma RightAssocExample(s: string)
    requires s == "2^3^2"
    ensures Evaluate(s) == Ok(512.0)
  {
    RightAssocTokens(s);
    RightAssocTree(Tokenize(s, Symbols));
    RightAssocValue();
    Pipeline(s, Tokenize(s, Symbols));
  }

  lemma PostfixTokens(s: string)
    requires s == "3!+1"
    ensures Tokenize(s, Symbols) == [Numeral("3"), Symbol('!'), Symbol('+'), Numeral("1")]
  {
    var ts := [Numeral("3"), Symbol('!'), Symbol('+'), Numeral("1")];
    assert Lexable(Symbols, ts) by { Numerals.DigitText(3); Numerals.DigitText(1); }
    assert Render(ts) == s;
    Lexes(s, ts);
  }

  lemma PostfixTree(ts: seq<Token>)
    requires ts == [Numeral("3"), Symbol('!'), Symbol('+'), Numeral("1")]
    ensures Parse(ts) == Ok(Binary(Plus, Unary(Factorial, Number(3.0)), Number(1.0)))
  {
    Numerals.DigitText(3); Numerals.DigitText(1);
    PostfixBeforeInfix(ts, "3", "1", Plus);
  }

  lemma PostfixValue()
    ensures Eval(Binary(Plus, Unary(Factorial, Number(3.0)), Number(1.0))) == Ok(7.0)
  {
    assert 3.0.Floor == 3 && Fact(3) == 6;
    assert TruncFactorial(3.0) == Ok(6.0);
  }

  /** `!` takes the number before it before `+` is seen: 3! + 1. */
  lemma PostfixExample(s: string)
    requires s == "3!+1"
    ensures Evaluate(s) == Ok(7.0)
  {
    PostfixTokens(s);
    PostfixTree(Tokenize(s, Symbols));
    PostfixValue();
    Pipeline(s, Tokenize(s, Symbols));
  }

  lemma NegatedPowerTokens(s: string)
    requires s == "-2^2"
    ensures Tokenize(s, Symbols) == [Symbol('-'), Numeral("2"), Symbol('^'), Numeral("2")]
  {
    var ts := [Symbol('-'), Numeral("2"), Symbol('^'), Numeral("2")];
    assert Lexable(Symbols, ts) by { Numerals.DigitText(2); }
    assert Render(ts) == s;
    Lexes(s, ts);
  }

  lemma NegatedPowerTree(ts: seq<Token>)
    requires ts == [Symbol('-'), Numeral("2"), Symbol('^'), Numeral("2")]
    ensures Parse(ts) == Ok(Binary(Power, Unary(Minus, Number(2.0)), Number(2.0)))
  {
    Numerals.DigitText(2);
    PrefixBindsFirst(ts, "2", "2", Power);
  }

  lemma NegatedPowerValue()
    ensures Eval(Binary(Power, Unary(Minus, Number(2.0)), Number(2.0))) == Ok(4.0)
  {
    assert 2.0.Floor == 2 && PowNat(-2.0, 2) == 4.0;
    assert DecimalPower(-2.0, 2.0) == Ok(4.0);
  }

  /** Prefix `-` binds tighter than `^`: (-2) ^ 2. */
  lemma NegatedPowerExample(s: string)
    requires s == "-2^2"
    ensures Evaluate(s) == Ok(4.0)
  {
    NegatedPowerTokens(s);
    NegatedPowerTree(Tokenize(s, Symbols));
    NegatedPowerValue();
    Pipeline(s, Tokenize(s, Symbols));
  }

  lemma NegatedFactorialTokens(s: string)
    requires s == "-3!"
    ensures Tokenize(s, Symbols) == [Symbol('-'), Numeral("3"), Symbol('!')]
  {
    var ts := [Symbol('-'), Numeral("3"), Symbol('!')];
    assert Lexable(Symbols, ts) by { Numerals.DigitText(3); }
    assert Render(ts) == s;
    Lexes(s, ts);
  }

  lemma NegatedFactorialTree(ts: seq<Token>)
    requires ts == [Symbol('-'), Numeral("3"), Symbol('!')]
    ensures Parse(ts) == Ok(Unary(Factorial, Unary(Minus, Number(3.0))))
  {
    Numerals.DigitText(3);
    PrefixBeforePostfix(ts, "3");
  }

  lemma NegatedFactorialValue()
    ensures Eval(Unary(Factorial, Unary(Minus, Number(3.0)))) == Err(NegativeFactorial)
  {
  }

  /** `-3!` is the factorial of -3, which is rejected. */
  lemma NegatedFactorialExample(s: string)
    requires s == "-3!"
    ensures Evaluate(s) == Err(NegativeFactorial)
  {
    NegatedFactorialTokens(s);
    NegatedFactorialTree(Tokenize(s, Symbols));
    NegatedFactorialValue();
    Pipeline(s, Tokenize(s, Symbols));
  }

  lemma DivisionByZeroTokens(s: string)
    requires s == "1/0"
    ensures Tokenize(s, Symbols) == [Numeral("1"), Symbol('/'), Numeral("0")]
  {
    var ts := [Numeral("1"), Symbol('/'), Numeral("0")];
    assert Lexable(Symbols, ts) by { Numerals.DigitText(1); Numerals.DigitText(0); }
    assert Render(ts) == s;
    Lexes(s, ts);
  }

  lemma DivisionByZeroTree(ts: seq<Token>)
    requires ts == [Numeral("1"), Symbol('/'), Numeral("0")]
    ensures Parse(ts) == Ok(Binary(Divide, Number(1.0), Number(0.0)))
  {
    Numerals.DigitText(1); Numerals.DigitText(0);
    SingleInfix(ts, "1", "0", Divide);
  }

  lemma DivisionByZeroValue()
    ensures Eval(Binary(Divide, Number(1.0), Number(0.0))) == Err(DivisionByZero)
  {
  }

  /** Division by zero is reported, not evaluated. */
  lemma DivisionByZeroExample(s: string)
    requires s == "1/0"
    ensures Evaluate(s) == Err(DivisionByZero)
  {
    DivisionByZeroTokens(s);
    DivisionByZeroTree(Tokenize(s, Symbols));
    DivisionByZeroValue();
    Pipeline(s, Tokenize(s, Symbols));
  }

  lemma GroupingTokens(s: string)
    requires s == "(2+3)*4"
    ensures Tokenize(s, Symbols) == [LParen, Numeral("2"), Symbol('+'), Numeral("3"), RParen, Symbol('*'), Numeral("4")]
  {
    var ts := [LParen, Numeral("2"), Symbol('+'), Numeral("3"), RParen, Symbol('*'), Numeral("4")];
    assert Lexable(Symbols, ts) by { Numerals.DigitText(2); Numerals.DigitText(3); Numerals.DigitText(4); }
    assert Render(ts) == s;
    Lexes(s, ts);
  }

  lemma GroupingTree(ts: seq<Token>)
    requires ts == [LParen, Numeral("2"), Symbol('+'), Numeral("3"), RParen, Symbol('*'), Numeral("4")]
    ensures Parse(ts) == Ok(Binary(Multiply, Binary(Plus, Number(2.0), Number(3.0)), Number(4.0)))
  {
    Numerals.DigitText(2); Numerals.DigitText(3); Numerals.DigitText(4);
    Grouped(ts, "2", "3", "4", Plus, Multiply);
  }

  lemma GroupingValue()
    ensures Eval(Binary(Multiply, Binary(Plus, Number(2.0), Number(3.0)), Number(4.0))) == Ok(20.0)
  {
  }

  /** Parentheses override precedence: (2 + 3) * 4. */
  lemma GroupingExample(s: string)
    requires s == "(2+3)*4"
    ensures Evaluate(s) == Ok(20.0)
  {
    GroupingTokens(s);
    GroupingTree(Tokenize(s, Symbols));
    GroupingValue();
    Pipeline(s, Tokenize(s, Symbols));
  }

  lemma TrailingOperatorTokens(s: string)
    requires s == "2+"
    ensures Tokenize(s, Symbols) == [Numeral("2"), Symbol('+')]
  {
    var ts := [Numeral("2"), Symbol('+')];
    assert Lexable(Symbols, ts) by { Numerals.DigitText(2); }
    assert Render(ts) == s;
    Lexes(s, ts);
  }

  lemma TrailingOperatorParse(ts: seq<Token>)
    requires ts == [Numeral("2"), Symbol('+')]
    ensures Parse(ts) == Err(UnexpectedEnd)
  {
    PrefixNumber(ts, 0);
    assert ParsePrefix(ts, 2) == Err(UnexpectedEnd);
    assert ExprLoop(ts, Leaf("2"), 1, 0) == Err(UnexpectedEnd);
  }

  /** An operator with nothing after it runs out of input. */
  lemma TrailingOperatorExample(s: string)
    requires s == "2+"
    ensures Evaluate(s) == Err(UnexpectedEnd)
  {
    TrailingOperatorTokens(s);
    TrailingOperatorParse(Tokenize(s, Symbols));
    Pipeline(s, Tokenize(s, Symbols));
  }

  lemma LeadingPlusTokens(s: string)
    requires s == "+5"
    ensures Tokenize(s, Symbols) == [Symbol('+'), Numeral("5")]
  {
    var ts := [Symbol('+'), Numeral("5")];
    assert Lexable(Symbols, ts) by { Numerals.DigitText(5); }
    assert Render(ts) == s;
    Lexes(s, ts);
  }

  lemma LeadingPlusParse(ts: seq<Token>)
    requires ts == [Symbol('+'), Numeral("5")]
    ensures Parse(ts) == Err(UnexpectedToken(0))
  {
    assert ParsePrefix(ts, 0) == Err(UnexpectedToken(0));
  }

  /** Only `-` may stand in prefix position: a leading `+` is an unexpected token. */
  lemma LeadingPlusExample(s: string)
    requires s == "+5"
    ensures Evaluate(s) == Err(UnexpectedToken(0))
  {
    LeadingPlusTokens(s);
    LeadingPlusParse(Tokenize(s, Symbols));
    Pipeline(s, Tokenize(s, Symbols));
  }

  lemma UnclosedTokens(s: string)
    requires s == "(2+3"
    ensures Tokenize(s, Symbols) == [LParen, Numeral("2"), Symbol('+'), Numeral("3")]
  {
    var ts := [LParen, Numeral("2"), Symbol('+'), Numeral("3")];
    assert Lexable(Symbols, ts) by { Numerals.DigitText(2); Numerals.DigitText(3); }
    assert Render(ts) == s;
    Lexes(s, ts);
  }

  lemma UnclosedParse(ts: seq<Token>)
    requires ts == [LParen, Numeral("2"), Symbol('+'), Numeral("3")]
    ensures Parse(ts) == Err(Expected(')', 4))
  {
    var A, B := Leaf("2"), Leaf("3");
    assert OpAt(ts, 2) == Plus;
    NumberExpr(ts, 3, NextMin(Plus));
    PrefixNumber(ts, 1);
    ExprStart(ts, 1, 0, Parsed(A, 2));
    LoopInfix(ts, A, 2, 0, Parsed(B, 4));
    LoopStops(ts, Binary(Plus, A, B), 4, 0);
    assert ParsePrefix(ts, 0) == Err(Expected(')', 4));
  }

  /** A parenthesis left open is reported where `)` was expected. */
  lemma UnclosedExample(s: string)
    requires s == "(2+3"
    ensures Evaluate(s) == Err(Expected(')', 4))
  {
    UnclosedTokens(s);
    UnclosedParse(Tokenize(s, Symbols));
    Pipeline(s, Tokenize(s, Symbols));
  }

  lemma ForeignTokens(s: string)
    requires s == "2#3"
    ensures Tokenize(s, Symbols) == [Numeral("2"), Numeral("3")]
  {
    Numerals.DigitText(2); Numerals.DigitText(3);
    HeadStep(s, 0, Numeral("2"), Symbols);
    SkipsForeign(s, Symbols, 1);
    HeadStep(s, 2, Numeral("3"), Symbols);
    assert LexFrom(s, Symbols, 3) == [];
    var ls := [Lexeme(0, Numeral("2")), Lexeme(2, Numeral("3"))];
    assert LexFrom(s, Symbols, 0) == ls;
    assert Tokens(ls) == [Numeral("2"), Numeral("3")];
  }

  lemma ForeignParse(ts: seq<Token>)
    requires ts == [Numeral("2"), Numeral("3")]
    ensures Parse(ts) == Err(TrailingToken(1))
  {
    PrefixNumber(ts, 0);
    assert ExprLoop(ts, Leaf("2"), 1, 0) == Ok(Parsed(Leaf("2"), 1));
  }

  /** A character outside the pattern is passed over, not rejected: `2#3` reads as the two numbers 2 and 3, and the second is left over. */
  lemma ForeignExample(s: string)
    requires s == "2#3"
    ensures Evaluate(s) == Err(TrailingToken(1))
  {
    ForeignTokens(s);
    ForeignParse(Tokenize(s, Symbols));
    Pipeline(s, Tokenize(s, Symbols));
  }
}

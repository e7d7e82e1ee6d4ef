/** Whole input lines through the class-based calculator. Every example
    holds whatever the operators outside this model compute: they are the
    parameter `hidden`. */
module CalculatorExamples {
  import opened Results
  import opened Lexer
  import opened Tree
  import opened Operations
  import opened Calculator
  import opened CalculatorProps
  import Numerals

  /** Text rendered from lexable tokens yields them. */
  lemma Lexes(s: string, ts: seq<Token>)
    requires Lexable(Symbols, ts) && Render(ts) == s
    ensures Tokenize(s, Symbols) == ts
  {
    RegistryKeys();
    Relexes(s, ts, Symbols);
  }

  /** The outcome of a line once its tokens and their parse are known. */
  lemma Pipeline(s: string, ts: seq<Token>, tree: Node<Kind>, hidden: (Kind, seq<real>) -> Result<real>)
    requires Tokenize(s, Symbols) == ts && Parse(Registry, ts) == Ok(tree)
    ensures Execute(s, hidden) == Eval(tree, hidden)
  {
  }

  lemma SumProductTokens(s: string)
    requires s == "2+3*4"
    ensures Tokenize(s, Symbols) == [Numeral("2"), Symbol('+'), Numeral("3"), Symbol('*'), Numeral("4")]
  {
    var ts := [Numeral("2"), Symbol('+'), Numeral("3"), Symbol('*'), Numeral("4")];
    assert Lexable(Symbols, ts) by { Numerals.DigitText(2); Numerals.DigitText(3); Numerals.DigitText(4); }
    assert Render(ts) == s;
    Lexes(s, ts);
  }

  lemma SumProductTree(ts: seq<Token>)
    requires ts == [Numeral("2"), Symbol('+'), Numeral("3"), Symbol('*'), Numeral("4")]
    ensures Parse(Registry, ts) == Ok(Binary(Multiple, Binary(Plus, Number(2.0), Number(3.0)), Number(4.0)))
  {
    Numerals.DigitText(2); Numerals.DigitText(3); Numerals.DigitText(4);
    TwoOperators(Registry, ts);
  }

  /** `2+3*4` is `(2+3)*4`: the sum is taken first. */
  lemma SumProductExample(s: string, hidden: (Kind, seq<real>) -> Result<real>)
    requires s == "2+3*4"
    ensures Execute(s, hidden) == (var v :- hidden(Plus, [2.0, 3.0]); hidden(Multiple, [v, 4.0]))
  {
    var ts := [Numeral("2"), Symbol('+'), Numeral("3"), Symbol('*'), Numeral("4")];
    SumProductTokens(s);
    SumProductTree(ts);
    Pipeline(s, ts, Binary(Multiple, Binary(Plus, Number(2.0), Number(3.0)), Number(4.0)), hidden);
  }

  /** `10` is a number token worth 10. */
  lemma Ten()
    ensures IsNumeral("10") && Numerals.LiteralValue("10") == 10.0
  {
    assert Numerals.NatText(10) == "10";
    Numerals.NatTextValue(10);
  }

  /** `10 o b` is one operation on 10 and `b`, for any arity-2 operator `o`. */
  lemma TenTree(ts: seq<Token>)
    requires |ts| == 3 && ts[0] == Numeral("10") && ts[2].Numeral?
    requires ts[1].Symbol? && ts[1].sym in Registry && Registry[ts[1].sym].arity == 2
    ensures Parse(Registry, ts) == Ok(Binary(Registry[ts[1].sym].kind, Number(10.0), Leaf(ts[2].text)))
  {
    Ten();
    SingleOperator(Registry, ts);
  }

  lemma AverageTokens(s: string)
    requires s == "10@4"
    ensures Tokenize(s, Symbols) == [Numeral("10"), Symbol('@'), Numeral("4")]
  {
    var ts := [Numeral("10"), Symbol('@'), Numeral("4")];
    assert Lexable(Symbols, ts) by { Ten(); Numerals.DigitText(4); }
    assert Render(ts) == s;
    Lexes(s, ts);
  }

  /** `10@4` is 7. */
  lemma AverageExample(s: string, hidden: (Kind, seq<real>) -> Result<real>)
    requires s == "10@4"
    ensures Execute(s, hidden) == Ok(7.0)
  {
    var ts := [Numeral("10"), Symbol('@'), Numeral("4")];
    AverageTokens(s);
    Numerals.DigitText(4);
    TenTree(ts);
    Pipeline(s, ts, Binary(Average, Number(10.0), Number(4.0)), hidden);
  }

  lemma MaximumTokens(s: string)
    requires s == "10$3"
    ensures Tokenize(s, Symbols) == [Numeral("10"), Symbol('$'), Numeral("3")]
  {
    var ts := [Numeral("10"), Symbol('$'), Numeral("3")];
    assert Lexable(Symbols, ts) by { Ten(); Numerals.DigitText(3); }
    assert Render(ts) == s;
    Lexes(s, ts);
  }

  /** `10$3` is 10. */
  lemma MaximumExample(s: string, hidden: (Kind, seq<real>) -> Result<real>)
    requires s == "10$3"
    ensures Execute(s, hidden) == Ok(10.0)
  {
    var ts := [Numeral("10"), Symbol('$'), Numeral("3")];
    MaximumTokens(s);
    Numerals.DigitText(3);
    TenTree(ts);
    Pipeline(s, ts, Binary(Maximum, Number(10.0), Number(3.0)), hidden);
  }

  lemma MinimumTokens(s: string)
    requires s == "10&3"
    ensures Tokenize(s, Symbols) == [Numeral("10"), Symbol('&'), Numeral("3")]
  {
    var ts := [Numeral("10"), Symbol('&'), Numeral("3")];
    assert Lexable(Symbols, ts) by { Ten(); Numerals.DigitText(3); }
    assert Render(ts) == s;
    Lexes(s, ts);
  }

  /** `10&3` is 3. */
  lemma MinimumExample(s: string, hidden: (Kind, seq<real>) -> Result<real>)
    requires s == "10&3"
    ensures Execute(s, hidden) == Ok(3.0)
  {
    var ts := [Numeral("10"), Symbol('&'), Numeral("3")];
    MinimumTokens(s);
    Numerals.DigitText(3);
    TenTree(ts);
    Pipeline(s, ts, Binary(Minimum, Number(10.0), Number(3.0)), hidden);
  }

  lemma MaxMeanTokens(s: string)
    requires s == "4$2@8"
    ensures Tokenize(s, Symbols) == [Numeral("4"), Symbol('$'), Numeral("2"), Symbol('@'), Numeral("8")]
  {
    var ts := [Numeral("4"), Symbol('$'), Numeral("2"), Symbol('@'), Numeral("8")];
    assert Lexable(Symbols, ts) by { Numerals.DigitText(4); Numerals.DigitText(2); Numerals.DigitText(8); }
    assert Render(ts) == s;
    Lexes(s, ts);
  }

  lemma MaxMeanTree(ts: seq<Token>)
    requires ts == [Numeral("4"), Symbol('$'), Numeral("2"), Symbol('@'), Numeral("8")]
    ensures Parse(Registry, ts) == Ok(Binary(Average, Binary(Maximum, Number(4.0), Number(2.0)), Number(8.0)))
  {
    Numerals.DigitText(4); Numerals.DigitText(2); Numerals.DigitText(8);
    TwoOperators(Registry, ts);
  }

  /** `4$2@8` is the mean of `max(4, 2)` and 8, that is 6; grouped to the
      right it would be `max(4, mean(2, 8))`, 5. */
  lemma MaxMeanExample(s: string, hidden: (Kind, seq<real>) -> Result<real>)
    requires s == "4$2@8"
    ensures Execute(s, hidden) == Ok(6.0)
    ensures Max(4.0, Mean(2.0, 8.0)) == 5.0
  {
    var ts := [Numeral("4"), Symbol('$'), Numeral("2"), Symbol('@'), Numeral("8")];
    MaxMeanTokens(s);
    MaxMeanTree(ts);
    Pipeline(s, ts, Binary(Average, Binary(Maximum, Number(4.0), Number(2.0)), Number(8.0)), hidden);
  }

  lemma ModuloTokens(s: string)
    requires s == "5%2"
    ensures Tokenize(s, Symbols) == [Numeral("5"), Symbol('%'), Numeral("2")]
  {
    var ts := [Numeral("5"), Symbol('%'), Numeral("2")];
    assert Lexable(Symbols, ts) by { Numerals.DigitText(5); Numerals.DigitText(2); }
    assert Render(ts) == s;
    Lexes(s, ts);
  }

  /** `%` has arity 4, so no loop takes it and `parse` stops before it:
      `5%2` is 5. */
  lemma ModuloExample(s: string, hidden: (Kind, seq<real>) -> Result<real>)
    requires s == "5%2"
    ensures Execute(s, hidden) == Ok(5.0)
  {
    var ts := [Numeral("5"), Symbol('%'), Numeral("2")];
    ModuloTokens(s);
    Numerals.DigitText(5);
    RegistryFlags();
    assert Chain(Registry, ts, 0) by { assert OperandAt(ts, 0); }
    ChainFoldsLeft(Registry, ts, 0);
    Pipeline(s, ts, Number(5.0), hidden);
  }

  /** The scan of `1 2` from the space on. */
  lemma JoinedScanTail(s: string)
    requires s == "1 2"
    ensures LexFrom(s, Symbols, 1) == [Lexeme(2, Numeral("2"))]
  {
    Numerals.DigitText(2);
    RegistryKeys();
    HeadStep(s, 2, Numeral("2"), Symbols);
    SkipsForeign(s, Symbols, 1);
  }

  lemma JoinedTokens(s: string)
    requires s == "1 2"
    ensures Tokenize(s, Symbols) == [Numeral("1"), Numeral("2")]
  {
    Numerals.DigitText(1);
    RegistryKeys();
    JoinedScanTail(s);
    HeadStep(s, 0, Numeral("1"), Symbols);
    var ls := [Lexeme(0, Numeral("1")), Lexeme(2, Numeral("2"))];
    assert LexFrom(s, Symbols, 0) == ls;
    assert Tokens(ls) == [Numeral("1"), Numeral("2")];
  }

  /** The space is passed over, the first number is the whole parse and the
      second is never looked at: `1 2` is 1. */
  lemma JoinedExample(s: string, hidden: (Kind, seq<real>) -> Result<real>)
    requires s == "1 2"
    ensures Execute(s, hidden) == Ok(1.0)
  {
    var ts := [Numeral("1"), Numeral("2")];
    JoinedTokens(s);
    Numerals.DigitText(1);
    assert Chain(Registry, ts, 0) by { assert OperandAt(ts, 0); }
    ChainFoldsLeft(Registry, ts, 0);
    Pipeline(s, ts, Number(1.0), hidden);
  }

  lemma NegativeInfixTokens(s: string)
    requires s == "3~2"
    ensures Tokenize(s, Symbols) == [Numeral("3"), Symbol('~'), Numeral("2")]
  {
    var ts := [Numeral("3"), Symbol('~'), Numeral("2")];
    assert Lexable(Symbols, ts) by { Numerals.DigitText(3); Numerals.DigitText(2); }
    assert Render(ts) == s;
    Lexes(s, ts);
  }

  /** `3~2` is an error: negation given two arguments. */
  lemma NegativeInfixExample(s: string, hidden: (Kind, seq<real>) -> Result<real>)
    requires s == "3~2"
    ensures Execute(s, hidden) == Err(WrongOperandCount)
  {
    NegativeInfixTokens(s);
    SideOperatorInfix(Tokenize(s, Symbols), hidden);
  }

  lemma FactorialInfixTokens(s: string)
    requires s == "3!2"
    ensures Tokenize(s, Symbols) == [Numeral("3"), Symbol('!'), Numeral("2")]
  {
    var ts := [Numeral("3"), Symbol('!'), Numeral("2")];
    assert Lexable(Symbols, ts) by { Numerals.DigitText(3); Numerals.DigitText(2); }
    assert Render(ts) == s;
    Lexes(s, ts);
  }

  /** `3!2` is an error: factorial given two arguments. */
  lemma FactorialInfixExample(s: string, hidden: (Kind, seq<real>) -> Result<real>)
    requires s == "3!2"
    ensures Execute(s, hidden) == Err(WrongOperandCount)
  {
    FactorialInfixTokens(s);
    SideOperatorInfix(Tokenize(s, Symbols), hidden);
  }

  /** `~5`: the negation sign is not an operand. */
  lemma LeadingTildeExample(s: string, hidden: (Kind, seq<real>) -> Result<real>)
    requires s == "~5"
    ensures Execute(s, hidden) == Err(UnexpectedToken(0))
  {
    var ts := [Symbol('~'), Numeral("5")];
    assert Lexable(Symbols, ts) by { Numerals.DigitText(5); }
    assert Render(ts) == s;
    Lexes(s, ts);
    LeadingSideOperator(ts);
  }

  /** An empty line reads the first token of an empty list. */
  lemma EmptyExample(s: string, hidden: (Kind, seq<real>) -> Result<real>)
    requires s == ""
    ensures Execute(s, hidden) == Err(IndexOutOfRange(0))
  {
    assert Tokenize(s, Symbols) == [];
  }

  /** A number and an arity-2 operator at the end: the loop takes the
      operator and reads past the end for the right operand. */
  lemma DanglingOperator(ts: seq<Token>)
    requires |ts| == 2 && ts[0].Numeral? && IsBinary(Registry, ts, 1)
    ensures Parse(Registry, ts) == Err(IndexOutOfRange(2))
  {
    NoUnaryBranch(ts, 0);
    var a: Node<Kind> := Leaf(ts[0].text);
    assert ParseFactor(Registry, ts, 0) == Ok(Parsed(a, 1));
    assert TermLoop(Registry, ts, a, 1) == Err(IndexOutOfRange(2));
    assert ParseTerm(Registry, ts, 0) == Err(IndexOutOfRange(2));
  }

  lemma TrailingPlusTokens(s: string)
    requires s == "2+"
    ensures Tokenize(s, Symbols) == [Numeral("2"), Symbol('+')]
  {
    var ts := [Numeral("2"), Symbol('+')];
    assert Lexable(Symbols, ts) by { Numerals.DigitText(2); }
    assert Render(ts) == s;
    Lexes(s, ts);
  }

  /** `2+` reads past the end. */
  lemma TrailingPlusExample(s: string, hidden: (Kind, seq<real>) -> Result<real>)
    requires s == "2+"
    ensures Execute(s, hidden) == Err(IndexOutOfRange(2))
  {
    TrailingPlusTokens(s);
    DanglingOperator(Tokenize(s, Symbols));
  }

  lemma TrailingBangTokens(s: string)
    requires s == "5!"
    ensures Tokenize(s, Symbols) == [Numeral("5"), Symbol('!')]
  {
    var ts := [Numeral("5"), Symbol('!')];
    assert Lexable(Symbols, ts) by { Numerals.DigitText(5); }
    assert Render(ts) == s;
    Lexes(s, ts);
  }

  /** `5!` reads past the end too: `!` is an infix operator here. */
  lemma TrailingBangExample(s: string, hidden: (Kind, seq<real>) -> Result<real>)
    requires s == "5!"
    ensures Execute(s, hidden) == Err(IndexOutOfRange(2))
  {
    TrailingBangTokens(s);
    DanglingOperator(Tokenize(s, Symbols));
  }

  /** `(2` is 2: the missing `)` is never noticed. */
  lemma UnclosedExample(s: string, hidden: (Kind, seq<real>) -> Result<real>)
    requires s == "(2"
    ensures Execute(s, hidden) == Ok(2.0)
  {
    var ts := [LParen, Numeral("2")];
    assert Lexable(Symbols, ts) by { Numerals.DigitText(2); }
    assert Render(ts) == s;
    Lexes(s, ts);
    Numerals.DigitText(2);
    CloserUnchecked(Registry, ts);
    NoUnaryBranch(ts, 0);
    assert ParseTerm(Registry, ts, 0) == Ok(Parsed(Number(2.0), 3));
    ExpressionIsTerm(Registry, ts, 0);
    Pipeline(s, ts, Number(2.0), hidden);
  }
}

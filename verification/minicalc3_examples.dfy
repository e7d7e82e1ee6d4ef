/** Whole input lines through the `minicalc3` calculator: spaces deleted,
    parentheses passed over, `!` dropping its left operand, signs that
    cannot be evaluated, and a second binary operator that hangs it. */
module MiniCalc3Examples {
  import opened Results
  import opened Lexer
  import opened Tree
  import opened Arith
  import opened MiniCalc3
  import opened MiniCalc3Props
  import Numerals

  /** A line whose spaces-deleted text renders from lexable tokens yields them. */
  lemma Lexes(s: string, ts: seq<Token>)
    requires Lexable(Symbols, ts) && Render(ts) == Strip(s)
    ensures Tokens3(s) == ts
  {
    TableConsistent();
    Relexes(Strip(s), ts, Symbols);
  }

  /** The outcome of a line once its tokens and their parse are known. */
  lemma Pipeline(s: string, fuel: nat, tree: Node<Fn>)
    requires Parse(Tokens3(s), fuel) == Ok(tree)
    ensures Evaluate(s, fuel) == Eval(tree)
  {
  }

  lemma DropsTokens(s: string)
    requires s == "3!4"
    ensures Tokens3(s) == [Numeral("3"), Symbol('!'), Numeral("4")]
  {
    var ts := [Numeral("3"), Symbol('!'), Numeral("4")];
    assert Lexable(Symbols, ts) by { Numerals.DigitText(3); Numerals.DigitText(4); }
    assert Strip(s) == Render(ts) by { StripNoSpaces(s); }
    Lexes(s, ts);
  }

  /** `3!4` is `4!`, 24: the 3 is dropped. */
  lemma DropsExample(s: string, fuel: nat)
    requires s == "3!4" && fuel >= 3
    ensures Evaluate(s, fuel) == Ok(24.0)
  {
    DropsTokens(s);
    Numerals.DigitText(4);
    FactorialDropsOperand(Tokens3(s), fuel);
    assert 4.0.Floor == 4 && Fact(4) == 24;
    Pipeline(s, fuel, Unary(Factorial, Number(4.0)));
  }

  lemma SumProductTokens(s: string)
    requires s == "1+2*3"
    ensures Tokens3(s) == [Numeral("1"), Symbol('+'), Numeral("2"), Symbol('*'), Numeral("3")]
  {
    var ts := [Numeral("1"), Symbol('+'), Numeral("2"), Symbol('*'), Numeral("3")];
    assert Lexable(Symbols, ts) by { Numerals.DigitText(1); Numerals.DigitText(2); Numerals.DigitText(3); }
    assert Strip(s) == Render(ts) by { StripNoSpaces(s); }
    Lexes(s, ts);
  }

  /** `1+2*3` never evaluates: every fuel bound runs out. */
  lemma SumProductSpins(s: string, fuel: nat)
    requires s == "1+2*3"
    ensures Evaluate(s, fuel) == Err(OutOfFuel)
  {
    SumProductTokens(s);
    assert TwoBinary(Tokens3(s));
    TwoBinarySpins(Tokens3(s), fuel);
  }

  lemma NegativeTokens(s: string)
    requires s == "-5"
    ensures Tokens3(s) == [Symbol('-'), Numeral("5")]
  {
    var ts := [Symbol('-'), Numeral("5")];
    assert Lexable(Symbols, ts) by { Numerals.DigitText(5); }
    assert Strip(s) == Render(ts) by { StripNoSpaces(s); }
    Lexes(s, ts);
  }

  /** `-5` parses but calls `subtract` with one argument. */
  lemma NegativeExample(s: string, fuel: nat)
    requires s == "-5" && fuel >= 2
    ensures Evaluate(s, fuel) == Err(WrongOperandCount)
  {
    NegativeTokens(s);
    SignedNumber(Tokens3(s), fuel);
    Pipeline(s, fuel, Parse(Tokens3(s), fuel).value);
  }

  lemma LeadingBangTokens(s: string)
    requires s == "!5"
    ensures Tokens3(s) == [Symbol('!'), Numeral("5")]
  {
    var ts := [Symbol('!'), Numeral("5")];
    assert Lexable(Symbols, ts) by { Numerals.DigitText(5); }
    assert Strip(s) == Render(ts) by { StripNoSpaces(s); }
    Lexes(s, ts);
  }

  /** `!5` is 120. */
  lemma LeadingBangExample(s: string, fuel: nat)
    requires s == "!5" && fuel >= 2
    ensures Evaluate(s, fuel) == Ok(120.0)
  {
    LeadingBangTokens(s);
    Numerals.DigitText(5);
    FactorialFirst(Tokens3(s), fuel);
    assert 5.0.Floor == 5 && Fact(5) == 120;
    Pipeline(s, fuel, Unary(Factorial, Number(5.0)));
  }

  lemma TrailingBangTokens(s: string)
    requires s == "3!"
    ensures Tokens3(s) == [Numeral("3"), Symbol('!')]
  {
    var ts := [Numeral("3"), Symbol('!')];
    assert Lexable(Symbols, ts) by { Numerals.DigitText(3); }
    assert Strip(s) == Render(ts) by { StripNoSpaces(s); }
    Lexes(s, ts);
  }

  /** `3!` finds no token after the `!`. */
  lemma TrailingBangExample(s: string, fuel: nat)
    requires s == "3!" && fuel >= 2
    ensures Evaluate(s, fuel) == Err(NoToken)
  {
    TrailingBangTokens(s);
    FactorialAtEnd(Tokens3(s), fuel);
  }

  lemma JoinedTokens(s: string)
    requires s == "1 2"
    ensures Tokens3(s) == [Numeral("12")]
  {
    var ts := [Numeral("12")];
    assert Numerals.NatText(12) == "12";
    Numerals.NatTextValue(12);
    assert s[1..][1..] == "2";
    StripNoSpaces("2");
    assert Strip(s) == "12" == Render(ts);
    Lexes(s, ts);
  }

  /** Spaces are deleted before the scan, so `1 2` is the number 12. */
  lemma JoinedExample(s: string, fuel: nat)
    requires s == "1 2" && fuel >= 2
    ensures Evaluate(s, fuel) == Ok(12.0)
  {
    var ts := [Numeral("12")];
    JoinedTokens(s);
    assert Numerals.NatText(12) == "12";
    Numerals.NatTextValue(12);
    TermNumber(ts, 0, fuel - 1);
    ExprStart(ts, 0, 0, fuel, Parsed(Number(12.0), 1));
    Pipeline(s, fuel, Number(12.0));
  }

  /** The scan of `(1+2)` from the `+` on. */
  lemma ParenScanTail(s: string)
    requires s == "(1+2)"
    ensures LexFrom(s, Symbols, 2) == [Lexeme(2, Symbol('+')), Lexeme(3, Numeral("2"))]
  {
    TableConsistent();
    Numerals.DigitText(2);
    SkipsForeign(s, Symbols, 4);
    HeadStep(s, 3, Numeral("2"), Symbols);
    HeadStep(s, 2, Symbol('+'), Symbols);
  }

  lemma ParenScan(s: string)
    requires s == "(1+2)"
    ensures Tokenize(s, Symbols) == [Numeral("1"), Symbol('+'), Numeral("2")]
  {
    TableConsistent();
    Numerals.DigitText(1);
    ParenScanTail(s);
    HeadStep(s, 1, Numeral("1"), Symbols);
    SkipsForeign(s, Symbols, 0);
    var ls := [Lexeme(1, Numeral("1")), Lexeme(2, Symbol('+')), Lexeme(3, Numeral("2"))];
    assert LexFrom(s, Symbols, 0) == ls;
    assert Tokens(ls) == [Numeral("1"), Symbol('+'), Numeral("2")];
  }

  lemma ParenTokens(s: string)
    requires s == "(1+2)"
    ensures Tokens3(s) == [Numeral("1"), Symbol('+'), Numeral("2")]
  {
    StripNoSpaces(s);
    ParenScan(s);
  }

  /** Parentheses are not in the pattern and are passed over: `(1+2)` is
      read as `1+2`. */
  lemma ParenExample(s: string, fuel: nat)
    requires s == "(1+2)" && fuel >= 4
    ensures Evaluate(s, fuel) == Ok(3.0)
  {
    ParenTokens(s);
    Numerals.DigitText(1); Numerals.DigitText(2);
    assert OneBinary(Tokens3(s));
    SingleBinary(Tokens3(s), fuel);
    Pipeline(s, fuel, Binary(Add, Number(1.0), Number(2.0)));
  }
}

/** The tokenizer every variant builds from the pattern
    `\d+\.\d+|\d+|[<operator symbols>()]` and `re.findall`: scanning left to
    right, a digit run with an optional `.digits` tail becomes a number token,
    an operator symbol or parenthesis becomes a one-character token, and every
    other character is passed over without complaint. Only ASCII digits are
    modelled. */
module Lexer {

  datatype Token = Numeral(text: string) | Symbol(sym: char) | LParen | RParen

  /** The single characters the pattern's character class admits: the
      operator symbols, and the parentheses when `parens` holds. */
  datatype Alphabet = Alphabet(symbols: set<char>, parens: bool)

  /** A token together with the offset at which the scan found it. */
  datatype Lexeme = Lexeme(start: nat, token: Token)

  predicate IsDigit(c: char) {
    '0' <= c <= '9'
  }

  /** An alphabet whose symbols cannot be confused with a number or a parenthesis. */
  predicate ValidAlphabet(a: Alphabet) {
    forall c :: c in a.symbols ==> !IsDigit(c) && c != '.' && c != '(' && c != ')'
  }

  predicate IsSingle(a: Alphabet, c: char) {
    c in a.symbols || (a.parens && (c == '(' || c == ')'))
  }

  function SingleToken(a: Alphabet, c: char): Token {
    if c in a.symbols then Symbol(c) else if c == '(' then LParen else RParen
  }

  /** The source text of a token. */
  function Text(t: Token): string {
    match t
    case Numeral(s) => s
    case Symbol(c) => [c]
    case LParen => "("
    case RParen => ")"
  }

  /** The end of the digit run starting at `i`. */
  function DigitsEnd(s: string, i: nat): (j: nat)
    requires i <= |s|
    ensures i <= j <= |s|
    ensures j == |s| || !IsDigit(s[j])
    decreases |s| - i
  {
    if i < |s| && IsDigit(s[i]) then DigitsEnd(s, i + 1) else i
  }

  /** The run really is made of digits. */
  lemma {:induction false} DigitsEndDigits(s: string, i: nat)
    requires i <= |s|
    ensures forall k :: i <= k < DigitsEnd(s, i) ==> IsDigit(s[k])
    decreases |s| - i
  {
    if i < |s| && IsDigit(s[i]) {
      DigitsEndDigits(s, i + 1);
    }
  }

  /** The run stops no later than the first non-digit at or after its start. */
  lemma {:induction false} DigitsEndBound(s: string, i: nat, m: nat)
    requires i <= m <= |s| && (m == |s| || !IsDigit(s[m]))
    ensures DigitsEnd(s, i) <= m
    decreases m - i
  {
    if i < m {
      DigitsEndBound(s, i + 1, m);
    }
  }

  /** `t` has one of the two number shapes of the pattern: `digits` or `digits.digits`. */
  predicate IsNumeral(t: string) {
    var k := DigitsEnd(t, 0);
    0 < k && (k == |t| || (t[k] == '.' && k + 1 < |t| && DigitsEnd(t, k + 1) == |t|))
  }

  predicate WellFormed(a: Alphabet, t: Token) {
    match t
    case Numeral(text) => IsNumeral(text)
    case Symbol(c) => c in a.symbols
    case _ => a.parens
  }

  /** The end of the number token starting at `i`: the first alternative
      `\d+\.\d+` is tried before `\d+`. */
  function NumberEnd(s: string, i: nat): (j: nat)
    requires i < |s| && IsDigit(s[i])
    ensures i < j <= |s|
    ensures j == |s| || !IsDigit(s[j])
  {
    var k := DigitsEnd(s, i);
    if k + 1 < |s| && s[k] == '.' && IsDigit(s[k + 1]) then DigitsEnd(s, k + 1) else k
  }

  /** What the scan takes as a number token has one of the two number shapes. */
  lemma NumberEndNumeral(s: string, i: nat)
    requires i < |s| && IsDigit(s[i])
    ensures IsNumeral(s[i..NumberEnd(s, i)])
  {
    var k := DigitsEnd(s, i);
    var j := NumberEnd(s, i);
    DigitsEndSlice(s, i, j, i);
    if j != k {
      DigitsEndSlice(s, i, j, k + 1);
    }
  }

  /** Within a slice, a digit run ends at the earlier of its end in the whole
      string and the end of the slice. */
  lemma {:induction false} DigitsEndSlice(s: string, i: nat, j: nat, m: nat)
    requires i <= m <= j <= |s|
    ensures DigitsEnd(s[i..j], m - i) + i == Min(DigitsEnd(s, m), j)
    decreases j - m
  {
    if m < j && IsDigit(s[m]) {
      DigitsEndSlice(s, i, j, m + 1);
    }
  }

  function Min(x: int, y: int): int {
    if x <= y then x else y
  }

  function End(l: Lexeme): nat {
    l.start + |Text(l.token)|
  }

  /** The text of `l` stands in `s` at `l.start`. */
  predicate Occurs(s: string, l: Lexeme) {
    End(l) <= |s| && s[l.start..End(l)] == Text(l.token)
  }

  /** `ls` are well-formed tokens standing in `s` in source order, without
      overlap, the first at or after offset `i`. */
  predicate Located(s: string, a: Alphabet, i: nat, ls: seq<Lexeme>)
    decreases |ls|
  {
    ls == [] ||
    (&& i <= ls[0].start && Occurs(s, ls[0]) && WellFormed(a, ls[0].token)
     && Located(s, a, End(ls[0]), ls[1..]))
  }

  /** `re.findall` from offset `i`: every match consumes at least one
      character, so there are at most as many lexemes as characters left. */
  function LexFrom(s: string, a: Alphabet, i: nat): (r: seq<Lexeme>)
    requires i <= |s|
    ensures |r| <= |s| - i
    decreases |s| - i
  {
    if i == |s| then []
    else if IsDigit(s[i]) then [Lexeme(i, Numeral(s[i..NumberEnd(s, i)]))] + LexFrom(s, a, NumberEnd(s, i))
    else if IsSingle(a, s[i]) then [Lexeme(i, SingleToken(a, s[i]))] + LexFrom(s, a, i + 1)
    else LexFrom(s, a, i + 1)
  }

  /** Every lexeme the scan finds is a well-formed token whose text stands in
      the input at its offset, and the lexemes follow one another in source
      order without overlap. */
  lemma {:induction false} LexFromLocated(s: string, a: Alphabet, i: nat)
    requires i <= |s|
    ensures Located(s, a, i, LexFrom(s, a, i))
    decreases |s| - i
  {
    if i < |s| {
      if IsDigit(s[i]) {
        LexFromLocated(s, a, NumberEnd(s, i));
        LocatedNumber(s, a, i);
      } else {
        LexFromLocated(s, a, i + 1);
        LocatedOther(s, a, i);
      }
    }
  }

  lemma LocatedNumber(s: string, a: Alphabet, i: nat)
    requires i < |s| && IsDigit(s[i])
    requires Located(s, a, NumberEnd(s, i), LexFrom(s, a, NumberEnd(s, i)))
    ensures Located(s, a, i, LexFrom(s, a, i))
  {
    var j := NumberEnd(s, i);
    NumberEndNumeral(s, i);
    LocatedCons(s, a, i, Lexeme(i, Numeral(s[i..j])), LexFrom(s, a, j));
  }

  lemma LocatedOther(s: string, a: Alphabet, i: nat)
    requires i < |s| && !IsDigit(s[i])
    requires Located(s, a, i + 1, LexFrom(s, a, i + 1))
    ensures Located(s, a, i, LexFrom(s, a, i))
  {
    if IsSingle(a, s[i]) {
      assert s[i..i + 1] == [s[i]];
      LocatedCons(s, a, i, Lexeme(i, SingleToken(a, s[i])), LexFrom(s, a, i + 1));
    } else {
      LocatedWeaken(s, a, i, LexFrom(s, a, i + 1));
    }
  }

  lemma LocatedCons(s: string, a: Alphabet, i: nat, l: Lexeme, ls: seq<Lexeme>)
    requires i <= l.start && Occurs(s, l) && WellFormed(a, l.token)
    requires Located(s, a, End(l), ls)
    ensures Located(s, a, i, [l] + ls)
  {
    assert ([l] + ls)[1..] == ls;
  }

  lemma LocatedWeaken(s: string, a: Alphabet, i: nat, ls: seq<Lexeme>)
    requires Located(s, a, i + 1, ls)
    ensures Located(s, a, i, ls)
  {
  }

  function Tokens(ls: seq<Lexeme>): seq<Token> {
    if ls == [] then [] else [ls[0].token] + Tokens(ls[1..])
  }

  /** The token list of `s`. */
  function Tokenize(s: string, a: Alphabet): (ts: seq<Token>)
    ensures forall t :: t in ts ==> WellFormed(a, t)
  {
    var ls := LexFrom(s, a, 0);
    LexFromLocated(s, a, 0);
    TokensWellFormed(s, a, 0, ls);
    Tokens(ls)
  }

  lemma {:induction false} TokensWellFormed(s: string, a: Alphabet, i: nat, ls: seq<Lexeme>)
    requires Located(s, a, i, ls)
    ensures forall t :: t in Tokens(ls) ==> WellFormed(a, t)
    decreases |ls|
  {
    if ls != [] {
      TokensWellFormed(s, a, End(ls[0]), ls[1..]);
    }
  }

  /** A character that is neither a digit nor in the alphabet is passed over. */
  lemma SkipsForeign(s: string, a: Alphabet, i: nat)
    requires i < |s| && !IsDigit(s[i]) && !IsSingle(a, s[i])
    ensures LexFrom(s, a, i) == LexFrom(s, a, i + 1)
  {
  }

  /** The concatenated texts of a token list. */
  function Render(ts: seq<Token>): string {
    if ts == [] then "" else Text(ts[0]) + Render(ts[1..])
  }

  /** No number token directly follows another (they would merge into one). */
  predicate Separated(ts: seq<Token>) {
    forall k :: 0 <= k < |ts| - 1 ==> !(ts[k].Numeral? && ts[k + 1].Numeral?)
  }

  /** Rendering a well-formed, separated token list and tokenizing the text
      gives the list back. */
  lemma RoundTrip(ts: seq<Token>, a: Alphabet)
    requires ValidAlphabet(a)
    requires forall t :: t in ts ==> WellFormed(a, t)
    requires Separated(ts)
    ensures Tokenize(Render(ts), a) == ts
  {
    LexableFromSeparated(ts, a);
    Relexes(Render(ts), ts, a);
  }

  /** Text rendered from lexable tokens tokenizes back to them. */
  lemma Relexes(s: string, ts: seq<Token>, a: Alphabet)
    requires ValidAlphabet(a) && Lexable(a, ts) && Render(ts) == s
    ensures Tokenize(s, a) == ts
  {
    Spelled(s, 0, ts, a);
    RoundTripAt(s, 0, ts, a);
  }

  /** Well-formed tokens, no number directly followed by another. */
  predicate Lexable(a: Alphabet, ts: seq<Token>)
    decreases |ts|
  {
    ts == [] ||
    (&& WellFormed(a, ts[0])
     && (ts[0].Numeral? && |ts| > 1 ==> !ts[1].Numeral?)
     && Lexable(a, ts[1..]))
  }

  lemma {:induction false} LexableFromSeparated(ts: seq<Token>, a: Alphabet)
    requires forall t :: t in ts ==> WellFormed(a, t)
    requires Separated(ts)
    ensures Lexable(a, ts)
    decreases |ts|
  {
    if ts != [] {
      assert ts[0] in ts;
      if |ts| > 1 {
        assert !(ts[0].Numeral? && ts[1].Numeral?);
      }
      SeparatedTail(ts);
      LexableFromSeparated(ts[1..], a);
    }
  }

  /** From offset `i` the text `s` spells out `ts` token after token, each
      well-formed and each number followed by a position that cannot extend it. */
  predicate SpellsAt(s: string, i: nat, a: Alphabet, ts: seq<Token>)
    decreases |ts|
  {
    if ts == [] then i == |s|
    else
      && i + |Text(ts[0])| <= |s| && s[i..i + |Text(ts[0])|] == Text(ts[0])
      && WellFormed(a, ts[0]) && (ts[0].Numeral? ==> Boundary(s, i + |Text(ts[0])|))
      && SpellsAt(s, i + |Text(ts[0])|, a, ts[1..])
  }

  /** A text whose remainder is the rendering of lexable tokens spells them out. */
  lemma {:induction false} Spelled(s: string, i: nat, ts: seq<Token>, a: Alphabet)
    requires ValidAlphabet(a) && Lexable(a, ts)
    requires i <= |s| && s[i..] == Render(ts)
    ensures SpellsAt(s, i, a, ts)
    decreases ts
  {
    if ts != [] {
      RenderHead(s, i, ts, a);
      Spelled(s, i + |Text(ts[0])|, ts[1..], a);
    } else {
      assert |s[i..]| == 0;
    }
  }

  /** Scanning from `i` a text that spells out `ts` finds `ts`. */
  lemma {:induction false} RoundTripAt(s: string, i: nat, ts: seq<Token>, a: Alphabet)
    requires ValidAlphabet(a) && i <= |s| && SpellsAt(s, i, a, ts)
    ensures Tokens(LexFrom(s, a, i)) == ts
    decreases ts
  {
    if ts != [] {
      TokensStep(s, i, ts[0], a);
      RoundTripAt(s, i + |Text(ts[0])|, ts[1..], a);
      HeadTail(ts);
    }
  }

  /** The scan of a text that has a well-formed token's text at `i`,
      followed by something that cannot extend it, yields that token first. */
  lemma TokensStep(s: string, i: nat, t: Token, a: Alphabet)
    requires ValidAlphabet(a) && WellFormed(a, t)
    requires i + |Text(t)| <= |s| && s[i..i + |Text(t)|] == Text(t)
    requires t.Numeral? ==> Boundary(s, i + |Text(t)|)
    ensures Tokens(LexFrom(s, a, i)) == [t] + Tokens(LexFrom(s, a, i + |Text(t)|))
  {
    HeadStep(s, i, t, a);
    var l := LexFrom(s, a, i);
    assert l[1..] == LexFrom(s, a, i + |Text(t)|);
  }

  lemma HeadTail<T>(xs: seq<T>)
    requires xs != []
    ensures [xs[0]] + xs[1..] == xs
  {
  }

  /** Where a rendering stands in a text, its first token's text comes
      first and is followed by the rendering of the others; a number token is
      followed by a position that cannot extend it. */
  lemma RenderHead(s: string, i: nat, ts: seq<Token>, a: Alphabet)
    requires ValidAlphabet(a) && ts != [] && Lexable(a, ts)
    requires i <= |s| && s[i..] == Render(ts)
    ensures WellFormed(a, ts[0]) && Lexable(a, ts[1..])
    ensures i + |Text(ts[0])| <= |s|
    ensures s[i..i + |Text(ts[0])|] == Text(ts[0])
    ensures s[i + |Text(ts[0])|..] == Render(ts[1..])
    ensures ts[0].Numeral? ==> Boundary(s, i + |Text(ts[0])|)
  {
    var t, rest := ts[0], ts[1..];
    var n := |Text(t)|;
    SplitAt(s, i, Text(t), Render(rest));
    if t.Numeral? && rest != [] {
      assert rest[0] == ts[1];
      RenderStartsClean(rest, a);
      assert s[i + n] == s[i + n..][0];
    }
  }

  /** Where `x + y` stands in `s` from `i`, `x` stands at `i` and `y` after it. */
  lemma SplitAt(s: string, i: nat, x: string, y: string)
    requires i <= |s| && s[i..] == x + y
    ensures i + |x| <= |s| && s[i..i + |x|] == x && s[i + |x|..] == y
  {
    assert s[i..i + |x|] == (x + y)[..|x|];
    assert s[i + |x|..] == (x + y)[|x|..];
  }

  lemma SeparatedTail(ts: seq<Token>)
    requires Separated(ts) && ts != []
    ensures Separated(ts[1..])
    ensures forall t :: t in ts[1..] ==> t in ts
  {
    forall k | 0 <= k < |ts[1..]| - 1
      ensures !(ts[1..][k].Numeral? && ts[1..][k + 1].Numeral?)
    {
      assert ts[1..][k] == ts[k + 1] && ts[1..][k + 1] == ts[k + 2];
    }
  }

  /** A text that cannot extend a number token written before it. */
  predicate CleanStart(r: string) {
    r == [] || (!IsDigit(r[0]) && r[0] != '.')
  }

  /** The rendering of a token list whose first token is a well-formed
      symbol or parenthesis cannot extend a number written before it. */
  lemma RenderStartsClean(ts: seq<Token>, a: Alphabet)
    requires ValidAlphabet(a)
    requires ts != [] && !ts[0].Numeral? && WellFormed(a, ts[0])
    ensures CleanStart(Render(ts))
  {
    assert Render(ts) == Text(ts[0]) + Render(ts[1..]);
  }

  /** The position `j` of `s` cannot continue a number token that ends before it. */
  predicate Boundary(s: string, j: nat) {
    j >= |s| || (!IsDigit(s[j]) && s[j] != '.')
  }

  /** One scan step over a token's text when what follows cannot extend it. */
  lemma HeadStep(s: string, i: nat, t: Token, a: Alphabet)
    requires ValidAlphabet(a) && WellFormed(a, t)
    requires i + |Text(t)| <= |s| && s[i..i + |Text(t)|] == Text(t)
    requires t.Numeral? ==> Boundary(s, i + |Text(t)|)
    ensures LexFrom(s, a, i) == [Lexeme(i, t)] + LexFrom(s, a, i + |Text(t)|)
  {
    if t.Numeral? {
      NumberStep(s, i, t.text);
    } else {
      assert s[i] == s[i..i + |Text(t)|][0];
    }
  }

  /** The scan ends a number token exactly where its numeral ends. */
  lemma NumberStep(s: string, i: nat, text: string)
    requires IsNumeral(text)
    requires i + |text| <= |s| && s[i..i + |text|] == text
    requires Boundary(s, i + |text|)
    ensures IsDigit(s[i])
    ensures NumberEnd(s, i) == i + |text|
  {
    var j := i + |text|;
    var k0 := DigitsEnd(text, 0);
    assert s[i] == text[0];
    RunIn(s, i, j, i);
    if k0 < |text| {
      assert s[i + k0] == text[k0] && s[i + k0 + 1] == text[k0 + 1];
      RunIn(s, i, j, i + k0 + 1);
    }
  }

  /** Inside a stretch `s[i..j]` followed by a non-digit, a digit run ends
      where it ends in the stretch. */
  lemma RunIn(s: string, i: nat, j: nat, m: nat)
    requires i <= m <= j <= |s| && (j == |s| || !IsDigit(s[j]))
    ensures DigitsEnd(s, m) == i + DigitsEnd(s[i..j], m - i)
  {
    DigitsEndSlice(s, i, j, m);
    DigitsEndBound(s, m, j);
  }

}

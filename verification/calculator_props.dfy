/** What the class-based parser does: `parse_expression` adds nothing to
    `parse_term`, a run of numbers and arity-2 operators folds to the left
    whatever the operators' precedences, parsing stops silently at the first
    token that is not an arity-2 operator, the closing parenthesis is never
    checked, and the arity-1 branch can never produce a tree. */
module CalculatorProps {
  import opened Results
  import opened Lexer
  import opened Tree
  import opened Operations
  import opened Calculator

  /** The loop of `parse_expression` never turns: `parse_term` stops only at
      a token its own loop would have taken, and that is the token the
      outer loop tests. */
  lemma ExpressionIsTerm(reg: map<char, Operator>, ts: seq<Token>, pos: nat)
    ensures ParseExpression(reg, ts, pos) == ParseTerm(reg, ts, pos)
  {
  }

  /** The `i`-th operand position, `2 * i`, holds a number token. */
  predicate OperandAt(ts: seq<Token>, i: nat) {
    2 * i < |ts| && ts[2 * i].Numeral?
  }

  /** The `i`-th operator position, `2 * i + 1`, holds an arity-2 operator. */
  predicate OperatorAt(reg: map<char, Operator>, ts: seq<Token>, i: nat) {
    IsBinary(reg, ts, 2 * i + 1)
  }

  /** The first `2 * n + 1` tokens alternate `n + 1` numbers with `n`
      arity-2 operators. */
  predicate ChainUpTo(reg: map<char, Operator>, ts: seq<Token>, n: nat) {
    && (forall i :: 0 <= i <= n ==> OperandAt(ts, i))
    && (forall i :: 0 <= i < n ==> OperatorAt(reg, ts, i))
  }

  /** A maximal chain: the token after the first `2 * n + 1`, if any, is
      not an arity-2 operator. */
  predicate Chain(reg: map<char, Operator>, ts: seq<Token>, n: nat) {
    ChainUpTo(reg, ts, n) && !IsBinary(reg, ts, 2 * n + 1)
  }

  /** The reference: the first `i` operators applied from left to right,
      `((a0 o1 a1) o2 a2) ... oi ai`, with no regard to precedence. */
  function FoldLeft(reg: map<char, Operator>, ts: seq<Token>, i: nat): (n: Node<Kind>)
    requires ChainUpTo(reg, ts, i)
    ensures NoUnary(n)
  {
    if i == 0 then
      assert OperandAt(ts, 0);
      Leaf(ts[0].text)
    else
      assert OperandAt(ts, i) && OperatorAt(reg, ts, i - 1);
      Binary(KindAt(reg, ts, 2 * i - 1), FoldLeft(reg, ts, i - 1), Leaf(ts[2 * i].text))
  }

  /** A shorter prefix of a chain is a chain. */
  lemma ChainShorter(reg: map<char, Operator>, ts: seq<Token>, n: nat, i: nat)
    requires ChainUpTo(reg, ts, n) && i <= n
    ensures ChainUpTo(reg, ts, i)
  {
  }

  /** The loop of `parse_term`, entered after the `i`-th operand of a chain
      of `n` operators, builds the left fold of the whole chain. */
  lemma {:induction false} TermLoopFolds(reg: map<char, Operator>, ts: seq<Token>, n: nat, i: nat)
    requires Chain(reg, ts, n) && i <= n
    ensures ChainUpTo(reg, ts, i)
    ensures TermLoop(reg, ts, FoldLeft(reg, ts, i), 2 * i + 1) == Ok(Parsed(FoldLeft(reg, ts, n), 2 * n + 1))
    decreases n - i
  {
    ChainShorter(reg, ts, n, i);
    if i < n {
      assert OperatorAt(reg, ts, i) && OperandAt(ts, i + 1);
      ChainShorter(reg, ts, n, i + 1);
      var right := Leaf(ts[2 * i + 2].text);
      assert ParseFactor(reg, ts, 2 * i + 2) == Ok(Parsed(right, 2 * i + 3));
      assert FoldLeft(reg, ts, i + 1) == Binary(KindAt(reg, ts, 2 * i + 1), FoldLeft(reg, ts, i), right);
      TermLoopFolds(reg, ts, n, i + 1);
    }
  }

  /** Numbers joined by arity-2 operators, up to the first token that is not
      one, parse as their left fold: precedence plays no part, and the tokens
      after the chain are never looked at. */
  lemma ChainFoldsLeft(reg: map<char, Operator>, ts: seq<Token>, n: nat)
    requires Chain(reg, ts, n)
    ensures ChainUpTo(reg, ts, n)
    ensures Parse(reg, ts) == Ok(FoldLeft(reg, ts, n))
  {
    assert OperandAt(ts, 0);
    assert ParseFactor(reg, ts, 0) == Ok(Parsed(Leaf(ts[0].text), 1));
    TermLoopFolds(reg, ts, n, 0);
    ExpressionIsTerm(reg, ts, 0);
  }

  /** The registry has no operator of arity 1, so `parse_factor` is
      `parse_primary`. */
  lemma NoUnaryBranch(ts: seq<Token>, pos: nat)
    ensures ParseFactor(Registry, ts, pos) == ParsePrimary(Registry, ts, pos)
  {
    RegistryFlags();
  }

  /** With an arity-1 operator in the table, the factor branch never yields
      a tree: the operand is parsed and then the `UnaryOpNode` cannot be
      built. */
  lemma UnaryUnbuildable(reg: map<char, Operator>, ts: seq<Token>, pos: nat)
    requires HasArity(reg, ts, pos, 1)
    ensures ParseFactor(reg, ts, pos).Err?
    ensures pos + 1 < |ts| && ts[pos + 1].Numeral? ==> ParseFactor(reg, ts, pos) == Err(AbstractNode)
    ensures pos + 1 == |ts| ==> ParseFactor(reg, ts, pos) == Err(IndexOutOfRange(pos + 1))
  {
  }

  /** After `(` and an expression the cursor skips one token without looking
      at it: `(2` and `(2(` parse as `2`, like `(2)`. */
  lemma CloserUnchecked(reg: map<char, Operator>, ts: seq<Token>)
    requires |ts| >= 2 && ts[0] == LParen && ts[1].Numeral? && !IsBinary(reg, ts, 2)
    ensures ParsePrimary(reg, ts, 0) == Ok(Parsed(Leaf(ts[1].text), 3))
  {
    var a := Leaf(ts[1].text);
    assert ParseFactor(reg, ts, 1) == Ok(Parsed(a, 2));
    assert ParseTerm(reg, ts, 1) == Ok(Parsed(a, 2));
  }

  /** A tree is evaluated left subtree first: a failing left operand is the
      outcome, whatever the right one. */
  lemma LeftFirst(k: Kind, l: Node<Kind>, r: Node<Kind>, hidden: (Kind, seq<real>) -> Result<real>)
    ensures Eval(l, hidden).Err? ==> Eval(Binary(k, l, r), hidden) == Eval(l, hidden)
    ensures Eval(l, hidden).Ok? && Eval(r, hidden).Err? ==> Eval(Binary(k, l, r), hidden) == Eval(r, hidden)
    ensures Eval(l, hidden).Ok? && Eval(r, hidden).Ok?
            ==> Eval(Binary(k, l, r), hidden) == Apply(k, [Eval(l, hidden).value, Eval(r, hidden).value], hidden)
  {
  }

  /** A number node evaluates to its value; a unary node, which has no
      `execute_operation`, to an error. */
  lemma LeafValue(v: real, k: Kind, x: Node<Kind>, hidden: (Kind, seq<real>) -> Result<real>)
    ensures Eval(Number(v), hidden) == Ok(v)
    ensures Eval(Unary(k, x), hidden) == Err(AbstractNode)
  {
  }

  /** `a o b` with `o` of arity 2 is the one operation, whatever follows. */
  lemma SingleOperator(reg: map<char, Operator>, ts: seq<Token>)
    requires |ts| >= 3 && ts[0].Numeral? && IsBinary(reg, ts, 1) && ts[2].Numeral? && !IsBinary(reg, ts, 3)
    ensures Parse(reg, ts) == Ok(Binary(KindAt(reg, ts, 1), Leaf(ts[0].text), Leaf(ts[2].text)))
  {
    assert Chain(reg, ts, 1) by {
      assert OperandAt(ts, 0) && OperandAt(ts, 1) && OperatorAt(reg, ts, 0);
    }
    ChainFoldsLeft(reg, ts, 1);
    assert FoldLeft(reg, ts, 1) == Binary(KindAt(reg, ts, 1), FoldLeft(reg, ts, 0), Leaf(ts[2].text));
  }

  /** `a o1 b o2 c` with both operators of arity 2 is `(a o1 b) o2 c`,
      whichever operators they are. */
  lemma TwoOperators(reg: map<char, Operator>, ts: seq<Token>)
    requires |ts| >= 5 && ts[0].Numeral? && ts[2].Numeral? && ts[4].Numeral?
    requires IsBinary(reg, ts, 1) && IsBinary(reg, ts, 3) && !IsBinary(reg, ts, 5)
    ensures Parse(reg, ts)
            == Ok(Binary(KindAt(reg, ts, 3), Binary(KindAt(reg, ts, 1), Leaf(ts[0].text), Leaf(ts[2].text)), Leaf(ts[4].text)))
  {
    assert Chain(reg, ts, 2) by {
      assert OperandAt(ts, 0) && OperandAt(ts, 1) && OperandAt(ts, 2);
      assert OperatorAt(reg, ts, 0) && OperatorAt(reg, ts, 1);
    }
    ChainFoldsLeft(reg, ts, 2);
    assert FoldLeft(reg, ts, 1) == Binary(KindAt(reg, ts, 1), FoldLeft(reg, ts, 0), Leaf(ts[2].text));
  }

  /** `~` and `!` are registered with arity 2 and are parsed between two
      operands, but their `execute_operation` takes one: `a~b` and `a!b`
      fail however they are written. */
  lemma SideOperatorInfix(ts: seq<Token>, hidden: (Kind, seq<real>) -> Result<real>)
    requires |ts| == 3 && ts[0].Numeral? && ts[2].Numeral?
    requires ts[1].Symbol? && ts[1].sym in Registry && Registry[ts[1].sym].sideOper
    ensures Parse(Registry, ts) == Ok(Binary(Registry[ts[1].sym].kind, Leaf(ts[0].text), Leaf(ts[2].text)))
    ensures Eval(Parse(Registry, ts).value, hidden) == Err(WrongOperandCount)
  {
    var a: Node<Kind>, b: Node<Kind> := Leaf(ts[0].text), Leaf(ts[2].text);
    ArityMismatch(ts[1].sym, a.value, b.value, hidden);
    SingleOperator(Registry, ts);
  }

  /** A leading `~` or `!` is not an operand: the registry gives it arity 2,
      so `parse_factor` hands it to `parse_primary`, which rejects it. */
  lemma LeadingSideOperator(ts: seq<Token>)
    requires |ts| >= 1 && ts[0].Symbol? && ts[0].sym in Registry && Registry[ts[0].sym].sideOper
    ensures Parse(Registry, ts) == Err(UnexpectedToken(0))
  {
    NoUnaryBranch(ts, 0);
    assert ParseTerm(Registry, ts, 0) == Err(UnexpectedToken(0));
  }
}

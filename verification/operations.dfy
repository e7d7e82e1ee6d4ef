/** The operator registry of the class-based calculator and the bodies of
    the operators whose source is part of this model: average, maximum,
    minimum, negative and factorial. The bodies of plus, minus, multiple,
    divide, modulo and power are not part of this model; they are supplied
    as a function parameter wherever they are needed. */
module Operations {
  import opened Results
  import opened Lexer
  import opened Arith

  /** The eleven operator classes. */
  datatype Kind =
    | Plus | Minus | Multiple | Divide | Power | Modulo
    | Average | Maximum | Minimum | Negative | Factorial

  /** An operator instance: its class and the constructor arguments
      `name`, `power` (precedence), `arity` and `side_oper`. */
  datatype Operator = Operator(kind: Kind, name: string, power: int, arity: nat, sideOper: bool)

  /** `OPERATORS`: symbol to operator instance. */
  const Registry: map<char, Operator> := map[
    '+' := Operator(Plus, "plus", 1, 2, false),
    '-' := Operator(Minus, "minus", 1, 2, false),
    '*' := Operator(Multiple, "multiple", 2, 2, false),
    '/' := Operator(Divide, "divide", 2, 2, false),
    '^' := Operator(Power, "power", 3, 2, false),
    '%' := Operator(Modulo, "modulo", 2, 4, false),
    '@' := Operator(Average, "average", 5, 2, false),
    '$' := Operator(Maximum, "maximum", 5, 2, false),
    '&' := Operator(Minimum, "minimum", 5, 2, false),
    '~' := Operator(Negative, "negative", 6, 2, true),
    '!' := Operator(Factorial, "factorial", 7, 2, true)]

  /** The tokenizer's character class: the registry's keys and the parentheses. */
  const Symbols: Alphabet := Alphabet({'+', '-', '*', '/', '^', '%', '@', '$', '&', '~', '!'}, true)

  /** The symbol each operator class is registered under. */
  function SymbolOf(k: Kind): char {
    match k
    case Plus => '+'
    case Minus => '-'
    case Multiple => '*'
    case Divide => '/'
    case Power => '^'
    case Modulo => '%'
    case Average => '@'
    case Maximum => '$'
    case Minimum => '&'
    case Negative => '~'
    case Factorial => '!'
  }

  /** Every operator class is registered. */
  lemma RegistryComplete()
    ensures forall k: Kind :: SymbolOf(k) in Registry && Registry[SymbolOf(k)].kind == k
  {
  }

  /** No class is registered under two symbols: the eleven symbols map to
      eleven different operators. */
  lemma RegistryInjective()
    ensures forall c :: c in Registry ==> SymbolOf(Registry[c].kind) == c
  {
  }

  /** The tokenizer's character class is exactly the registry's keys. */
  lemma RegistryKeys()
    ensures Registry.Keys == Symbols.symbols && ValidAlphabet(Symbols)
  {
  }

  /** Arity 2 for every operator except modulo, whose arity is 4; none has
      arity 1. `side_oper` holds exactly for negative and factorial. */
  lemma RegistryFlags()
    ensures forall c :: c in Registry ==> (Registry[c].arity == 2 <==> c != '%')
    ensures forall c :: c in Registry ==> Registry[c].arity != 1
    ensures forall c :: c in Registry ==> (Registry[c].sideOper <==> c == '~' || c == '!')
  {
  }

  /** The precedences of the arithmetic operators: `+ -` at 1, below
      `* / %` at 2, below `^` at 3; every power lies between 1 and 7. */
  lemma ArithmeticPowers()
    ensures forall c :: c in Registry ==> 1 <= Registry[c].power <= 7
    ensures forall c :: c in Registry ==> (Registry[c].power == 1 <==> c == '+' || c == '-')
    ensures forall c :: c in Registry ==> (Registry[c].power == 2 <==> c == '*' || c == '/' || c == '%')
    ensures forall c :: c in Registry ==> (Registry[c].power == 3 <==> c == '^')
  {
  }

  /** The precedences of the others: `@ $ &` at 5, below `~` at 6, below
      `!` at 7; no operator has power 4. */
  lemma SpecialPowers()
    ensures forall c :: c in Registry ==> (Registry[c].power == 5 <==> c == '@' || c == '$' || c == '&')
    ensures forall c :: c in Registry ==> (Registry[c].power == 6 <==> c == '~')
    ensures forall c :: c in Registry ==> (Registry[c].power == 7 <==> c == '!')
    ensures forall c :: c in Registry ==> Registry[c].power != 4
  {
  }

  // ------------------------------------------------------------ operators

  /** `mean([num1, num2])`. */
  function Mean(a: real, b: real): (r: real)
    ensures Min(a, b) <= r <= Max(a, b)
    ensures r - a == b - r
  {
    (a + b) / 2.0
  }

  /** `max(num1, num2)`: the first of the two unless the second is larger. */
  function Max(a: real, b: real): (r: real)
    ensures r >= a && r >= b
    ensures r == a || r == b
  {
    if b > a then b else a
  }

  /** `min(num1, num2)`: the first of the two unless the second is smaller. */
  function Min(a: real, b: real): (r: real)
    ensures r <= a && r <= b
    ensures r == a || r == b
  {
    if b < a then b else a
  }

  /** `-num1`. */
  function Negate(x: real): (r: real)
    ensures r + x == 0.0
    ensures (x > 0.0 <==> r < 0.0) && (x < 0.0 <==> r > 0.0)
  {
    -x
  }

  /** `Factorial.execute_operation`: a number that `int()` changes is not an
      integer; `math.factorial` rejects a negative integer. */
  function IntegralFactorial(x: real): (r: Result<real>)
    ensures r.Ok? <==> IsIntegral(x) && x >= 0.0
    ensures !IsIntegral(x) ==> r == Err(NonIntegralFactorial)
    ensures IsIntegral(x) && x < 0.0 ==> r == Err(NegativeFactorial)
    ensures r.Ok? ==> r.value >= 1.0
  {
    TruncIntegral(x);
    var n := Trunc(x);
    if n as real != x then Err(NonIntegralFactorial)
    else if n < 0 then Err(NegativeFactorial)
    else Ok(Fact(n) as real)
  }

  lemma MeanSymmetric(a: real, b: real)
    ensures Mean(a, b) == Mean(b, a) && Mean(a, a) == a
    ensures Mean(a, b) == (Min(a, b) + Max(a, b)) / 2.0
  {
  }

  lemma MaxLaws(a: real, b: real, c: real)
    ensures Max(a, b) == Max(b, a) && Max(a, a) == a
    ensures Max(Max(a, b), c) == Max(a, Max(b, c))
  {
  }

  lemma MinLaws(a: real, b: real, c: real)
    ensures Min(a, b) == Min(b, a) && Min(a, a) == a
    ensures Min(Min(a, b), c) == Min(a, Min(b, c))
    ensures Min(a, b) + Max(a, b) == a + b
  {
  }

  lemma NegateTwice(x: real)
    ensures Negate(Negate(x)) == x && Negate(0.0) == 0.0
  {
  }

  /** `0! = 1`, and `n! = n * (n - 1)!` for every integral `n >= 1`: the
      factorial the registry computes is the product 1 * ... * n. */
  lemma FactorialStep(x: real)
    requires IsIntegral(x) && x >= 1.0
    ensures IntegralFactorial(0.0) == Ok(1.0)
    ensures IntegralFactorial(x).Ok? && IntegralFactorial(x - 1.0).Ok?
    ensures IntegralFactorial(x).value == x * IntegralFactorial(x - 1.0).value
  {
    var n := x.Floor;
    assert (x - 1.0).Floor == n - 1;
    assert Fact(n) == n * Fact(n - 1);
  }

  // ------------------------------------------------------------ execution

  /** The operators whose `execute_operation` is part of this model. */
  predicate Shown(k: Kind) {
    k == Average || k == Maximum || k == Minimum || k == Negative || k == Factorial
  }

  /** The number of parameters of a shown operator's `execute_operation`. */
  function Parameters(k: Kind): nat
    requires Shown(k)
  {
    if k == Negative || k == Factorial then 1 else 2
  }

  /** `op.execute_operation(*args)`: a call with a number of arguments the
      method does not take is a `TypeError`. The operators not shown are
      given by `hidden`. */
  function Apply(k: Kind, args: seq<real>, hidden: (Kind, seq<real>) -> Result<real>): (r: Result<real>)
    ensures !Shown(k) ==> r == hidden(k, args)
    ensures Shown(k) ==> (|args| != Parameters(k) <==> r == Err(WrongOperandCount))
    ensures k == Average && |args| == 2 ==> r == Ok(Mean(args[0], args[1]))
    ensures k == Maximum && |args| == 2 ==> r == Ok(Max(args[0], args[1]))
    ensures k == Minimum && |args| == 2 ==> r == Ok(Min(args[0], args[1]))
    ensures k == Negative && |args| == 1 ==> r == Ok(Negate(args[0]))
    ensures k == Factorial && |args| == 1 ==> r == IntegralFactorial(args[0])
  {
    match k
    case Average => if |args| == 2 then Ok(Mean(args[0], args[1])) else Err(WrongOperandCount)
    case Maximum => if |args| == 2 then Ok(Max(args[0], args[1])) else Err(WrongOperandCount)
    case Minimum => if |args| == 2 then Ok(Min(args[0], args[1])) else Err(WrongOperandCount)
    case Negative => if |args| == 1 then Ok(Negate(args[0])) else Err(WrongOperandCount)
    case Factorial => if |args| == 1 then IntegralFactorial(args[0]) else Err(WrongOperandCount)
    case _ => hidden(k, args)
  }

  /** Negative and factorial are registered with arity 2 but take one
      argument: called as the binary operators the registry makes them,
      they fail whatever the operands. */
  lemma ArityMismatch(c: char, a: real, b: real, hidden: (Kind, seq<real>) -> Result<real>)
    requires c in Registry && Registry[c].sideOper
    ensures Registry[c].arity == 2 && Parameters(Registry[c].kind) == 1
    ensures Apply(Registry[c].kind, [a, b], hidden) == Err(WrongOperandCount)
  {
  }
}

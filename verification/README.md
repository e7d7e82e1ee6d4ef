# Calculator_V3 in Dafny

A model of a small text-to-number calculator and three of its variants.
Every variant runs the same pipeline:
1. a regular-expression tokenizer;
2. a recursive-descent parser that builds an expression tree;
3. a recursive evaluation of that tree.

The four variants are:

- **`mini_calc_work.py`, the working calculator.** A precedence-climbing parser with prefix `-`, postfix `!` and a right-associative `^`, evaluating over `Decimal`.
- **`minicalc2.py`.** The same operators, nodes and tokenizer. Every operator goes through `handle_operator`, and its binary handler can return without consuming a token, so the operand loop can spin forever.
- **`minicalc3.py`.** Plain operator functions, and spaces deleted before tokenizing. The tokenizer has no parentheses, every binary operator has precedence 1, and `!` throws away the operand before it.
- **`calculator.py` with `operations/` and `tree/`.** A registry of eleven operator objects (`operations/const.py`) and a parser whose two loops are the same left fold over every operator of arity 2. Evaluation goes through the operators' `execute_operation` methods.

Files:

- `results.dfy`: the `Result` type and the error kinds every variant can raise.
- `lexer.dfy`: the shared tokenizer, equivalent to `re.findall` with the pattern `\d+\.\d+|\d+|[symbols()]`, and its round trip.
- `numerals.dfy`: the value of a number token (`Decimal(token)` or `float(token)`, exactly).
- `arith.dfy`: the number-level rules:
  - truncation and factorial;
  - division with its zero check;
  - `Decimal` powers with integral exponents.
- `tree.dfy`: the expression tree shared by all variants.
- `mini_calc_work*.dfy`, `minicalc2*.dfy`, `minicalc3*.dfy`, `calculator*.dfy`: one variant each.
  - The plain file holds its operations.
  - The `_props` file holds its general lemmas.
  - The `_examples` file holds whole input lines run through the pipeline.
- `operations.dfy`: the registry and the operator bodies of `operations/`.

Values are exact `real`s. Parse and evaluation errors are `Err` values of one `Error` type. Each constructor names an exception the source raises by its own checks; exceptions from Python's runtime limits are listed under "## Left out".

The parsers of `minicalc2.py` and `minicalc3.py` need not terminate, so each of their functions takes a `fuel` bound. `OutOfFuel` is what a parse that never ends returns on every bound.

## Model

| member | source | states |
|---|---|---|
| Lexer.LexFromLocated | mini_calc_work.py:95 | every token `re.findall` returns is a number of the shape `digits` or `digits.digits`, an operator symbol or a parenthesis, standing in the input at its offset; tokens come in source order and do not overlap |
| Lexer.LexFrom | mini_calc_work.py:95 | `re.findall` from an offset finds at most as many tokens as characters remain, each match being non-empty |
| Lexer.NumberEndNumeral | mini_calc_work.py:95 | the scan takes `\d+\.\d+` before `\d+`, and what it takes as a number has one of the two number shapes |
| Lexer.Tokenize | calculator.py:12 | every token of the list is well formed for the alphabet the pattern is built from |
| Lexer.RoundTrip | mini_calc_work.py:95 | writing out a token list with no number directly after another and tokenizing the text gives the list back |
| Lexer.Relexes | mini_calc_work.py:95 | text that is the rendering of lexable tokens tokenizes to exactly those tokens |
| Lexer.HeadStep | mini_calc_work.py:95 | where a token's text stands and nothing after it can extend it, the scan yields that token and goes on after it |
| Numerals.NatTextValue | mini_calc_work.py:153 | the decimal text of a natural number is a number token whose value is that number |
| Numerals.FractionValue | mini_calc_work.py:153 | a `digits.digits` token has the value of its whole part plus its fraction scaled by a power of ten |
| Numerals.LiteralValue | mini_calc_work.py:153 | the value of a number token is never negative |
| Arith.Trunc | operations/factorial.py:9 | `int()` truncates toward zero: the floor for non-negative values, the ceiling for negative ones |
| Arith.TruncIntegral | operations/factorial.py:9 | `int(x) == x` holds exactly when `x` is integral |
| Arith.Fact | mini_calc_work.py:63-66 | the product 1 to n is at least 1 |
| Arith.FactorialLoop | mini_calc_work.py:63-66 | the `for` loop multiplying 1 to n computes the product n! |
| Arith.TruncFactorial | mini_calc_work.py:59-66 | the working factorial truncates with `int()` and, on exact values, fails exactly when the truncation is negative, so it succeeds exactly for values above -1 and gives 1 for values between -1 and 0 |
| Arith.CheckedFactorial | minicalc3.py:31-37 | `factorial` rejects a negative operand before truncating it, so it succeeds exactly for values at least 0, and then agrees with the truncating factorial |
| Arith.Quotient | mini_calc_work.py:45-48 | division fails exactly on a zero divisor, and otherwise the quotient times the divisor is the dividend |
| Arith.DecimalPower | mini_calc_work.py:53-54 | `Decimal ** Decimal` with an integral exponent: the repeated product, its reciprocal for a negative exponent, an error for `0 ** 0` and for a negative base with a fractional exponent |
| Arith.PowNatNonZero | mini_calc_work.py:53-54 | a power of a non-zero base is non-zero, so a negative exponent has a reciprocal |
| MiniCalcWork.TableConsistent | mini_calc_work.py:161-170 | the table is keyed by each operator's own symbol, the tokenizer's class is its keys, only `-` is allowed in prefix position and only `!` is unary |
| MiniCalcWork.Apply | mini_calc_work.py:16-66 | an operator's `execute` fails on the operand count exactly when it does not take that many arguments: two for the binary operators, one for `!`, one or two for `-`; `-` negates one operand and subtracts the second of two from the first |
| MiniCalcWork.Eval | mini_calc_work.py:72-91 | a node evaluates only when every operator in it gets an operand count it takes |
| MiniCalcWork.NoCountError | mini_calc_work.py:82-91 | a tree whose every operator gets a count it takes never fails on the operand count |
| MiniCalcWork.Evaluate | mini_calc_work.py:172-175 | no input line fails on an operand count, because every parsed tree gives each operator a count it takes; a line without tokens is "Unexpected end of input" |
| MiniCalcWork.ParseExpr | mini_calc_work.py:115-136 | `parse_expr` consumes at least one token, which an operand can start with; the last one can end an operand; the loop exits where no operator of precedence at least `min_prec` follows; the measure of remaining tokens decreases, so it terminates |
| MiniCalcWork.ExprLoop | mini_calc_work.py:117-135 | every turn of the operand loop either exits or consumes a token, and it exits only below `min_prec` or at a non-operator |
| MiniCalcWork.ParsePrefix | mini_calc_work.py:138-145 | `parse_prefix` consumes at least one token and starts at a number, `(` or `-` |
| MiniCalcWork.Parse | mini_calc_work.py:109-113 | a tree is returned exactly when `parse_expr(0)` succeeds and leaves the cursor at the token count, and it is that expression's tree; when it stops before the end the first token left is reported as a trailing token at its position; a successful input starts with an operand start and ends with an operand end |
| MiniCalcWork.ParsePrimary | mini_calc_work.py:147-159 | end of input is "Unexpected end of input"; any token other than a number or `(` is "Unexpected token"; after `(` and an expression, a `)` closes the group and yields the inner tree, and anything else is "Expected `)`" at the position the expression stopped; a successful primary starts at a number or `(` |
| MiniCalcWorkProps.LoopInfix | mini_calc_work.py:129-135 | at an infix operator of precedence at least `min_prec`, the loop parses the right operand at `next_min` and folds it in |
| MiniCalcWorkProps.LoopPostfix | mini_calc_work.py:122-128 | at `!` with `min_prec` at most 4, the loop wraps the operand it holds and moves on |
| MiniCalcWorkProps.LoopStops | mini_calc_work.py:118-125 | where the loop exits it returns the operand it holds without consuming |
| MiniCalcWorkProps.InfixGrouping | mini_calc_work.py:129-135 | in `a o1 b o2 c`, the second operator takes `b` exactly when its precedence reaches `o1`'s `next_min`: higher precedence binds tighter, equal precedence groups left, `^` groups right |
| MiniCalcWorkProps.GroupsRight | mini_calc_work.py:132-135 | the right-grouping half of the two-operator case |
| MiniCalcWorkProps.GroupsLeft | mini_calc_work.py:129-131 | the left-grouping half of the two-operator case |
| MiniCalcWorkProps.PostfixBeforeInfix | mini_calc_work.py:122-128 | `a! o b` is `(a!) o b` |
| MiniCalcWorkProps.PostfixAfterInfix | mini_calc_work.py:122-135 | `a o b!` is `a o (b!)` for every infix `o`, `^` included |
| MiniCalcWorkProps.PrefixBindsFirst | mini_calc_work.py:138-145 | `-a o b` is `(-a) o b` for every infix `o`, `^` included |
| MiniCalcWorkProps.PrefixesStack | mini_calc_work.py:140-144 | `--a` is a negation of a negation |
| MiniCalcWorkProps.PrefixBeforePostfix | mini_calc_work.py:116-128 | `-a!` is the factorial of `-a` |
| MiniCalcWorkProps.SingleInfix | mini_calc_work.py:129-135 | `a o b` is one binary node |
| MiniCalcWorkProps.Grouped | mini_calc_work.py:154-158 | `(a o1 b) o2 c` groups `a o1 b` first, whatever the two operators |
| MiniCalcWorkProps.DanglingRejected | mini_calc_work.py:147-159 | for every token list: appending a token no operand can end with (an operator other than `!`, or `(`) makes the parse fail, and so does prepending a token no operand can start with (anything but a number, `(` or `-`, so `)` and `!` included) |
| MiniCalcWorkProps.TrailingNumber | mini_calc_work.py:109-113 | for every token list that parses, appending a number makes `parse` report a trailing token at the number's position |
| MiniCalcWorkProps.ExprExtends | mini_calc_work.py:115-159 | a successful `parse_expr` does not depend on a number placed after the tokens it used: the next token is read only where no operator or `)` follows |
| MiniCalcWorkProps.MinusRule | mini_calc_work.py:28-32 | for all operand trees: `-x` evaluates to the negation of `x`'s value and `x - y` to the difference of the two values |
| MiniCalcWorkProps.NegationValues | mini_calc_work.py:28-30 | a negated number is its value negated, and a double negation is the value itself |
| MiniCalcWorkExamples.PrecedenceExample | mini_calc_work.py:129-135 | `2+3*4` is 14 |
| MiniCalcWorkExamples.LeftAssocExample | mini_calc_work.py:132 | `8/4/2` is 1 |
| MiniCalcWorkExamples.RightAssocExample | mini_calc_work.py:50-54 | `2^3^2` is 512 |
| MiniCalcWorkExamples.PostfixExample | mini_calc_work.py:122-128 | `3!+1` is 7 |
| MiniCalcWorkExamples.NegatedPowerExample | mini_calc_work.py:138-145 | `-2^2` is 4 |
| MiniCalcWorkExamples.NegatedFactorialExample | mini_calc_work.py:59-62 | `-3!` fails: the factorial of a negative number |
| MiniCalcWorkExamples.DivisionByZeroExample | mini_calc_work.py:45-47 | `1/0` fails with division by zero |
| MiniCalcWorkExamples.GroupingExample | mini_calc_work.py:154-158 | `(2+3)*4` is 20 |
| MiniCalcWorkExamples.TrailingOperatorExample | mini_calc_work.py:149-150 | `2+` fails at the end of input |
| MiniCalcWorkExamples.LeadingPlusExample | mini_calc_work.py:159 | `+5` fails with an unexpected token at 0 |
| MiniCalcWorkExamples.UnclosedExample | mini_calc_work.py:102-106 | `(2+3` fails: `)` expected at position 4 |
| MiniCalcWorkExamples.ForeignExample | mini_calc_work.py:109-113 | `2#3` tokenizes to `2`, `3` and fails with a trailing token at 1 |
| MiniCalc2.ParseExpr | minicalc2.py:114-122 | a successful `parse_expr` consumes a token and stops at a token that is not an operator |
| MiniCalc2.ExprLoop | minicalc2.py:116-121 | a loop that ends stops at a token that is not an operator, never before where it started |
| MiniCalc2.ParsePrefix | minicalc2.py:145-152 | a successful `parse_prefix` consumes at least one token |
| MiniCalc2.HandleOperator | minicalc2.py:124-143 | the cursor never moves back; below `min_prec` the binary handler returns `left` without consuming, which is what makes the loop spin (the non-termination itself is `MiniCalc2.Spins`) |
| MiniCalc2.ParsePrimary | minicalc2.py:154-166 | end of input is "Unexpected end of input"; a token other than a number or `(` is "Unexpected token"; after `(` and an expression, `)` yields the inner tree and anything else is "Expected `)`" where the expression stopped; a successful primary consumes a token |
| MiniCalc2.Parse | minicalc2.py:108-112 | a tree is returned exactly when `parse_expr(0)` succeeds at the token count, and it is that expression's tree; stopping earlier reports the first token left as a trailing token |
| MiniCalc2.NoUnaryHandler | minicalc2.py:124-128 | no operator is both unary and allowed in prefix position, so the unary handler is never used |
| MiniCalc2.Spins | minicalc2.py:116-121 | once the loop meets an operator below its minimum precedence it runs out of every fuel bound at the same position |
| MiniCalc2.LoopKeepsLeft | minicalc2.py:116-121 | the operand loop only grows its left operand |
| MiniCalc2.ExprAgrees | minicalc2.py:114-122 | a `parse_expr` that succeeds without meeting `!` builds what the working parser builds |
| MiniCalc2.LoopAgrees | minicalc2.py:135-143 | the same for the operand loop |
| MiniCalc2.PrefixAgrees | minicalc2.py:145-152 | the same for `parse_prefix` |
| MiniCalc2.PrimaryAgrees | minicalc2.py:154-166 | the same for `parse_primary` |
| MiniCalc2.ParseAgrees | minicalc2.py:108-112 | a parse that succeeds without `!` is the working calculator's parse, so the two compute the same result |
| MiniCalc2.Evaluate | minicalc2.py:179-182 | a line whose parse succeeds without meeting `!` evaluates to what the working calculator gives |
| MiniCalc2.ExprMonotone | minicalc2.py:114-122 | a `parse_expr` that does not run out of fuel gives the same tree or error with any larger bound |
| MiniCalc2.LoopMonotone | minicalc2.py:116-121 | the same for the operand loop |
| MiniCalc2.HandleMonotone | minicalc2.py:135-143 | the same for the binary handler |
| MiniCalc2.PrefixMonotone | minicalc2.py:145-152 | the same for `parse_prefix` |
| MiniCalc2.PrimaryMonotone | minicalc2.py:154-166 | the same for `parse_primary` |
| MiniCalc2.ParseMonotone | minicalc2.py:108-112 | a whole parse that does not run out of fuel is the same with every larger bound |
| MiniCalc2Examples.GroupsRight | minicalc2.py:137-143 | in `a o1 b o2 c` with `o2` reaching `o1`'s `next_min`, this parser agrees with the working one |
| MiniCalc2Examples.GroupsLeftSpins | minicalc2.py:137-139 | in `a o1 b o2 c` with `o2` below `o1`'s `next_min`, the parse never ends |
| MiniCalc2Examples.InfixGrouping | minicalc2.py:135-143 | both halves together: the right-grouping case parses as in the working calculator and the left-grouping one spins |
| MiniCalc2Examples.FactorialWantsOperand | minicalc2.py:135-143 | `a!` fails at the end of input, because `!` goes to the binary handler |
| MiniCalc2Examples.FactorialAsBinary | minicalc2.py:135-143 | `a!b` parses as a binary `!`, whose evaluation fails on the operand count |
| MiniCalc2Examples.SumSpins | minicalc2.py:116-121 | `1+2+3` never ends |
| MiniCalc2Examples.PowerTower | minicalc2.py:140-143 | `2^3^2` is 512, because `next_min` is the precedence itself for `^` |
| MiniCalc3.TableConsistent | minicalc3.py:41-48 | the table's keys are the tokenizer's class, which has no parentheses; `!` alone maps to factorial |
| MiniCalc3.Apply | minicalc3.py:9-37 | a function called with the wrong number of arguments fails, and factorial is the checked factorial |
| MiniCalc3.Strip | minicalc3.py:89 | deleting spaces leaves no space and every other character |
| MiniCalc3.StripAppend | minicalc3.py:89 | deleting spaces from a concatenation is deleting them from each part, so the other characters keep their order |
| MiniCalc3.StripChar | minicalc3.py:89 | a space is deleted and any other character is kept |
| MiniCalc3.StripIdempotent | minicalc3.py:89 | deleting spaces twice is deleting them once |
| MiniCalc3.ParseExpr | minicalc3.py:109-117 | a successful `parse_expr` consumes a token and stops at a token not in the table |
| MiniCalc3.ExprLoop | minicalc3.py:111-117 | the loop exits only at a token not in the table, keeping its operand |
| MiniCalc3.HandleOperator | minicalc3.py:119-136 | the cursor never moves back; a binary function met where the minimum precedence is above 1 is handed back without being consumed, which is what makes the loop spin (the non-termination itself is `MiniCalc3Props.Spins`) |
| MiniCalc3.ParseTerm | minicalc3.py:138-145 | a successful term consumes a token; past the last token it fails on the missing token |
| MiniCalc3.ParseFactor | minicalc3.py:147-161 | a successful factor consumes a token; past the last token it fails on the missing token; a number is a leaf; `)` or an operator other than `!` is "Unexpected token" at its position |
| MiniCalc3.ParsePrimary | minicalc3.py:163-175 | a number is a leaf; end of input is "Unexpected end of input"; an operator or `)` is "Unexpected token" at its position |
| MiniCalc3.Enclosed | minicalc3.py:152-156 | a parenthesised expression ends at `)` |
| MiniCalc3.Parse | minicalc3.py:103-107 | a tree is returned exactly when `parse_expr(0)` succeeds and consumes every token, and it is that expression's tree; stopping earlier is "Unexpected token at end" at the first token left |
| MiniCalc3.ExprMonotone | minicalc3.py:109-117 | a `parse_expr` that does not run out of fuel gives the same tree or error with any larger bound |
| MiniCalc3.LoopMonotone | minicalc3.py:111-117 | the same for the operand loop |
| MiniCalc3.HandleMonotone | minicalc3.py:119-136 | the same for `handle_operator` |
| MiniCalc3.TermMonotone | minicalc3.py:138-145 | the same for `parse_term` |
| MiniCalc3.FactorMonotone | minicalc3.py:147-161 | the same for `parse_factor` |
| MiniCalc3.PrimaryMonotone | minicalc3.py:163-175 | the same for `parse_primary` |
| MiniCalc3.EnclosedMonotone | minicalc3.py:152-156 | the same for a parenthesised expression |
| MiniCalc3.ParseMonotone | minicalc3.py:103-107 | a whole parse that does not run out of fuel is the same with every larger bound |
| MiniCalc3.Tokens3 | minicalc3.py:89-90 | no parenthesis token ever reaches the parser |
| MiniCalc3.Eval | minicalc3.py:59-82 | a tree evaluates only when every function in it is called with as many arguments as it takes |
| MiniCalc3.Evaluate | minicalc3.py:183-186 | a result comes only from a parsed tree whose every call has the right argument count |
| MiniCalc3Props.DropsLeft | minicalc3.py:119-127 | at `!` the loop's outcome does not depend on the operand it held |
| MiniCalc3Props.Spins | minicalc3.py:129-136 | a binary function met with minimum precedence above 1 makes the loop run out of every fuel bound |
| MiniCalc3Props.RightOperandSpins | minicalc3.py:129-136 | a right operand followed by another binary function never ends |
| MiniCalc3Props.SingleBinary | minicalc3.py:129-136 | `a o b` is one binary node |
| MiniCalc3Props.TwoBinarySpins | minicalc3.py:109-136 | `a o1 b o2 c` never ends, whatever the two functions |
| MiniCalc3Props.FactorialDropsOperand | minicalc3.py:119-127 | `a!b` is the factorial of `b` |
| MiniCalc3Props.FactorialAtEnd | minicalc3.py:119-127 | `a!` fails on the missing token |
| MiniCalc3Props.FactorialFirst | minicalc3.py:157-160 | `!a` is the factorial of `a` |
| MiniCalc3Props.SignedNumber | minicalc3.py:140-144 | `-a` and `+a` parse as a one-argument call of a two-argument function, whose evaluation fails |
| MiniCalc3Props.FactorialsDiffer | minicalc3.py:31-37 | this factorial and the working one agree except between -1 and 0, where only the working one succeeds |
| MiniCalc3Examples.DropsExample | minicalc3.py:119-127 | `3!4` is 24 |
| MiniCalc3Examples.SumProductSpins | minicalc3.py:109-117 | `1+2*3` never ends |
| MiniCalc3Examples.NegativeExample | minicalc3.py:140-144 | `-5` fails on the operand count |
| MiniCalc3Examples.LeadingBangExample | minicalc3.py:157-160 | `!5` is 120 |
| MiniCalc3Examples.TrailingBangExample | minicalc3.py:119-122 | `3!` fails on the missing token |
| MiniCalc3Examples.JoinedExample | minicalc3.py:89 | `1 2` is the number 12 |
| MiniCalc3Examples.ParenExample | minicalc3.py:90 | `(1+2)` is read as `1+2`, which is 3 |
| Operations.RegistryComplete | operations/const.py:23-35 | every one of the eleven operator classes is registered |
| Operations.RegistryInjective | operations/const.py:23-35 | each symbol maps to its own class, so the eleven entries are distinct |
| Operations.RegistryKeys | calculator.py:12 | the tokenizer's class is exactly the registry's keys |
| Operations.RegistryFlags | operations/const.py:12-22 | every arity is 2 except modulo's, which is 4; none is 1; `side_oper` holds exactly for negative and factorial |
| Operations.ArithmeticPowers | operations/const.py:12-22 | `+ -` have power 1, `* / %` 2, `^` 3, and every power lies between 1 and 7 |
| Operations.SpecialPowers | operations/const.py:12-22 | `@ $ &` have power 5, `~` 6, `!` 7, and none has 4 |
| Operations.Mean | operations/average.py:7-8 | the average lies between the minimum and the maximum, at the same distance from both operands |
| Operations.MeanSymmetric | operations/average.py:8 | the average is commutative, the average of `a` and `a` is `a`, and it is the midpoint of the minimum and the maximum |
| Operations.Max | operations/maximum.py:8-9 | the maximum is at least both operands and is one of them |
| Operations.MaxLaws | operations/maximum.py:9 | the maximum is commutative, idempotent and associative |
| Operations.Min | operations/minimum.py:8-9 | the minimum is at most both operands and is one of them |
| Operations.MinLaws | operations/minimum.py:9 | the minimum is commutative, idempotent and associative, and minimum plus maximum is the sum |
| Operations.Negate | operations/negative.py:8-9 | `x + neg(x) == 0` and the sign flips |
| Operations.NegateTwice | operations/negative.py:9 | negating twice gives the number back, and zero is its own negation |
| Operations.IntegralFactorial | operations/factorial.py:8-11 | succeeds exactly for integral values at least 0; fails with a `ValueError` on a non-integral value and from `math.factorial` on a negative integer; the result is at least 1 |
| Operations.FactorialStep | operations/factorial.py:11 | `0! = 1` and `n! = n * (n-1)!` for integral `n >= 1` |
| Operations.Apply | operations/const.py:12-22 | average, maximum, minimum, negative and factorial compute their bodies and fail exactly on an operand count their `execute_operation` does not take; the other classes are given from outside |
| Operations.ArityMismatch | operations/negative.py:8-9 | negative and factorial are registered with arity 2 but take one argument, so as binary operators they always fail |
| Calculator.ParseExpression | calculator.py:19-28 | a successful expression consumes a token, builds no unary node, and stops at a token that is not an arity-2 operator; past the end it is an index error |
| Calculator.ExpressionLoop | calculator.py:22-27 | the loop folds arity-2 operators and returns its operand untouched when none follows |
| Calculator.ParseTerm | calculator.py:30-39 | the same for `parse_term` |
| Calculator.TermLoop | calculator.py:33-38 | the same for its loop |
| Calculator.ParseFactor | calculator.py:41-52 | `tokens[pos]` past the end is an index error; a successful factor builds no unary node |
| Calculator.ParsePrimary | calculator.py:54-65 | a number token becomes a leaf of its value; an operator or `)` is an unexpected token; past the end is an index error |
| Calculator.Parse | calculator.py:15-17 | empty input is an index error; leftover tokens are not checked |
| Calculator.Eval | tree/binary_op_node.py:9-10 | a tree evaluates only when it has no unary node and no binary negative or factorial |
| Calculator.Execute | calculator.py:72-78 | an empty line fails at index 0; a result comes only from a parsed tree that is evaluable |
| CalculatorProps.ExpressionIsTerm | calculator.py:19-39 | `parse_expression` is `parse_term`: its loop never turns |
| CalculatorProps.FoldLeft | calculator.py:30-39 | the reference fold of a chain builds no unary node |
| CalculatorProps.TermLoopFolds | calculator.py:33-38 | the loop entered after the `i`-th operand of a chain builds the left fold of the whole chain |
| CalculatorProps.ChainFoldsLeft | calculator.py:15-39 | numbers joined by arity-2 operators parse as their left fold whatever the precedences, and the tokens after the chain are not looked at |
| CalculatorProps.NoUnaryBranch | calculator.py:44-52 | with this registry `parse_factor` is `parse_primary` |
| CalculatorProps.UnaryUnbuildable | calculator.py:44-51 | with an arity-1 operator the factor branch never yields a tree, because `UnaryOpNode` cannot be built |
| CalculatorProps.CloserUnchecked | calculator.py:60-64 | after `(` and an expression the cursor skips one token without looking at it |
| CalculatorProps.SingleOperator | calculator.py:30-39 | `a o b` with `o` of arity 2 is one binary node, whatever follows |
| CalculatorProps.TwoOperators | calculator.py:30-39 | `a o1 b o2 c` is `(a o1 b) o2 c` whatever the operators |
| CalculatorProps.SideOperatorInfix | operations/const.py:21-22 | `a~b` and `a!b` parse as binary nodes and fail when evaluated |
| CalculatorProps.LeadingSideOperator | calculator.py:41-65 | a leading `~` or `!` is an unexpected token |
| CalculatorExamples.SumProductExample | calculator.py:19-39 | `2+3*4` is `(2+3)*4` |
| CalculatorExamples.AverageExample | operations/average.py:7-8 | `10@4` is 7 |
| CalculatorExamples.MaximumExample | operations/maximum.py:8-9 | `10$3` is 10 |
| CalculatorExamples.MinimumExample | operations/minimum.py:8-9 | `10&3` is 3 |
| CalculatorExamples.MaxMeanExample | calculator.py:30-39 | `4$2@8` is `(4$2)@8`, 6, not `4$(2@8)`, 5 |
| CalculatorExamples.ModuloExample | operations/const.py:17 | `5%2` stops at the arity-4 `%` and is 5 |
| CalculatorExamples.JoinedExample | calculator.py:15-17 | `1 2` is 1: the second number is never looked at |
| CalculatorExamples.NegativeInfixExample | operations/negative.py:8-9 | `3~2` fails on the operand count |
| CalculatorExamples.FactorialInfixExample | operations/factorial.py:8 | `3!2` fails on the operand count |
| CalculatorExamples.LeadingTildeExample | calculator.py:65 | `~5` is an unexpected token at 0 |
| CalculatorExamples.EmptyExample | calculator.py:43 | empty input is an index error at 0 |
| CalculatorExamples.DanglingOperator | calculator.py:37 | a number followed by an arity-2 operator is an index error at 2 |
| CalculatorExamples.TrailingPlusExample | calculator.py:43 | `2+` is an index error at 2 |
| CalculatorExamples.TrailingBangExample | calculator.py:43 | `5!` is an index error at 2 |
| CalculatorExamples.UnclosedExample | calculator.py:63 | `(2` is 2: the missing `)` goes unnoticed |

## Left out

- The interactive read-print loops are input and output, so they are not modelled. They are at `mini_calc_work.py:177-185`, `minicalc2.py:184-192`, `minicalc3.py:190-196` and `calculator.py:81-85`. This includes the `replace(" ", "")` in `calculator.py:83`. `Execute` takes the line as given.
- The `Decimal` context precision of 28 digits and `float` rounding are left out: values are exact reals, so no quotient or product is rounded.
- Arith.DecimalPower: a fractional exponent on a positive base returns the `OutsideModel` error. This includes the cases `Decimal` computes exactly, such as `4 ** 0.5 == 2`; in general the result is irrational and rounded to the context's 28 digits, which exact reals do not represent. A zero base with a negative exponent, which `Decimal` gives as infinity, returns `OutsideModel` too.
- Arith.DecimalPower: a result of magnitude 10^1000000 or more raises `decimal.Overflow` in the source (the default context keeps `Emax = 999999` with the overflow trap on; only the precision is changed), so `10 ^ 1000000` is an error there; the model returns the exact power.
- Arith.FactorialLoop: the `Decimal` loop raises `decimal.Overflow` once the product reaches 10^1000000, which happens for n around 205000; the model computes n! for every n.
- Arith.TruncFactorial: for the same reason the working factorial of a large operand, such as `300000!`, is an overflow error in the source and a value in the model; "fails exactly when the truncation is negative" holds below that bound.
- Arith.CheckedFactorial: the `minicalc3.py` factorial overflows in the same way on large operands, and the model returns the exact value.
- MiniCalcWork.Apply, MiniCalc3.Apply: sums, differences, products and quotients whose magnitude reaches 10^1000000 likewise raise `decimal.Overflow`; exact reals have no such bound.
- The bodies of `operations/plus.py`, `minus.py`, `multiple.py`, `divide.py`, `modulo.py` and `power.py` are not part of this model. `Operations.Apply` takes them as the function parameter `hidden`, and every result through those classes is stated in terms of it.
- `operations/operator.py` and `tree/node.py` are abstract bases without computation. Their fields are the `Operator` record and the `Node` datatype.
- The tokenizer reads ASCII digits only, where Python's `\d` also matches other Unicode digits. The regex engine itself is replaced by the explicit scan `LexFrom`.
- Error message texts, in Hebrew and English, are left out; only the kind of error is kept.
- MiniCalcWork.Parse, MiniCalcWork.Eval, MiniCalc2.Parse, MiniCalc3.Parse, MiniCalc3.Eval, Calculator.Parse, Calculator.Eval: Python's recursion limit of about 1000 frames is not modelled. The parsers recurse once per prefix operator and per nested group, so `"-" * 1000 + "5"` raises `RecursionError` in `parse_prefix` (`mini_calc_work.py:143`). Evaluation recurses once per tree level, so `"1" + "+1" * 1000` parses but raises `RecursionError` in `BinaryOpNode.evaluate` (`mini_calc_work.py:91`, `tree/binary_op_node.py:10`). The model has no depth bound and returns the value in both cases.
- Evaluation is a pure function. That each subtree is evaluated exactly once, and that the stored values are not modified, holds by construction and is not stated separately.
- The number checks in the parsers are not re-checked: `re.match(...)` in `mini_calc_work.py:151`, `isdigit()` in `minicalc3.py`, and `isdigit() or '.' in` in `calculator.py:57`. The tokenizer only produces numbers of the shape `digits` or `digits.digits` (`Lexer.Tokenize`), and every such token passes those checks, so a number token always becomes a leaf.
- `UnaryOpNode` in `tree/unary_op_node.py` defines `execute` but not the abstract `execute_operation`, so it cannot be built. `Calculator.Eval` returns `AbstractNode` for a unary node, a case no parse reaches (`Calculator.Parse` ensures `NoUnary`).
- MiniCalc2.Parse, MiniCalc3.Parse: the fuel bound stands for the loops that never end. A parse that does not run out of fuel gives the same outcome with every larger bound (`MiniCalc2.ParseMonotone`, `MiniCalc3.ParseMonotone`), and `OutOfFuel` on every bound is how non-termination is stated. Termination is not proved for these two parsers, since they do not terminate.

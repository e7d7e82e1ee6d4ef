/** Outcomes shared by every variant of the calculator: a value, or the kind of
    exception the Python code would raise. Message texts are not modelled. */
module Results {

  datatype Error =
    | UnexpectedEnd                  // a primary position holds no token
    | UnexpectedToken(at: nat)       // a primary or factor position holds a token it cannot start with
    | Expected(want: char, at: nat)  // `consume(expected)` met another token or the end
    | TrailingToken(at: nat)         // `parse()` finished before the last token
    | NoToken                        // an attribute of the missing token was read (`None.isdigit()`)
    | IndexOutOfRange(at: nat)       // `tokens[pos]` read past the end
    | DivisionByZero
    | NegativeFactorial
    | NonIntegralFactorial
    | InvalidPower                   // the decimal `**` signals an invalid operation
    | WrongOperandCount              // an operator called with a number of operands it does not take
    | AbstractNode                   // a tree node without the evaluation method its parent calls
    | OutsideModel                   // a result exact reals do not represent (an infinity, a power with a fractional exponent)
    | OutOfFuel                      // the fuel bound of a non-terminating parser was reached

  /** A value or an error; usable with `:-`. */
  datatype Result<+T> = Ok(value: T) | Err(error: Error) {

    predicate IsFailure() {
      Err?
    }

    function PropagateFailure<U>(): Result<U>
      requires Err?
    {
      Err(error)
    }

    function Extract(): T
      requires Ok?
    {
      value
    }
  }
}

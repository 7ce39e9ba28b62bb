/** Optional values and results shared by the lexer, the evaluator and the calculator class. */
module Outcomes {

  /** `None` stands for the `null` that `evaluate` returns on an invalid statement. */
  datatype Option<+T> = None | Some(value: T)

  /**
   * The places where CalculatorImpl throws IllegalArgumentException, told apart.
   * The Java code throws the same exception type at every one of them.
   */
  datatype Failure =
    | NoExpression      // the first token is already the end of the expression
    | TrailingToken     // a complete expression is followed by a token other than the end
    | DivisionByZero    // the right operand of '/' is zero
    | UnclosedBracket   // a '(' whose sub-expression is not followed by ')'
    | NotANumber        // an operand is required and the current token is not a number
    | MalformedNumber   // the number token is not a valid floating-point literal

  /** The value of a computation, or the failure that ends the evaluation. */
  datatype Result<+T> = Ok(value: T) | Err(failure: Failure)
}

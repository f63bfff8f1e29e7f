/** Failure kinds raised by the evaluator, and the result type that carries them. */
module Results {

  /** One constructor per way an evaluation can fail. */
  datatype Error =
    | UnexpectedEnd       // "stream ended unexpectedly": no token where a value is needed
    | UnmatchedParen      // "unmatched '('": the token after a parenthesised expression is not ")"
    | InvalidLiteral      // std::stoi found no digits (std::invalid_argument)
    | LiteralOutOfRange   // std::stoi's value does not fit an int (std::out_of_range)
    | InvalidOperator     // compute's default branch: "invalid operator"
    | DivisionByZero      // '/' with a zero divisor (undefined behaviour in C++)
    | ZeroToNegativePower // '^' of 0 with a negative exponent: pow's pole, an infinite double with no int value

  datatype Result<T> = Ok(value: T) | Err(error: Error)
}

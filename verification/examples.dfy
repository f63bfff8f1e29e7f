/** Concrete expressions and what `pcparse` makes of them. Each is stated on the expression string;
    the lemma beside it works on the token list the string spells out. */
module Examples {
  import opened Results
  import opened Operators
  import opened Arith
  import opened Literal
  import opened Tokens
  import opened Evaluator
  import opened Properties

  /** Evaluating tokens written out with single spaces is climbing over those tokens from the start. */
  lemma Spelled(expr: string, t: seq<string>)
    requires forall i :: 0 <= i < |t| ==> IsToken(t[i])
    requires expr == Join(t)
    ensures Evaluate(expr) == Value(Climb(t, 0, 1))
  {
    TokenizeJoin(t);
  }

  /** The driver's expression: the parentheses are evaluated first. */
  lemma DriverExpression()
    ensures Evaluate("( 9 - 8 ) - 7") == Ok(-6)
  {
    DriverExpressionTokens("( 9 - 8 ) - 7", ["(", "9", "-", "8", ")", "-", "7"]);
  }

  lemma DriverExpressionTokens(expr: string, t: seq<string>)
    requires |t| == 7 && t[0] == "(" && t[1] == "9" && t[2] == "-" && t[3] == "8" && t[4] == ")" &&
      t[5] == "-" && t[6] == "7" && expr == Join(t)
    ensures Evaluate(expr) == Ok(-6)
  {
    assert Decimal(9) == "9" && Decimal(8) == "8" && Decimal(7) == "7";
    ParenthesesGroupFirst(t, 9, "-", 8, "-", 7);
    Spelled(expr, t);
  }

  /** A product binds tighter than the sum after it. */
  lemma ProductBeforeSum()
    ensures Evaluate("6 * 7 + 4") == Ok(46)
  {
    ProductBeforeSumTokens("6 * 7 + 4", ["6", "*", "7", "+", "4"]);
  }

  lemma ProductBeforeSumTokens(expr: string, t: seq<string>)
    requires |t| == 5 && t[0] == "6" && t[1] == "*" && t[2] == "7" && t[3] == "+" && t[4] == "4"
    requires expr == Join(t)
    ensures Evaluate(expr) == Ok(46)
  {
    assert Decimal(6) == "6" && Decimal(7) == "7" && Decimal(4) == "4";
    GroupsLeft(t, 6, "*", 7, "+", 4);
    Spelled(expr, t);
  }

  /** Both products are evaluated before the difference between them. */
  lemma ProductsAroundDifference()
    ensures Evaluate("11 * 2 - 8 / 2") == Ok(18)
  {
    ProductsAroundDifferenceTokens("11 * 2 - 8 / 2", ["11", "*", "2", "-", "8", "/", "2"]);
  }

  lemma ProductsAroundDifferenceTokens(expr: string, t: seq<string>)
    requires |t| == 7 && t[0] == "11" && t[1] == "*" && t[2] == "2" && t[3] == "-" && t[4] == "8" &&
      t[5] == "/" && t[6] == "2" && expr == Join(t)
    ensures Evaluate(expr) == Ok(18)
  {
    ProductsAroundDifferenceClimb(t);
    Spelled(expr, t);
  }

  lemma ProductsAroundDifferenceClimb(t: seq<string>)
    requires |t| == 7 && t[0] == "11" && t[1] == "*" && t[2] == "2" && t[3] == "-" && t[4] == "8" &&
      t[5] == "/" && t[6] == "2"
    ensures Climb(t, 0, 1) == Ok(Eval(18, 7))
  {
    assert Decimal(11) == "11" && Decimal(2) == "2";
    ProductsAroundDifferenceRight(t);
    assert Climb(t, 2, 2) == Ok(Eval(2, 3)) by {
      ClimbLiteral(t, 2, 2, 2);
    }
    assert ClimbLoop(t, 11, 1, 1, false) == Ok(Eval(18, 7));
    PrimaryLiteral(t, 0, 11);
  }

  /** After 11 * 2: the put-back "-" and the quotient 8 / 2 on its right. */
  lemma ProductsAroundDifferenceRight(t: seq<string>)
    requires |t| == 7 && t[3] == "-" && t[4] == "8" && t[5] == "/" && t[6] == "2"
    ensures ClimbLoop(t, 22, 3, 1, true) == Ok(Eval(18, 7))
  {
    assert Decimal(2) == "2" && Decimal(8) == "8";
    assert Climb(t, 4, 1) == Ok(Eval(4, 7)) by {
      PrimaryLiteral(t, 4, 8);
      LastOperation(t, 8, 5, "/", 2, false);
      TruncDivNonNegative(8, 2);
    }
    assert Seen(t, 3, true) == "-" && NextMinPrec("-") == 1;
    assert Compute("-", 22, 4) == Ok(18);
  }

  /** A parenthesised product as the last operand. */
  lemma ParenthesisedSubtrahend()
    ensures Evaluate("1 + 14 - ( 8 * 2 )") == Ok(-1)
  {
    var front, group := ["1", "+", "14", "-"], ["(", "8", "*", "2", ")"];
    assert Join(front + group) == "1 + 14 - ( 8 * 2 )" by {
      JoinAppend(front, group);
      assert Join(front) == "1 + 14 -";
      assert Join(group) == "( 8 * 2 )";
    }
    ParenthesisedSubtrahendTokens("1 + 14 - ( 8 * 2 )", front + group);
  }

  lemma ParenthesisedSubtrahendTokens(expr: string, t: seq<string>)
    requires |t| == 9 && t[0] == "1" && t[1] == "+" && t[2] == "14" && t[3] == "-" && t[4] == "(" &&
      t[5] == "8" && t[6] == "*" && t[7] == "2" && t[8] == ")" && expr == Join(t)
    ensures Evaluate(expr) == Ok(-1)
  {
    ParenthesisedSubtrahendClimb(t);
    Spelled(expr, t);
  }

  lemma ParenthesisedSubtrahendClimb(t: seq<string>)
    requires |t| == 9 && t[0] == "1" && t[1] == "+" && t[2] == "14" && t[3] == "-" && t[4] == "(" &&
      t[5] == "8" && t[6] == "*" && t[7] == "2" && t[8] == ")"
    ensures Climb(t, 0, 1) == Ok(Eval(-1, 9))
  {
    assert Decimal(1) == "1" && Decimal(14) == "14";
    ParenthesisedProduct(t);
    assert ClimbLoop(t, 14, 3, 1, false) == Ok(Eval(-2, 9));
    assert Climb(t, 2, 1) == Ok(Eval(-2, 9)) by {
      PrimaryLiteral(t, 2, 14);
    }
    assert ClimbLoop(t, 1, 1, 1, false) == Ok(Eval(-1, 9));
    PrimaryLiteral(t, 0, 1);
  }

  lemma ParenthesisedProduct(t: seq<string>)
    requires |t| == 9 && t[0] == "1" && t[1] == "+" && t[2] == "14" && t[3] == "-" && t[4] == "(" &&
      t[5] == "8" && t[6] == "*" && t[7] == "2" && t[8] == ")"
    ensures Climb(t, 4, 1) == Ok(Eval(16, 9))
  {
    ParenthesisedProductInner(t);
    assert Primary(t, 4) == Ok(Eval(16, 9));
  }

  lemma ParenthesisedProductInner(t: seq<string>)
    requires |t| == 9 && t[5] == "8" && t[6] == "*" && t[7] == "2" && t[8] == ")"
    ensures Climb(t, 5, 1) == Ok(Eval(16, 8))
  {
    assert Primary(t, 5) == Ok(Eval(8, 6)) by {
      assert Decimal(8) == "8";
      PrimaryLiteral(t, 5, 8);
    }
    assert Climb(t, 7, 2) == Ok(Eval(2, 8)) by {
      assert Decimal(2) == "2";
      ClimbLiteral(t, 7, 2, 2);
    }
    assert ClimbLoop(t, 16, 8, 1, true) == Ok(Eval(16, 8)) by {
      assert Seen(t, 8, true) == ")";
    }
    assert ClimbLoop(t, 8, 6, 1, false) == Ok(Eval(16, 8)) by {
      assert Seen(t, 6, false) == "*" && NextMinPrec("*") == 2 && Compute("*", 8, 2) == Ok(16);
    }
  }

  /** A chain of differences groups to the right: 9 - (8 - 7). */
  lemma DifferencesGroupRight()
    ensures Evaluate("9 - 8 - 7") == Ok(8)
  {
    DifferencesGroupRightTokens("9 - 8 - 7", ["9", "-", "8", "-", "7"]);
  }

  lemma DifferencesGroupRightTokens(expr: string, t: seq<string>)
    requires |t| == 5 && t[0] == "9" && t[1] == "-" && t[2] == "8" && t[3] == "-" && t[4] == "7"
    requires expr == Join(t)
    ensures Evaluate(expr) == Ok(8)
  {
    assert Decimal(9) == "9" && Decimal(8) == "8" && Decimal(7) == "7";
    GroupsRight(t, 9, "-", 8, "-", 7);
    Spelled(expr, t);
  }

  /** A chain of powers groups to the left: (2 ^ 3) ^ 2. */
  lemma PowersGroupLeft()
    ensures Evaluate("2 ^ 3 ^ 2") == Ok(64)
  {
    PowersGroupLeftTokens("2 ^ 3 ^ 2", ["2", "^", "3", "^", "2"]);
  }

  lemma PowersGroupLeftTokens(expr: string, t: seq<string>)
    requires |t| == 5 && t[0] == "2" && t[1] == "^" && t[2] == "3" && t[3] == "^" && t[4] == "2"
    requires expr == Join(t)
    ensures Evaluate(expr) == Ok(64)
  {
    assert Decimal(2) == "2" && Decimal(3) == "3";
    PowChainMultipliesExponents(t, 2, 3, 2);
    assert Pow(2, 6) == 64;
    Spelled(expr, t);
  }

  /** A power binds tighter than the difference after it. */
  lemma PowerBeforeDifference()
    ensures Evaluate("4 ^ 2 - 8") == Ok(8)
  {
    PowerBeforeDifferenceTokens("4 ^ 2 - 8", ["4", "^", "2", "-", "8"]);
  }

  lemma PowerBeforeDifferenceTokens(expr: string, t: seq<string>)
    requires |t| == 5 && t[0] == "4" && t[1] == "^" && t[2] == "2" && t[3] == "-" && t[4] == "8"
    requires expr == Join(t)
    ensures Evaluate(expr) == Ok(8)
  {
    assert Decimal(4) == "4" && Decimal(2) == "2" && Decimal(8) == "8";
    GroupsLeft(t, 4, "^", 2, "-", 8);
    assert Pow(4, 2) == 16;
    Spelled(expr, t);
  }

  /** An operator with nothing after it: the stream ends where a value is needed. */
  lemma MissingOperand()
    ensures Evaluate("1 +") == Err(UnexpectedEnd)
  {
    MissingOperandTokens("1 +", ["1", "+"]);
  }

  lemma MissingOperandTokens(expr: string, t: seq<string>)
    requires |t| == 2 && t[0] == "1" && t[1] == "+" && expr == Join(t)
    ensures Evaluate(expr) == Err(UnexpectedEnd)
  {
    assert Decimal(1) == "1";
    PrimaryLiteral(t, 0, 1);
    assert Climb(t, 2, 1) == Err(UnexpectedEnd);
    Spelled(expr, t);
  }

  /** No token at all: the stream ends where a value is needed. */
  lemma EmptyExpression()
    ensures Evaluate("") == Err(UnexpectedEnd)
  {
    EmptyExpressionTokens("", []);
  }

  lemma EmptyExpressionTokens(expr: string, t: seq<string>)
    requires |t| == 0 && expr == Join(t)
    ensures Evaluate(expr) == Err(UnexpectedEnd)
  {
    Spelled(expr, t);
  }

  /** A parenthesis never closed is reported as unmatched, not as an unexpected end. */
  lemma UnclosedParenthesis()
    ensures Evaluate("( 1 + 2") == Err(UnmatchedParen)
  {
    UnclosedParenthesisTokens("( 1 + 2", ["(", "1", "+", "2"]);
  }

  lemma UnclosedParenthesisTokens(expr: string, t: seq<string>)
    requires |t| == 4 && t[0] == "(" && t[1] == "1" && t[2] == "+" && t[3] == "2" && expr == Join(t)
    ensures Evaluate(expr) == Err(UnmatchedParen)
  {
    UnclosedParenthesisClimb(t);
    Spelled(expr, t);
  }

  lemma UnclosedParenthesisClimb(t: seq<string>)
    requires |t| == 4 && t[0] == "(" && t[1] == "1" && t[2] == "+" && t[3] == "2"
    ensures Climb(t, 0, 1) == Err(UnmatchedParen)
  {
    assert Decimal(1) == "1" && Decimal(2) == "2";
    assert Climb(t, 1, 1) == Ok(Eval(3, 4)) by {
      PrimaryLiteral(t, 1, 1);
      LastOperation(t, 1, 2, "+", 2, false);
    }
    assert Primary(t, 0) == Err(UnmatchedParen);
  }

  /** An unknown operator inside parentheses ends the inner climb, and the token after it is then not
      the closing parenthesis. */
  lemma UnknownOperatorInParentheses()
    ensures Evaluate("( 1 x 2 )") == Err(UnmatchedParen)
  {
    UnknownOperatorInParenthesesTokens("( 1 x 2 )", ["(", "1", "x", "2", ")"]);
  }

  lemma UnknownOperatorInParenthesesTokens(expr: string, t: seq<string>)
    requires |t| == 5 && t[0] == "(" && t[1] == "1" && t[2] == "x" && t[3] == "2" && t[4] == ")"
    requires expr == Join(t)
    ensures Evaluate(expr) == Err(UnmatchedParen)
  {
    assert Decimal(1) == "1";
    assert Climb(t, 1, 1) == Ok(Eval(1, 2)) by {
      PrimaryLiteral(t, 1, 1);
      assert ClimbLoop(t, 1, 2, 1, false) == Ok(Eval(1, 2));
    }
    assert Primary(t, 0) == Err(UnmatchedParen);
    Spelled(expr, t);
  }

  /** A separate minus sign in value position is not a negation: std::stoi rejects it. */
  lemma SeparateMinusRejected()
    ensures Evaluate("- 8") == Err(InvalidLiteral)
  {
    SeparateMinusRejectedTokens("- 8", ["-", "8"]);
  }

  lemma SeparateMinusRejectedTokens(expr: string, t: seq<string>)
    requires |t| == 2 && t[0] == "-" && t[1] == "8" && expr == Join(t)
    ensures Evaluate(expr) == Err(InvalidLiteral)
  {
    NoUnaryMinus(t, 0, 1);
    Spelled(expr, t);
  }

  /** Empty parentheses: the closing parenthesis is read where a value is needed and std::stoi rejects it. */
  lemma EmptyParentheses()
    ensures Evaluate("( )") == Err(InvalidLiteral)
  {
    EmptyParenthesesTokens("( )", ["(", ")"]);
  }

  lemma EmptyParenthesesTokens(expr: string, t: seq<string>)
    requires |t| == 2 && t[0] == "(" && t[1] == ")" && expr == Join(t)
    ensures Evaluate(expr) == Err(InvalidLiteral)
  {
    assert Unsigned(")") == ")";
    NoDigitsNoValue(t, 1, 1);
    Spelled(expr, t);
  }

  /** A sign written as part of the literal is read by std::stoi. */
  lemma SignedLiteral()
    ensures Evaluate("-8") == Ok(-8)
  {
    SignedLiteralTokens("-8", ["-8"]);
  }

  lemma SignedLiteralTokens(expr: string, t: seq<string>)
    requires |t| == 1 && t[0] == "-8" && expr == Join(t)
    ensures Evaluate(expr) == Ok(-8)
  {
    assert Decimal(-8) == "-8";
    ClimbLiteral(t, 0, -8, 1);
    Spelled(expr, t);
  }

  /** A stray ')' ends the expression; it and everything after it are ignored. */
  lemma TextAfterCloseIgnored()
    ensures Evaluate("1 ) 5") == Ok(1)
  {
    TextAfterCloseIgnoredTokens("1 ) 5", ["1", ")", "5"]);
  }

  lemma TextAfterCloseIgnoredTokens(expr: string, t: seq<string>)
    requires |t| == 3 && t[0] == "1" && t[1] == ")" && t[2] == "5" && expr == Join(t)
    ensures Evaluate(expr) == Ok(1)
  {
    assert Decimal(1) == "1";
    PrimaryLiteral(t, 0, 1);
    Spelled(expr, t);
  }

  /** A literal where an operator is expected ends the expression and is ignored. */
  lemma SecondLiteralIgnored()
    ensures Evaluate("1 2") == Ok(1)
  {
    SecondLiteralIgnoredTokens("1 2", ["1", "2"]);
  }

  lemma SecondLiteralIgnoredTokens(expr: string, t: seq<string>)
    requires |t| == 2 && t[0] == "1" && t[1] == "2" && expr == Join(t)
    ensures Evaluate(expr) == Ok(1)
  {
    assert Decimal(1) == "1";
    PrimaryLiteral(t, 0, 1);
    Spelled(expr, t);
  }

  /** Division by zero is reported (the C++ code divides regardless). */
  lemma ZeroDivisor()
    ensures Evaluate("7 / 0") == Err(DivisionByZero)
  {
    ZeroDivisorTokens("7 / 0", ["7", "/", "0"]);
  }

  lemma ZeroDivisorTokens(expr: string, t: seq<string>)
    requires |t| == 3 && t[0] == "7" && t[1] == "/" && t[2] == "0" && expr == Join(t)
    ensures Evaluate(expr) == Err(DivisionByZero)
  {
    assert Decimal(7) == "7" && Decimal(0) == "0";
    PrimaryLiteral(t, 0, 7);
    LastOperation(t, 7, 1, "/", 0, false);
    Spelled(expr, t);
  }

  /** Division truncates toward zero, as in C++. */
  lemma QuotientTruncated()
    ensures Evaluate("-7 / 2") == Ok(-3)
  {
    QuotientTruncatedTokens("-7 / 2", ["-7", "/", "2"]);
  }

  lemma QuotientTruncatedTokens(expr: string, t: seq<string>)
    requires |t| == 3 && t[0] == "-7" && t[1] == "/" && t[2] == "2" && expr == Join(t)
    ensures Evaluate(expr) == Ok(-3)
  {
    QuotientTruncatedClimb(t);
    Spelled(expr, t);
  }

  lemma QuotientTruncatedClimb(t: seq<string>)
    requires |t| == 3 && t[0] == "-7" && t[1] == "/" && t[2] == "2"
    ensures Climb(t, 0, 1) == Ok(Eval(-3, 3))
  {
    assert Decimal(-7) == "-7" && Decimal(2) == "2";
    assert ClimbLoop(t, -7, 1, 1, false) == Ok(Eval(-3, 3)) by {
      LastOperation(t, -7, 1, "/", 2, false);
      TruncDivNegative();
    }
    PrimaryLiteral(t, 0, -7);
  }

  /** A closing token is recognised by its first character: the climb inside the parentheses puts ")x"
      back as ")", which then matches. */
  lemma ClosingTokenReadAsFirstChar()
    ensures Evaluate("( 1 )x") == Ok(1)
  {
    ClosingTokenReadAsFirstCharTokens("( 1 )x", ["(", "1", ")x"]);
  }

  lemma ClosingTokenReadAsFirstCharTokens(expr: string, t: seq<string>)
    requires |t| == 3 && t[0] == "(" && t[1] == "1" && t[2] == ")x" && expr == Join(t)
    ensures Evaluate(expr) == Ok(1)
  {
    assert Decimal(1) == "1";
    assert Climb(t, 1, 1) == Ok(Eval(1, 2)) by {
      ClimbLiteral(t, 1, 1, 1);
    }
    assert Seen(t, 2, true) == ")";
    assert Primary(t, 0) == Ok(Eval(1, 3));
    Spelled(expr, t);
  }

  /** A put-back "^^" is read again as "^", whose right operand is parsed one level up: the powers after
      it are taken one by one, giving (8 ^ 2) ^ 3 rather than 8 ^ (2 ^ 3). */
  lemma PutBackPowerReadAsCaret()
    ensures Evaluate("2 ^ 3 ^^ 2 ^ 3") == Ok(262144)
  {
    PutBackPowerReadAsCaretTokens("2 ^ 3 ^^ 2 ^ 3", ["2", "^", "3", "^^", "2", "^", "3"]);
  }

  lemma PutBackPowerReadAsCaretTokens(expr: string, t: seq<string>)
    requires |t| == 7 && t[0] == "2" && t[1] == "^" && t[2] == "3" && t[3] == "^^" && t[4] == "2" &&
      t[5] == "^" && t[6] == "3" && expr == Join(t)
    ensures Evaluate(expr) == Ok(262144)
  {
    PutBackPowerReadAsCaretClimb(t);
    Spelled(expr, t);
  }

  lemma PutBackPowerReadAsCaretClimb(t: seq<string>)
    requires |t| == 7 && t[0] == "2" && t[1] == "^" && t[2] == "3" && t[3] == "^^" && t[4] == "2" &&
      t[5] == "^" && t[6] == "3"
    ensures Climb(t, 0, 1) == Ok(Eval(262144, 7))
  {
    assert Decimal(2) == "2" && Decimal(3) == "3";
    assert Pow(2, 3) == 8 && Pow(8, 2) == 64 && Pow(64, 3) == 262144;
    assert ClimbLoop(t, 64, 5, 1, true) == Ok(Eval(262144, 7)) by {
      LastOperation(t, 64, 5, "^", 3, true);
    }
    assert ClimbLoop(t, 8, 3, 1, true) == Ok(Eval(262144, 7)) by {
      assert Seen(t, 3, true) == "^";
      ClimbLiteral(t, 4, 2, 4);
    }
    assert ClimbLoop(t, 2, 1, 1, false) == Ok(Eval(262144, 7)) by {
      ClimbLiteral(t, 2, 3, 4);
    }
    PrimaryLiteral(t, 0, 2);
  }

  /** A negative exponent: pow gives 0.5, and the conversion back to int truncates it to 0. */
  lemma NegativeExponentTruncated()
    ensures Evaluate("2 ^ -1") == Ok(0)
  {
    NegativeExponentTruncatedTokens("2 ^ -1", ["2", "^", "-1"]);
  }

  lemma NegativeExponentTruncatedTokens(expr: string, t: seq<string>)
    requires |t| == 3 && t[0] == "2" && t[1] == "^" && t[2] == "-1" && expr == Join(t)
    ensures Evaluate(expr) == Ok(0)
  {
    assert Decimal(2) == "2" && Decimal(-1) == "-1";
    PrimaryLiteral(t, 0, 2);
    LastOperation(t, 2, 1, "^", -1, false);
    Spelled(expr, t);
  }
}

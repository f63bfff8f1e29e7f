# pcparser in Dafny

A model of `pcparser`, a precedence-climbing evaluator for integer expressions. It evaluates while it
parses, with no syntax tree. An expression such as `( 9 - 8 ) - 7` is split at white space into
tokens. `parse_primary` reads a value: an integer literal, or a parenthesised expression. `_pcparse`
reads a primary and then loops. On each turn it reads an operator and looks up its precedence in the
global table `OPS`. While that precedence is at least `min_prec`, it parses the right operand one
level deeper and applies the operator with `compute`. Otherwise it puts the operator's first
character back into the stream and returns. `pcparse` starts the climb at precedence 1.

The project is organised as follows:

- `results.dfy` (`Results`) holds the error kinds, one per exception the code can raise or
  undefined case it can reach, and the `Result` type.
- `operators.dfy` (`Operators`) holds the table. `OPS` is a class `OpTable` whose `Init` writes the
  five precedences. `Index` is `operator[]`, which inserts 0 for a missing key. `Prec` gives the
  precedence the initialised table reads as.
- `arith.dfy` (`Arith`) holds `compute`. C++ division truncates toward zero, unlike Dafny's Euclidean
  `/`. `pow` returns a `double` that is converted back to `int`.
- `chars.dfy`, `literal.dfy` (`Chars`, `Literal`) hold `std::stoi` in base 10.
- `tokens.dfy` (`Tokens`) holds the `stringstream`:
  - the tokens that `>>` extracts;
  - a class `TokenStream` with a cursor, `Read` (`>>`) and `PutBack` (`putback`).
- `evaluator.dfy` (`Evaluator`) holds the evaluator twice:
  - the functions `Primary`, `Climb` and `ClimbLoop` say what the procedures compute from a token
    sequence and a position;
  - the methods `ParsePrimary`, `ParseExpr` and `PcParse` are the procedures themselves, run on a
    `TokenStream` and an `OpTable`, and each is proved to agree with its function.
- `properties.dfy` (`Properties`) holds what the evaluator guarantees and how it actually groups
  operators.
- `examples.dfy` (`Examples`) holds concrete expressions and their values.

### Where the code differs from its comments and the usual reading

The model follows the code.

- **Associativity.** The comment on line 71 says `^` is right-associative. The code recurses with
  precedence + 1 for `^` and with the same precedence for the other operators, so the effect is the
  reverse:
  - `^` chains group to the left: `2 ^ 3 ^ 2` is 64, and for non-negative b and c, `a ^ b ^ c` is a
    to the power b·c (`GroupsLeft`, `PowChainMultipliesExponents`);
  - chains of `+ - * /` group to the right: `9 - 8 - 7` is 8 (`GroupsRight`).
- **No unary minus.** A lone `-` where a value is needed goes to `std::stoi` and is rejected
  (`NoUnaryMinus`). A sign written inside the literal, as in `-8`, is accepted.
- **Unknown operators.** A token in operator position that the table does not know, including `)`,
  reads as precedence 0 and ends the current climb. It is never reported as an invalid operator: the
  `"invalid operator"` branch of `compute` cannot be reached (`ClimbNoInvalidOperator`). At top level,
  everything from there on is ignored (`TrailingTokensIgnored`). Inside parentheses, the token ends
  the inner climb, and unless it starts with `)` it surfaces as an unmatched parenthesis
  (`ClosedByFirstChar`): `( 1 x 2 )` is "unmatched '('".
- **`putback(token[0])` only truly un-reads a one-character token.**
  - For a longer token, the stream's read position moves back one character, and the buffer is
    writable, so the first character overwrites the token's last one.
  - The next extraction therefore yields the first character alone (`Seen`, `PutBackIsOverwrite`).
  - A closing token such as `)x` is accepted as `)` (`ClosedByFirstChar`).
  - A put-back `^^` is read again as `^`, which changes its grouping (`PutBackPowerReadAsCaret`).
- **Negative exponents.** `pow` with a negative exponent is modelled as the code computes it, not as
  an error: the reciprocal is truncated toward zero. Zero to a negative power has no `int` value and is
  reported as an error.

## Model

| member | source | states |
|---|---|---|
| Operators.Lookup | pcparser/pcparser.cpp:69 | `OPS[c]` reads a missing key as 0; `OpTable.Index` states that it returns this value, and `PrecedenceLevels` states what it gives on the initialised table |
| Operators.First | pcparser/pcparser.cpp:69 | `token[0]`, the character the table and `compute` look at; `ComputeReadsFirstChar` and `Seen` state how the rest of the token is ignored or overwritten |
| Operators.PrecedenceLevels | pcparser/pcparser.cpp:19-25 | `+ -` rank 1, `* /` rank 2, `^` rank 3; a character ranks at least 1 exactly when it is one of the five, and every other character reads as 0 |
| Operators.InitUpdates | pcparser/pcparser.cpp:20-24 | the five assignments of `init`, done in order, merge the map with the five precedences |
| Operators.OpTable.constructor | pcparser/pcparser.cpp:17 | the static map starts empty |
| Operators.OpTable.Init | pcparser/pcparser.cpp:19-25 | the five entries are stored over whatever was there; from an empty table (or one holding only default zeros) every key then reads as its precedence |
| Operators.OpTable.Index | pcparser/pcparser.cpp:69 | `OPS[c]` returns the stored value or 0, inserts the key with that value, changes the value read for no key, and on an initialised table returns the precedence of `c` |
| Arith.TruncDiv | pcparser/pcparser.cpp:32 | C++ `/`: the remainder is smaller than the divisor in magnitude and has the sign of the dividend, i.e. truncation toward zero, and the quotient is no larger in magnitude than the exact one |
| Arith.TruncDivNonNegative | pcparser/pcparser.cpp:32 | for non-negative operands the C++ quotient equals the Euclidean one |
| Arith.TruncDivNegative | pcparser/pcparser.cpp:32 | for a negative dividend they differ: -7 / 2 is -3 in C++ and -4 in Dafny |
| Arith.PowToInt | pcparser/pcparser.cpp:33 | `pow` converted to `int` fails exactly for zero to a negative power; a non-negative exponent gives the integer power, a negative one a result between -1 and 1 (`NegativePowerTruncates` gives it exactly) |
| Arith.PowPow | pcparser/pcparser.cpp:33 | a power raised to a power multiplies the exponents |
| Arith.NegativePowerTruncates | pcparser/pcparser.cpp:33 | for a negative exponent and a non-zero base, `pow` converted to `int` is 1 / a^-b truncated toward zero |
| Arith.Compute | pcparser/pcparser.cpp:27-36 | "invalid operator" exactly when the first character is not one of the five; success exactly when it is one of them, other than `/` by zero and zero to a negative power; `^` with a non-negative exponent is the integer power |
| Arith.RankedOperatorsComputable | pcparser/pcparser.cpp:28-35 | for a character the table ranks at 1 or more, `compute` never reaches its default branch and fails only by division by zero or zero to a negative power |
| Arith.ComputeReadsFirstChar | pcparser/pcparser.cpp:28 | only `op[0]` matters: tokens with the same first character compute the same |
| Literal.Stoi | pcparser/pcparser.cpp:53 | a value is within the 32-bit `int` range; a failure is an invalid argument or out of range |
| Literal.StoiOutcome | pcparser/pcparser.cpp:53 | invalid argument exactly when no digit follows the white space and the optional sign; out of range exactly when the digits' value with that sign lies outside `int`; otherwise the digits' value with the sign |
| Literal.StoiDecimal | pcparser/pcparser.cpp:53 | `std::stoi` reads back every `int` from its decimal spelling, whatever non-digit text follows it |
| Tokens.Tokenize | pcparser/pcparser.cpp:42 | each token that `>>` extracts is non-empty and holds no white space |
| Tokens.TokenizeJoin | pcparser/pcparser.cpp:88 | splitting tokens written out with single spaces gives the tokens back |
| Tokens.TokenStream.constructor | pcparser/pcparser.cpp:88 | the stream holds the tokens of the expression, with the cursor at the start and nothing put back |
| Tokens.TokenStream.Read | pcparser/pcparser.cpp:68 | `>>` succeeds exactly when a token is left, advancing past it and yielding the put-back character alone if one is held |
| Tokens.TokenStream.PutBack | pcparser/pcparser.cpp:79 | allowed only right after a successful extraction; moves back over that token and holds the given character in its place |
| Evaluator.Primary | pcparser/pcparser.cpp:39-59 | `parse_primary` either fails or consumes at least one token, and never passes the end |
| Evaluator.Climb | pcparser/pcparser.cpp:61-85 | `_pcparse` either fails or consumes at least one token, and never passes the end |
| Evaluator.ClimbLoop | pcparser/pcparser.cpp:68-82 | the operator loop never moves the cursor back or past the end |
| Evaluator.Seen | pcparser/pcparser.cpp:79 | the token read at a position has that token's first character, and is that character alone once it was put back |
| Evaluator.ParsePrimary | pcparser/pcparser.cpp:39-59 | the procedure returns the value or error `Primary` gives and leaves the cursor where `Primary` says, with nothing put back |
| Evaluator.ParseExpr | pcparser/pcparser.cpp:61-85 | the procedure returns the value or error `Climb` gives and leaves the cursor where `Climb` says, holding the put-back first character of the token it stopped at |
| Evaluator.NextMinPrec | pcparser/pcparser.cpp:69-72 | the right operand's minimum precedence after an operator; `NextMinPrecBounds` states its bounds, and `GroupsRight` and `GroupsLeft` state what it does to grouping |
| Evaluator.NextMinPrecBounds | pcparser/pcparser.cpp:69-72 | the right operand's minimum precedence is never below the operator's rank, so every nested climb keeps a minimum precedence of at least 1; after the token `^` it is above the rank of `^`, so a second `^` is put back |
| Evaluator.Evaluate | pcparser/pcparser.cpp:87-90 | `pcparse` of an expression with no tokens ends unexpectedly, so a value needs at least one token; `PcParse`, `TrailingTokensIgnored` and `EvaluateNoInvalidOperator` state the rest |
| Evaluator.PcParse | pcparser/pcparser.cpp:87-90 | `pcparse` over an initialised table returns `Evaluate(expr)` |
| Evaluator.Run | pcparser/pcparser.cpp:96-100 | `init` followed by `pcparse` returns `Evaluate(expr)` |
| Properties.PrimaryNoInvalidOperator | pcparser/pcparser.cpp:44 | a primary never fails with "invalid operator" |
| Properties.ClimbNoInvalidOperator | pcparser/pcparser.cpp:70-75 | every climb entered with minimum precedence at least 1 never fails with "invalid operator" |
| Properties.ClimbLoopNoInvalidOperator | pcparser/pcparser.cpp:68-82 | the same for the loop, whether or not its first token was put back |
| Properties.ZeroMinPrecReachesInvalidOperator | pcparser/pcparser.cpp:34-35 | the bound matters: entered at precedence 0, a non-operator token is applied and `compute` rejects it |
| Properties.ClimbLoopStops | pcparser/pcparser.cpp:77-80 | the loop stops only at the end or at a token ranked below the minimum precedence |
| Properties.ClimbStops | pcparser/pcparser.cpp:77-80 | the same for a whole climb |
| Properties.ClosedByFirstChar | pcparser/pcparser.cpp:45-47 | a parenthesis is closed exactly when the token after the inner expression starts with `)` |
| Properties.PutBackIsOverwrite | pcparser/pcparser.cpp:79 | reading after a put-back is reading a buffer whose token there was overwritten by its first character |
| Properties.PrimarySuffix | pcparser/pcparser.cpp:39-59 | a primary reads nothing before its cursor |
| Properties.ClimbSuffix | pcparser/pcparser.cpp:61-85 | a climb reads nothing before its cursor |
| Properties.ClimbLoopSuffix | pcparser/pcparser.cpp:68-82 | the loop reads nothing before its cursor |
| Properties.PrimaryLocal | pcparser/pcparser.cpp:39-59 | a successful primary depends only on the tokens it consumes |
| Properties.ClimbLocal | pcparser/pcparser.cpp:61-85 | a successful climb depends only on the tokens it consumes and on the stopping token being one it stops at |
| Properties.ClimbLoopLocal | pcparser/pcparser.cpp:68-82 | the same for the loop |
| Properties.TrailingTokensIgnored | pcparser/pcparser.cpp:87-89 | top level stops at the end or at a non-operator, and the tokens from there on can be replaced without changing the result |
| Properties.PrimaryLiteral | pcparser/pcparser.cpp:53 | a decimal literal in value position evaluates to its number |
| Properties.ClimbLiteral | pcparser/pcparser.cpp:77-80 | a literal followed by the end or a lower-ranked token is a whole operand |
| Properties.GroupsRight | pcparser/pcparser.cpp:70-75 | in `a op1 b op2 c`, when `op2` ranks at least what `op1`'s right operand demands, the result is `a op1 (b op2 c)`, so same-level `+ - * /` group right |
| Properties.GroupsLeft | pcparser/pcparser.cpp:71-72 | when `op2` ranks below that, the result is `(a op1 b) op2 c`, which includes `^` before `^` |
| Properties.LastOperation | pcparser/pcparser.cpp:68-76 | a final `op c` is applied once and the loop ends there |
| Properties.ParenthesesGroupFirst | pcparser/pcparser.cpp:43-50 | `( a op1 b ) op2 c` computes the parenthesis first, whatever the operators |
| Properties.PowChainMultipliesExponents | pcparser/pcparser.cpp:71-74 | for non-negative b and c, `a ^ b ^ c` is a to the power b·c |
| Properties.NoDigitsNoValue | pcparser/pcparser.cpp:52-53 | a token other than `(` in value position with no digit after its optional sign, such as `)`, is an invalid literal |
| Properties.EvaluateNoInvalidOperator | pcparser/pcparser.cpp:87-89 | `pcparse` never reports an invalid operator |
| Properties.NoUnaryMinus | pcparser/pcparser.cpp:53 | a lone `-` in value position is an invalid literal |
| Examples.DriverExpression | pcparser/pcparser.cpp:94 | `( 9 - 8 ) - 7` is -6 |
| Examples.ProductBeforeSum | pcparser/pcparser.cpp:70-75 | `6 * 7 + 4` is 46 |
| Examples.ProductsAroundDifference | pcparser/pcparser.cpp:70-75 | `11 * 2 - 8 / 2` is 18 |
| Examples.ParenthesisedSubtrahend | pcparser/pcparser.cpp:43-50 | `1 + 14 - ( 8 * 2 )` is -1 |
| Examples.DifferencesGroupRight | pcparser/pcparser.cpp:70-74 | `9 - 8 - 7` is 8 |
| Examples.PowersGroupLeft | pcparser/pcparser.cpp:71-72 | `2 ^ 3 ^ 2` is 64 |
| Examples.PowerBeforeDifference | pcparser/pcparser.cpp:70-75 | `4 ^ 2 - 8` is 8 |
| Examples.MissingOperand | pcparser/pcparser.cpp:56-57 | `1 +` ends unexpectedly |
| Examples.EmptyExpression | pcparser/pcparser.cpp:56-57 | the empty expression ends unexpectedly |
| Examples.UnclosedParenthesis | pcparser/pcparser.cpp:45-48 | `( 1 + 2` is an unmatched parenthesis, not an unexpected end |
| Examples.UnknownOperatorInParentheses | pcparser/pcparser.cpp:44-48 | `( 1 x 2 )` is an unmatched parenthesis: `x` ends the inner climb and is not `)` |
| Examples.EmptyParentheses | pcparser/pcparser.cpp:52-53 | `( )` is an invalid literal, because `)` is read where a value is needed |
| Examples.SeparateMinusRejected | pcparser/pcparser.cpp:53 | `- 8` is an invalid literal |
| Examples.SignedLiteral | pcparser/pcparser.cpp:53 | `-8` is -8 |
| Examples.TextAfterCloseIgnored | pcparser/pcparser.cpp:77-80 | `1 ) 5` is 1 |
| Examples.SecondLiteralIgnored | pcparser/pcparser.cpp:77-80 | `1 2` is 1 |
| Examples.ZeroDivisor | pcparser/pcparser.cpp:32 | `7 / 0` is reported as division by zero |
| Examples.QuotientTruncated | pcparser/pcparser.cpp:32 | `-7 / 2` is -3 |
| Examples.ClosingTokenReadAsFirstChar | pcparser/pcparser.cpp:79 | `( 1 )x` is 1 |
| Examples.PutBackPowerReadAsCaret | pcparser/pcparser.cpp:79 | `2 ^ 3 ^^ 2 ^ 3` is (8 ^ 2) ^ 3 = 262144 |
| Examples.NegativeExponentTruncated | pcparser/pcparser.cpp:33 | `2 ^ -1` is 0 |

## Left out

- `_tmain` (lines 92-108): the console output, the `try`/`catch` and the exit code. Its input is the
  example `DriverExpression`, and `Run` keeps its order of calls: `init`, then `pcparse`.
- 32-bit overflow is not modelled for `+ - *`, for the conversion of a large `pow` result, or for
  `INT_MIN / -1`. These are undefined in C++, and the model computes with unbounded integers. The
  `int` range of `std::stoi` is modelled.
- Division by zero is undefined in C++. It is reported as the error `DivisionByZero`.
- Zero to a negative power: `pow` returns an infinite `double`, whose conversion to `int` is
  undefined. It is reported as the error `ZeroToNegativePower`.
- Floating-point rounding inside `pow`: the model assumes that `pow` returns the exact result whenever
  that result is an integer a `double` can represent. C++ does not require this of `pow`.
- Exception objects and their messages become error constructors. This includes the MSVC-only
  `std::exception(const char*)`.
- The `stringstream` is modelled token by token, not character by character. After a put-back, the
  next extraction yields the held character in place of the put-back token, and the cursor then moves
  past that token. This matches the overwritten buffer, because a token is always followed by white
  space or the end.
- The model assumes that `putback` first clears `eofbit`, as C++11 requires. This matters when the
  put-back token is the last in the input, such as the final `)` of `1 + 14 - ( 8 * 2 )`. With a library
  that leaves `eofbit` set, `putback` fails, the closing read fails, and the result is "unmatched '('".
- The stream's state after a failure is not modelled, because the exception discards the stream.
- `isspace` and `isdigit` are those of the "C" locale; other locales are not modelled.
- Evaluator.PcParse: requires an initialised table. Calling `pcparse` before `init` would read every
  operator as precedence 0, and that case is not modelled.

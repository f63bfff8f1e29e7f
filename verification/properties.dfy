/** What the evaluator guarantees, and how it actually groups operators. */
module Properties {
  import opened Chars
  import opened Results
  import opened Operators
  import opened Arith
  import opened Literal
  import opened Tokens
  import opened Evaluator

  // ---------------------------------------------------------------------------------------------
  // min_prec >= 1: the "invalid operator" branch of compute is unreachable

  lemma {:induction false} PrimaryNoInvalidOperator(toks: seq<string>, pos: nat)
    requires pos <= |toks|
    ensures Primary(toks, pos) != Err(InvalidOperator)
    decreases |toks| - pos, 0
  {
    if pos < |toks| && toks[pos] == "(" {
      ClimbNoInvalidOperator(toks, pos + 1, 1);
    }
  }

  /** Every climb entered with a minimum precedence of at least 1 (the top level and a parenthesis use 1,
      an operator passes on its own rank or one more) only applies operators the table ranks at 1 or
      more, so it never fails with InvalidOperator. */
  lemma {:induction false} ClimbNoInvalidOperator(toks: seq<string>, pos: nat, minPrec: int)
    requires pos <= |toks| && minPrec >= 1
    ensures Climb(toks, pos, minPrec) != Err(InvalidOperator)
    decreases |toks| - pos, 2
  {
    PrimaryNoInvalidOperator(toks, pos);
    match Primary(toks, pos)
    case Err(_) =>
    case Ok(first) => ClimbLoopNoInvalidOperator(toks, first.value, first.pos, minPrec, false);
  }

  lemma {:induction false} ClimbLoopNoInvalidOperator(toks: seq<string>, lhs: int, pos: nat, minPrec: int, putBack: bool)
    requires pos <= |toks| && minPrec >= 1
    ensures ClimbLoop(toks, lhs, pos, minPrec, putBack) != Err(InvalidOperator)
    decreases |toks| - pos, 1
  {
    if pos < |toks| {
      var op := Seen(toks, pos, putBack);
      var prec := Prec(First(op));
      if prec >= minPrec {
        var next := NextMinPrec(op);
        ClimbNoInvalidOperator(toks, pos + 1, next);
        match Climb(toks, pos + 1, next)
        case Err(_) =>
        case Ok(rhs) =>
          RankedOperatorsComputable(op, lhs, rhs.value);
          match Compute(op, lhs, rhs.value)
          case Err(_) =>
          case Ok(v) => ClimbLoopNoInvalidOperator(toks, v, rhs.pos, minPrec, true);
      }
    }
  }

  /** `pcparse` never reports an invalid operator: the top level climbs from precedence 1. */
  lemma EvaluateNoInvalidOperator(expr: string)
    ensures Evaluate(expr) != Err(InvalidOperator)
  {
    ClimbNoInvalidOperator(Tokenize(expr), 0, 1);
  }

  /** The bound matters: a climb entered with minimum precedence 0 takes a token the table does not
      rank as an operator, and `compute` then rejects it. */
  lemma ZeroMinPrecReachesInvalidOperator(toks: seq<string>, a: int, op: string, b: int)
    requires InIntRange(a) && InIntRange(b)
    requires |toks| == 3 && toks[0] == Decimal(a) && toks[1] == op && toks[2] == Decimal(b)
    requires !IsOperatorChar(First(op))
    ensures Climb(toks, 0, 0) == Err(InvalidOperator)
  {
    PrecedenceLevels(First(op));
    assert Climb(toks, 2, 0) == Ok(Eval(b, 3)) by {
      PrimaryLiteral(toks, 2, b);
    }
    assert ClimbLoop(toks, a, 1, 0, false) == Err(InvalidOperator);
    PrimaryLiteral(toks, 0, a);
  }

  // ---------------------------------------------------------------------------------------------
  // Put back and return

  /** The operator loop stops only at the end of the tokens or at a token ranked below its minimum
      precedence, and the position it reports is that of the put-back token. */
  lemma {:induction false} ClimbLoopStops(toks: seq<string>, lhs: int, pos: nat, minPrec: int, putBack: bool)
    requires pos <= |toks|
    requires ClimbLoop(toks, lhs, pos, minPrec, putBack).Ok?
    ensures var p := ClimbLoop(toks, lhs, pos, minPrec, putBack).value.pos;
      p == |toks| || Prec(First(toks[p])) < minPrec
    decreases |toks| - pos
  {
    if pos < |toks| {
      var op := Seen(toks, pos, putBack);
      var prec := Prec(First(op));
      if prec >= minPrec {
        var next := NextMinPrec(op);
        var rhs := Climb(toks, pos + 1, next).value;
        var v := Compute(op, lhs, rhs.value).value;
        ClimbLoopStops(toks, v, rhs.pos, minPrec, true);
      }
    }
  }

  lemma ClimbStops(toks: seq<string>, pos: nat, minPrec: int)
    requires pos <= |toks|
    requires Climb(toks, pos, minPrec).Ok?
    ensures var p := Climb(toks, pos, minPrec).value.pos;
      p == |toks| || Prec(First(toks[p])) < minPrec
  {
    var first := Primary(toks, pos).value;
    ClimbLoopStops(toks, first.value, first.pos, minPrec, false);
  }

  /** A parenthesised expression is closed by any token that begins with ')': the climb inside puts that
      token back, and what the stream then yields is its first character alone. */
  lemma ClosedByFirstChar(toks: seq<string>, pos: nat)
    requires pos < |toks| && toks[pos] == "(" && Climb(toks, pos + 1, 1).Ok?
    ensures var inner := Climb(toks, pos + 1, 1).value;
      Primary(toks, pos).Ok? <==> inner.pos < |toks| && First(toks[inner.pos]) == ')'
  {
    var inner := Climb(toks, pos + 1, 1).value;
    if inner.pos < |toks| {
      assert Seen(toks, inner.pos, true) == [First(toks[inner.pos])];
      assert Seen(toks, inner.pos, true) == ")" <==> First(toks[inner.pos]) == ')';
    }
  }

  /** Reading the put-back token is reading a buffer whose token at `pos` has been overwritten by its
      first character. */
  lemma PutBackIsOverwrite(toks: seq<string>, lhs: int, pos: nat, minPrec: int)
    requires pos < |toks|
    ensures ClimbLoop(toks, lhs, pos, minPrec, true)
         == ClimbLoop(toks[pos := [First(toks[pos])]], lhs, pos, minPrec, false)
  {
    var toks2 := toks[pos := [First(toks[pos])]];
    assert Seen(toks2, pos, false) == Seen(toks, pos, true);
    if Prec(First(toks[pos])) >= minPrec {
      var next := NextMinPrec(Seen(toks, pos, true));
      ClimbSuffix(toks, toks2, pos + 1, next);
      match Climb(toks, pos + 1, next)
      case Err(_) =>
      case Ok(rhs) =>
        match Compute(Seen(toks, pos, true), lhs, rhs.value)
        case Err(_) =>
        case Ok(v) => ClimbLoopSuffix(toks, toks2, v, rhs.pos, minPrec, true);
    }
  }

  /** Two token sequences of one length that agree from `pos` on. */
  ghost predicate SameFrom(toks: seq<string>, toks2: seq<string>, pos: nat) {
    |toks2| == |toks| && SameBetween(toks, toks2, pos, |toks|)
  }

  lemma {:induction false} PrimarySuffix(toks: seq<string>, toks2: seq<string>, pos: nat)
    requires pos <= |toks| && SameFrom(toks, toks2, pos)
    ensures Primary(toks, pos) == Primary(toks2, pos)
    decreases |toks| - pos, 0
  {
    if pos < |toks| {
      assert toks2[pos] == toks[pos];
      if toks[pos] == "(" {
        ClimbSuffix(toks, toks2, pos + 1, 1);
        match Climb(toks, pos + 1, 1)
        case Err(_) =>
        case Ok(inner) =>
          if inner.pos < |toks| {
            assert toks2[inner.pos] == toks[inner.pos];
          }
      }
    }
  }

  lemma {:induction false} ClimbSuffix(toks: seq<string>, toks2: seq<string>, pos: nat, minPrec: int)
    requires pos <= |toks| && SameFrom(toks, toks2, pos)
    ensures Climb(toks, pos, minPrec) == Climb(toks2, pos, minPrec)
    decreases |toks| - pos, 2
  {
    PrimarySuffix(toks, toks2, pos);
    match Primary(toks, pos)
    case Err(_) =>
    case Ok(first) => ClimbLoopSuffix(toks, toks2, first.value, first.pos, minPrec, false);
  }

  /** The loop reads nothing before its cursor. */
  lemma {:induction false} ClimbLoopSuffix(toks: seq<string>, toks2: seq<string>, lhs: int, pos: nat, minPrec: int, putBack: bool)
    requires pos <= |toks| && SameFrom(toks, toks2, pos)
    ensures ClimbLoop(toks, lhs, pos, minPrec, putBack) == ClimbLoop(toks2, lhs, pos, minPrec, putBack)
    decreases |toks| - pos, 1
  {
    if pos < |toks| {
      assert toks2[pos] == toks[pos];
      var op := Seen(toks, pos, putBack);
      assert Seen(toks2, pos, putBack) == op;
      if Prec(First(op)) >= minPrec {
        var next := NextMinPrec(op);
        ClimbSuffix(toks, toks2, pos + 1, next);
        match Climb(toks, pos + 1, next)
        case Err(e) =>
          assert ClimbLoop(toks, lhs, pos, minPrec, putBack) == Err(e);
        case Ok(rhs) =>
          match Compute(op, lhs, rhs.value)
          case Err(e) =>
            assert ClimbLoop(toks, lhs, pos, minPrec, putBack) == Err(e);
          case Ok(v) =>
            ClimbLoopSuffix(toks, toks2, v, rhs.pos, minPrec, true);
            assert ClimbLoop(toks2, lhs, pos, minPrec, putBack) == ClimbLoop(toks2, v, rhs.pos, minPrec, true);
      }
    }
  }

  // ---------------------------------------------------------------------------------------------
  // Locality: a climb reads the tokens it consumes and, at most, the one token it puts back

  /** `toks2` holds the same tokens as `toks` from `lo` up to (not including) `hi`. */
  ghost predicate SameBetween(toks: seq<string>, toks2: seq<string>, lo: nat, hi: nat) {
    hi <= |toks| && hi <= |toks2| && forall i :: lo <= i < hi ==> toks2[i] == toks[i]
  }

  /** `toks2` ends at `p`, or holds there a token ranked below `minPrec`. */
  ghost predicate StopsAt(toks2: seq<string>, p: nat, minPrec: int) {
    p == |toks2| || (p < |toks2| && Prec(First(toks2[p])) < minPrec)
  }

  /** A climb nested inside a stretch on which `toks2` agrees with `toks`, stopping at `q` with a minimum
      precedence at least that of the enclosing one, stops at `q` in `toks2` as well. */
  lemma NestedStop(toks: seq<string>, toks2: seq<string>, pos: nat, q: nat, p: nat, minPrec: int, next: int)
    requires pos < q <= p <= |toks| && minPrec <= next
    requires SameBetween(toks, toks2, pos, p) && StopsAt(toks2, p, minPrec)
    requires q == |toks| || Prec(First(toks[q])) < next
    ensures SameBetween(toks, toks2, pos + 1, q) && StopsAt(toks2, q, next) && SameBetween(toks, toks2, q, p)
  {
    if q < p {
      assert toks2[q] == toks[q];
    }
  }

  lemma {:induction false} PrimaryLocal(toks: seq<string>, toks2: seq<string>, pos: nat)
    requires pos <= |toks| && Primary(toks, pos).Ok?
    requires SameBetween(toks, toks2, pos, Primary(toks, pos).value.pos)
    ensures Primary(toks2, pos) == Primary(toks, pos)
    decreases |toks| - pos, 0
  {
    if toks[pos] == "(" {
      var inner := Climb(toks, pos + 1, 1).value;
      ClimbStops(toks, pos + 1, 1);
      ClimbLocal(toks, toks2, pos + 1, 1);
    }
  }

  lemma {:induction false} ClimbLocal(toks: seq<string>, toks2: seq<string>, pos: nat, minPrec: int)
    requires pos <= |toks| && Climb(toks, pos, minPrec).Ok?
    requires SameBetween(toks, toks2, pos, Climb(toks, pos, minPrec).value.pos)
    requires StopsAt(toks2, Climb(toks, pos, minPrec).value.pos, minPrec)
    ensures Climb(toks2, pos, minPrec) == Climb(toks, pos, minPrec)
    decreases |toks| - pos, 2
  {
    var first := Primary(toks, pos).value;
    PrimaryLocal(toks, toks2, pos);
    ClimbLoopLocal(toks, toks2, first.value, first.pos, minPrec, false);
  }

  lemma {:induction false} ClimbLoopLocal(toks: seq<string>, toks2: seq<string>, lhs: int, pos: nat, minPrec: int, putBack: bool)
    requires pos <= |toks| && ClimbLoop(toks, lhs, pos, minPrec, putBack).Ok?
    requires SameBetween(toks, toks2, pos, ClimbLoop(toks, lhs, pos, minPrec, putBack).value.pos)
    requires StopsAt(toks2, ClimbLoop(toks, lhs, pos, minPrec, putBack).value.pos, minPrec)
    ensures ClimbLoop(toks2, lhs, pos, minPrec, putBack) == ClimbLoop(toks, lhs, pos, minPrec, putBack)
    decreases |toks| - pos, 1
  {
    if pos < |toks| && Prec(First(Seen(toks, pos, putBack))) >= minPrec {
      var op := Seen(toks, pos, putBack);
      var next := NextMinPrec(op);
      var rhs := Climb(toks, pos + 1, next).value;
      var v := Compute(op, lhs, rhs.value).value;
      var e := ClimbLoop(toks, lhs, pos, minPrec, putBack).value;
      assert ClimbLoop(toks, v, rhs.pos, minPrec, true) == Ok(e);
      assert Seen(toks2, pos, putBack) == op by {
        assert toks2[pos] == toks[pos];
      }
      ClimbStops(toks, pos + 1, next);
      NestedStop(toks, toks2, pos, rhs.pos, e.pos, minPrec, next);
      ClimbLocal(toks, toks2, pos + 1, next);
      ClimbLoopLocal(toks, toks2, v, rhs.pos, minPrec, true);
      assert ClimbLoop(toks2, lhs, pos, minPrec, putBack) == ClimbLoop(toks2, v, rhs.pos, minPrec, true);
    } else {
      assert ClimbLoop(toks, lhs, pos, minPrec, putBack) == Ok(Eval(lhs, pos));
    }
  }

  /** At top level a successful evaluation stops at the end or at a token the table does not rank
      (a ")" or any non-operator), and every token from there on is ignored: replacing them by
      anything that does not start with an operator character leaves the result unchanged. */
  lemma TrailingTokensIgnored(toks: seq<string>, rest: seq<string>)
    requires Climb(toks, 0, 1).Ok?
    requires rest == [] || !IsOperatorChar(First(rest[0]))
    ensures var p := Climb(toks, 0, 1).value.pos;
      (p == |toks| || !IsOperatorChar(First(toks[p]))) &&
      Climb(toks[..p] + rest, 0, 1) == Climb(toks, 0, 1)
  {
    var p := Climb(toks, 0, 1).value.pos;
    ClimbStops(toks, 0, 1);
    if p < |toks| {
      PrecedenceLevels(First(toks[p]));
    }
    var toks2 := toks[..p] + rest;
    if rest != [] {
      PrecedenceLevels(First(rest[0]));
      assert toks2[p] == rest[0];
    }
    ClimbLocal(toks, toks2, 0, 1);
  }

  // ---------------------------------------------------------------------------------------------
  // Grouping of `a op1 b op2 c`

  /** Apply `op` to two results, the left one evaluated first; the first failure wins. */
  function Combine(op: string, x: Result<int>, y: Result<int>): Result<int> {
    match x
    case Err(e) => Err(e)
    case Ok(a) =>
      match y
      case Err(e) => Err(e)
      case Ok(b) => Compute(op, a, b)
  }

  /** A result paired with the cursor position it leaves. */
  function At(r: Result<int>, pos: nat): Result<Eval> {
    match r
    case Ok(v) => Ok(Eval(v, pos))
    case Err(e) => Err(e)
  }

  predicate InIntRange(n: int) {
    IntMin <= n <= IntMax
  }

  /** `t` is the five tokens `a op1 b op2 c`, the numbers written in decimal and within range. */
  ghost predicate Chain(t: seq<string>, a: int, op1: string, b: int, op2: string, c: int) {
    InIntRange(a) && InIntRange(b) && InIntRange(c) &&
    |t| == 5 && t[0] == Decimal(a) && t[1] == op1 && t[2] == Decimal(b) && t[3] == op2 && t[4] == Decimal(c)
  }

  /** `t` is the seven tokens `( a op1 b ) op2 c`, the numbers written in decimal and within range. */
  ghost predicate ParenthesisedChain(t: seq<string>, a: int, op1: string, b: int, op2: string, c: int) {
    InIntRange(a) && InIntRange(b) && InIntRange(c) &&
    |t| == 7 && t[0] == "(" && t[1] == Decimal(a) && t[2] == op1 && t[3] == Decimal(b) && t[4] == ")" &&
    t[5] == op2 && t[6] == Decimal(c)
  }

  /** An integer literal in value position evaluates to its number. */
  lemma PrimaryLiteral(toks: seq<string>, i: nat, n: int)
    requires i < |toks| && toks[i] == Decimal(n) && InIntRange(n)
    ensures Primary(toks, i) == Ok(Eval(n, i + 1))
  {
    assert Decimal(n) + [] == Decimal(n);
    StoiDecimal(n, []);
    assert toks[i][0] != '(';
  }

  /** A literal followed by the end or by a token ranked below `minPrec` is a whole operand. */
  lemma ClimbLiteral(toks: seq<string>, i: nat, n: int, minPrec: int)
    requires i < |toks| && toks[i] == Decimal(n) && InIntRange(n)
    requires StopsAt(toks, i + 1, minPrec)
    ensures Climb(toks, i, minPrec) == Ok(Eval(n, i + 1))
  {
    PrimaryLiteral(toks, i, n);
  }

  /** When the second operator ranks at least as high as the first one's right operand demands, the
      second operation is done first: `a op1 (b op2 c)`. For two operators of one level other than "^"
      this is grouping to the right, so `9 - 8 - 7` is 9 - (8 - 7). */
  lemma GroupsRight(t: seq<string>, a: int, op1: string, b: int, op2: string, c: int)
    requires Chain(t, a, op1, b, op2, c)
    requires Prec(First(op1)) >= 1 && Prec(First(op2)) >= NextMinPrec(op1)
    ensures Climb(t, 0, 1) == At(Combine(op1, Ok(a), Compute(op2, b, c)), 5)
  {
    var next := NextMinPrec(op1);
    PrimaryLiteral(t, 0, a);
    PrimaryLiteral(t, 2, b);
    ClimbLiteral(t, 4, c, NextMinPrec(op2));
    assert Climb(t, 0, 1) == ClimbLoop(t, a, 1, 1, false);
    assert Climb(t, 2, next) == ClimbLoop(t, b, 3, next, false);
    match Compute(op2, b, c)
    case Err(e) =>
      assert ClimbLoop(t, b, 3, next, false) == Err(e);
    case Ok(bc) =>
      assert ClimbLoop(t, b, 3, next, false) == ClimbLoop(t, bc, 5, next, true) == Ok(Eval(bc, 5));
      match Compute(op1, a, bc)
      case Err(e) =>
        assert ClimbLoop(t, a, 1, 1, false) == Err(e);
      case Ok(v) =>
        assert ClimbLoop(t, a, 1, 1, false) == ClimbLoop(t, v, 5, 1, true);
  }

  /** When the second operator ranks below what the first one's right operand demands, the first
      operation is done first: `(a op1 b) op2 c`. This covers a higher level before a lower one, and
      also "^" before any operator, "^" included, so `2 ^ 3 ^ 2` is (2 ^ 3) ^ 2. */
  lemma GroupsLeft(t: seq<string>, a: int, op1: string, b: int, op2: string, c: int)
    requires Chain(t, a, op1, b, op2, c)
    requires 1 <= Prec(First(op2)) < NextMinPrec(op1)
    ensures Climb(t, 0, 1) == At(Combine(op2, Compute(op1, a, b), Ok(c)), 5)
  {
    PrimaryLiteral(t, 0, a);
    ClimbLiteral(t, 2, b, NextMinPrec(op1));
    ClimbLiteral(t, 4, c, NextMinPrec(op2));
    assert Climb(t, 0, 1) == ClimbLoop(t, a, 1, 1, false);
    match Compute(op1, a, b)
    case Err(e) =>
      assert ClimbLoop(t, a, 1, 1, false) == Err(e);
    case Ok(ab) =>
      assert ClimbLoop(t, a, 1, 1, false) == ClimbLoop(t, ab, 3, 1, true);
      LastOperation(t, ab, 3, op2, c, true);
  }

  /** The loop at a final `op c` applies `op` once and stops at the end, whether or not `op` was put back. */
  lemma LastOperation(t: seq<string>, lhs: int, i: nat, op: string, c: int, putBack: bool)
    requires |t| == i + 2 && t[i] == op && t[i + 1] == Decimal(c) && InIntRange(c)
    requires Prec(First(op)) >= 1
    ensures ClimbLoop(t, lhs, i, 1, putBack) == At(Compute(op, lhs, c), i + 2)
  {
    ClimbLiteral(t, i + 1, c, NextMinPrec(Seen(t, i, putBack)));
  }

  /** A parenthesised operation is done first whatever the two operators are: `(a op1 b) op2 c`. */
  lemma ParenthesesGroupFirst(t: seq<string>, a: int, op1: string, b: int, op2: string, c: int)
    requires ParenthesisedChain(t, a, op1, b, op2, c)
    requires Prec(First(op1)) >= 1 && Prec(First(op2)) >= 1
    ensures Climb(t, 0, 1) == At(Combine(op2, Compute(op1, a, b), Ok(c)), 7)
  {
    PrimaryLiteral(t, 1, a);
    ClimbLiteral(t, 3, b, NextMinPrec(op1));
    assert Climb(t, 1, 1) == ClimbLoop(t, a, 2, 1, false);
    match Compute(op1, a, b)
    case Err(e) =>
      assert ClimbLoop(t, a, 2, 1, false) == Err(e);
      assert Primary(t, 0) == Err(e);
    case Ok(ab) =>
      assert ClimbLoop(t, a, 2, 1, false) == ClimbLoop(t, ab, 4, 1, true) == Ok(Eval(ab, 4));
      assert Primary(t, 0) == Ok(Eval(ab, 5));
      assert Climb(t, 0, 1) == ClimbLoop(t, ab, 5, 1, false);
      LastOperation(t, ab, 5, op2, c, false);
  }

  /** Because "^" groups to the left, a chain `a ^ b ^ c` computes a to the power b * c, not b ^ c. */
  lemma PowChainMultipliesExponents(t: seq<string>, a: int, b: nat, c: nat)
    requires Chain(t, a, "^", b, "^", c)
    ensures Climb(t, 0, 1) == Ok(Eval(Pow(a, b * c), 5))
  {
    GroupsLeft(t, a, "^", b, "^", c);
    PowPow(a, b, c);
  }

  /** A token other than "(" in value position with no digit after its optional sign, such as ")" or a
      lone sign, is rejected by std::stoi as an invalid literal. */
  lemma NoDigitsNoValue(toks: seq<string>, pos: nat, minPrec: int)
    requires pos < |toks| && toks[pos] != "("
    requires Unsigned(toks[pos]) == [] || !IsDigit(Unsigned(toks[pos])[0])
    ensures Climb(toks, pos, minPrec) == Err(InvalidLiteral)
  {
    StoiOutcome(toks[pos]);
    assert Primary(toks, pos) == Err(InvalidLiteral);
  }

  /** There is no unary minus: a lone "-" where a value is needed is handed to std::stoi and rejected. */
  lemma NoUnaryMinus(toks: seq<string>, pos: nat, minPrec: int)
    requires pos < |toks| && toks[pos] == "-"
    ensures Climb(toks, pos, minPrec) == Err(InvalidLiteral)
  {
    assert Unsigned("-") == [] by {
      assert SkipSpace("-") == "-";
      assert "-"[1..] == [];
    }
    NoDigitsNoValue(toks, pos, minPrec);
  }
}

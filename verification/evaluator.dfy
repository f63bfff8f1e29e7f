/** The precedence-climbing evaluator: `parse_primary`, `_pcparse` and `pcparse`.

    The functions Primary, Climb and ClimbLoop say what the procedures compute from a token sequence and
    a cursor position; the methods ParsePrimary, ParseExpr and PcParse are the procedures themselves,
    moving the cursor of a TokenStream in place, and each is proved to agree with its function. */
module Evaluator {
  import opened Results
  import opened Operators
  import opened Arith
  import opened Literal
  import opened Tokens

  /** A value and the cursor position after the tokens that produced it. */
  datatype Eval = Eval(value: int, pos: nat)

  /** `parse_primary` started at `pos`: a parenthesised expression or an integer literal. */
  function Primary(toks: seq<string>, pos: nat): (r: Result<Eval>)
    requires pos <= |toks|
    ensures r.Ok? ==> pos < r.value.pos <= |toks|
    decreases |toks| - pos, 0
  {
    if pos == |toks| then Err(UnexpectedEnd)
    else if toks[pos] == "(" then
      match Climb(toks, pos + 1, 1)
      case Err(e) => Err(e)
      case Ok(inner) =>
        if inner.pos < |toks| && Seen(toks, inner.pos, true) == ")" then Ok(Eval(inner.value, inner.pos + 1))
        else Err(UnmatchedParen)
    else
      match Stoi(toks[pos])
      case Err(e) => Err(e)
      case Ok(v) => Ok(Eval(v, pos + 1))
  }

  /** `_pcparse(tokens, minPrec)` started at `pos`: a primary, then the operator loop. */
  function Climb(toks: seq<string>, pos: nat, minPrec: int): (r: Result<Eval>)
    requires pos <= |toks|
    ensures r.Ok? ==> pos < r.value.pos <= |toks|
    decreases |toks| - pos, 2
  {
    match Primary(toks, pos)
    case Err(e) => Err(e)
    case Ok(first) => ClimbLoop(toks, first.value, first.pos, minPrec, false)
  }

  /** The `while` loop of `_pcparse` with `lhs` accumulated so far and the cursor at `pos`, where the
      token was put back by the climb that parsed the last right operand when `putBack` holds: at the end
      of the tokens, or at a token ranked below `minPrec` (which is put back), it yields `lhs`; otherwise
      it parses the right operand one level up for the token "^" and at the same level for the rest,
      applies the operator and goes round again. */
  function ClimbLoop(toks: seq<string>, lhs: int, pos: nat, minPrec: int, putBack: bool): (r: Result<Eval>)
    requires pos <= |toks|
    ensures r.Ok? ==> pos <= r.value.pos <= |toks|
    decreases |toks| - pos, 1
  {
    if pos == |toks| then Ok(Eval(lhs, pos))
    else
      var op := Seen(toks, pos, putBack);
      var prec := Prec(First(op));
      if prec < minPrec then Ok(Eval(lhs, pos))
      else
        match Climb(toks, pos + 1, NextMinPrec(op))
        case Err(e) => Err(e)
        case Ok(rhs) =>
          match Compute(op, lhs, rhs.value)
          case Err(e) => Err(e)
          case Ok(v) => ClimbLoop(toks, v, rhs.pos, minPrec, true)
  }

  /** The token the stream yields at `pos`: the token as written, or, once `stream.putback(token[0])` has
      overwritten its last character with its first one, that first character alone. */
  function Seen(toks: seq<string>, pos: nat, putBack: bool): (tok: string)
    requires pos < |toks|
    ensures First(tok) == First(toks[pos])
    ensures putBack ==> |tok| == 1
  {
    if putBack then [First(toks[pos])] else toks[pos]
  }

  /** The minimum precedence for the right operand of `op`: one above its rank for the exact token "^",
      its rank for every other operator. */
  function NextMinPrec(op: string): int {
    if op == "^" then Prec(First(op)) + 1 else Prec(First(op))
  }

  /** The right operand's minimum precedence never drops below the operator's rank, so every nested climb
      keeps a minimum precedence of at least 1; after the token "^" it rises above the rank of '^', so a
      second "^" is put back. */
  lemma NextMinPrecBounds(op: string)
    ensures NextMinPrec(op) >= Prec(First(op))
    ensures op == "^" ==> NextMinPrec(op) > Prec('^')
  {
  }

  /** `pcparse(expr)`: climb from the first token with minimum precedence 1; what follows the point where
      the climb stops is not looked at. */
  function Evaluate(expr: string): (r: Result<int>)
    ensures Tokenize(expr) == [] ==> r == Err(UnexpectedEnd)
    ensures r.Ok? ==> Tokenize(expr) != []
  {
    assert Tokenize(expr) == [] ==> Primary(Tokenize(expr), 0) == Err(UnexpectedEnd);
    Value(Climb(Tokenize(expr), 0, 1))
  }

  function Value(r: Result<Eval>): Result<int> {
    match r
    case Ok(e) => Ok(e.value)
    case Err(k) => Err(k)
  }

  /** A procedure's return value `r` and final cursor `pos` are those `spec` describes
      (the cursor after a failure is of no further use, as the exception discards the stream). */
  predicate Agrees(spec: Result<Eval>, r: Result<int>, pos: nat) {
    r == Value(spec) && (spec.Ok? ==> pos == spec.value.pos)
  }

  /** What the stream holds in front of the token at `pos`: the put-back first character of that token
      once the climb before it has stopped there, nothing otherwise. */
  function Held(toks: seq<string>, pos: nat, putBack: bool): Option<char>
    requires pos <= |toks|
  {
    if putBack && pos < |toks| then Some(First(toks[pos])) else None
  }

  method ParsePrimary(s: TokenStream, ops: OpTable) returns (r: Result<int>)
    requires s.Valid() && s.back == None && ops.Valid()
    modifies s, ops
    ensures s.Valid() && ops.Valid()
    ensures Agrees(Primary(s.toks, old(s.pos)), r, s.pos)
    ensures r.Ok? ==> s.back == None
    decreases |s.toks| - s.pos, 0
  {
    var ok, token := s.Read();
    if !ok {
      return Err(UnexpectedEnd);
    }
    if token == "(" {
      var val := ParseExpr(s, ops, 1);
      if val.Err? {
        return val;
      }
      // eat the closing parenthesis; a failed extraction leaves the token unequal to ")"
      var closed, close := s.Read();
      if !closed || close != ")" {
        return Err(UnmatchedParen);
      }
      return val;
    }
    r := Stoi(token);
  }

  method ParseExpr(s: TokenStream, ops: OpTable, minPrec: int) returns (r: Result<int>)
    requires s.Valid() && s.back == None && ops.Valid()
    modifies s, ops
    ensures s.Valid() && ops.Valid()
    ensures Agrees(Climb(s.toks, old(s.pos), minPrec), r, s.pos)
    ensures r.Ok? ==> s.back == Held(s.toks, s.pos, true)
    decreases |s.toks| - s.pos, 2
  {
    ghost var start := s.pos;
    var first := ParsePrimary(s, ops);
    if first.Err? {
      return first;
    }
    var lhs := first.value;
    ghost var putBack := false;
    ghost var goal := Climb(s.toks, start, minPrec);
    while true
      invariant s.Valid() && ops.Valid()
      invariant start < s.pos
      invariant s.back == Held(s.toks, s.pos, putBack)
      invariant goal == ClimbLoop(s.toks, lhs, s.pos, minPrec, putBack)
      decreases |s.toks| - s.pos
    {
      ghost var at := s.pos;
      var ok, token := s.Read();
      if !ok {
        break;
      }
      assert token == Seen(s.toks, at, putBack);
      var nextPrec := ops.Index(First(token));
      if nextPrec >= minPrec {
        if token == "^" {
          nextPrec := nextPrec + 1;
        }
        assert nextPrec == NextMinPrec(token);
        var rhs := ParseExpr(s, ops, nextPrec);
        if rhs.Err? {
          return rhs;
        }
        var v := Compute(token, lhs, rhs.value);
        if v.Err? {
          return v;
        }
        lhs := v.value;
        putBack := true;
      } else {
        s.PutBack(First(token));
        break;
      }
    }
    return Ok(lhs);
  }

  method PcParse(expr: string, ops: OpTable) returns (r: Result<int>)
    requires ops.Valid()
    modifies ops
    ensures ops.Valid()
    ensures r == Evaluate(expr)
  {
    var stream := new TokenStream(expr);
    r := ParseExpr(stream, ops, 1);
  }

  /** The driver's sequence without its console output: fill the table, then evaluate. */
  method Run(expr: string) returns (r: Result<int>)
    ensures r == Evaluate(expr)
  {
    var ops := new OpTable();
    ops.Init();
    r := PcParse(expr, ops);
  }
}

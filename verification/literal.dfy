/** `std::stoi` with base 10, as `parse_primary` applies it to a value token. */
module Literal {
  import opened Chars
  import opened Results

  /** The range of a 32-bit `int`. */
  const IntMin: int := -0x8000_0000
  const IntMax: int := 0x7fff_ffff

  predicate AllDigits(s: string) {
    forall i :: 0 <= i < |s| ==> IsDigit(s[i])
  }

  /** Leading white space, which `strtol` skips. */
  function SkipSpace(s: string): (t: string)
    ensures t == [] || !IsSpace(t[0])
  {
    if s != [] && IsSpace(s[0]) then SkipSpace(s[1..]) else s
  }

  /** The longest prefix of decimal digits. */
  function DigitPrefix(s: string): (d: string)
    ensures d <= s && AllDigits(d)
    ensures |d| == |s| || !IsDigit(s[|d|])
  {
    if s == [] || !IsDigit(s[0]) then [] else [s[0]] + DigitPrefix(s[1..])
  }

  /** The number a string of decimal digits denotes, most significant digit first. */
  function DigitsValue(d: string): nat
    requires AllDigits(d)
  {
    if d == [] then 0 else DigitsValue(d[..|d| - 1]) * 10 + DigitValue(d[|d| - 1])
  }

  /** Whether the literal, after its leading white space, starts with a minus sign. */
  predicate NegativeLiteral(tok: string) {
    var t := SkipSpace(tok);
    t != [] && t[0] == '-'
  }

  /** The text after the leading white space and the optional sign, where the digits must start. */
  function Unsigned(tok: string): string {
    var t := SkipSpace(tok);
    if t != [] && (t[0] == '-' || t[0] == '+') then t[1..] else t
  }

  /** `std::stoi(tok)`: skip white space, take an optional sign and the longest run of digits after it;
      no digit is std::invalid_argument, a value outside `int` is std::out_of_range. Characters after the
      digits are ignored. */
  function Stoi(tok: string): (r: Result<int>)
    ensures r.Ok? ==> IntMin <= r.value <= IntMax
    ensures r.Err? ==> r.error == InvalidLiteral || r.error == LiteralOutOfRange
  {
    var d := DigitPrefix(Unsigned(tok));
    if d == [] then Err(InvalidLiteral)
    else
      var v: int := if NegativeLiteral(tok) then -(DigitsValue(d) as int) else DigitsValue(d);
      if IntMin <= v <= IntMax then Ok(v) else Err(LiteralOutOfRange)
  }

  /** When `std::stoi` fails and what it reads: no digit after the white space and the optional sign is an
      invalid argument, digits whose value with that sign lies outside `int` are out of range, and
      otherwise the value is the digits' value with the sign applied. */
  lemma StoiOutcome(tok: string)
    ensures Stoi(tok) == Err(InvalidLiteral) <==> Unsigned(tok) == [] || !IsDigit(Unsigned(tok)[0])
    ensures Stoi(tok) == Err(LiteralOutOfRange) <==>
      Unsigned(tok) != [] && IsDigit(Unsigned(tok)[0]) &&
      DigitsValue(DigitPrefix(Unsigned(tok))) > (if NegativeLiteral(tok) then -IntMin else IntMax)
    ensures Stoi(tok).Ok? ==>
      Stoi(tok).value == (if NegativeLiteral(tok) then -1 else 1) * DigitsValue(DigitPrefix(Unsigned(tok)))
  {
  }

  /** The decimal digits of `n`, most significant first, without leading zeros. */
  function Digits(n: nat): (s: string)
    ensures s != [] && AllDigits(s)
    decreases n
  {
    if n < 10 then [DigitChar(n)] else Digits(n / 10) + [DigitChar(n % 10)]
  }

  /** The usual decimal spelling of an integer, with a leading '-' when it is negative. */
  function Decimal(n: int): (s: string)
    ensures s != [] && (IsDigit(s[0]) || s[0] == '-')
  {
    if n < 0 then "-" + Digits(-n) else Digits(n)
  }

  lemma {:induction false} DigitsValueOfDigits(n: nat)
    ensures DigitsValue(Digits(n)) == n
    decreases n
  {
    if n >= 10 {
      var s := Digits(n / 10) + [DigitChar(n % 10)];
      assert s[..|s| - 1] == Digits(n / 10);
      DigitsValueOfDigits(n / 10);
    }
  }

  lemma {:induction false} DigitPrefixOfDigits(s: string, rest: string)
    requires AllDigits(s)
    requires rest == [] || !IsDigit(rest[0])
    ensures DigitPrefix(s + rest) == s
  {
    if s != [] {
      assert (s + rest)[1..] == s[1..] + rest;
      DigitPrefixOfDigits(s[1..], rest);
    } else {
      assert s + rest == rest;
    }
  }

  /** `std::stoi` reads back any `int` from its decimal spelling, whatever non-digit text follows it. */
  lemma StoiDecimal(n: int, rest: string)
    requires IntMin <= n <= IntMax
    requires rest == [] || !IsDigit(rest[0])
    ensures Stoi(Decimal(n) + rest) == Ok(n)
  {
    if n < 0 {
      assert Decimal(n) + rest == "-" + (Digits(-n) + rest);
      StoiNegative(-n, rest);
    } else {
      StoiUnsigned(n, rest);
    }
  }

  lemma StoiNegative(m: nat, rest: string)
    requires 0 < m <= -IntMin
    requires rest == [] || !IsDigit(rest[0])
    ensures Stoi("-" + (Digits(m) + rest)) == Ok(-(m as int))
  {
    var s := "-" + (Digits(m) + rest);
    assert !IsSpace(s[0]);
    assert SkipSpace(s) == s;
    assert s[1..] == Digits(m) + rest;
    DigitPrefixOfDigits(Digits(m), rest);
    DigitsValueOfDigits(m);
  }

  lemma StoiUnsigned(m: nat, rest: string)
    requires m <= IntMax
    requires rest == [] || !IsDigit(rest[0])
    ensures Stoi(Digits(m) + rest) == Ok(m)
  {
    var s := Digits(m) + rest;
    assert IsDigit(s[0]) && !IsSpace(s[0]);
    assert SkipSpace(s) == s;
    DigitPrefixOfDigits(Digits(m), rest);
    DigitsValueOfDigits(m);
  }
}

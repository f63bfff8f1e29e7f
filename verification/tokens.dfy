/** The `stringstream` the evaluator reads: the expression split at white space, and a cursor over it. */
module Tokens {
  import opened Chars

  /** What `stream >> token` can deliver: a non-empty run of non-space characters. */
  predicate IsToken(w: string) {
    w != [] && forall i :: 0 <= i < |w| ==> !IsSpace(w[i])
  }

  /** The longest prefix of `s` without white space. */
  function Word(s: string): (w: string)
    ensures w <= s
    ensures forall i :: 0 <= i < |w| ==> !IsSpace(w[i])
    ensures |w| == |s| || IsSpace(s[|w|])
  {
    if s == [] || IsSpace(s[0]) then [] else [s[0]] + Word(s[1..])
  }

  /** The tokens successive `stream >> token` extractions deliver, in order. */
  function Tokenize(s: string): (toks: seq<string>)
    ensures forall i :: 0 <= i < |toks| ==> IsToken(toks[i])
    decreases |s|
  {
    if s == [] then []
    else if IsSpace(s[0]) then Tokenize(s[1..])
    else
      var w := Word(s);
      [w] + Tokenize(s[|w|..])
  }

  /** Tokens written out with one space between neighbours. */
  function Join(toks: seq<string>): string {
    if toks == [] then ""
    else if |toks| == 1 then toks[0]
    else toks[0] + " " + Join(toks[1..])
  }

  /** Joining two non-empty token lists is joining each and putting one space between them. */
  lemma {:induction false} JoinAppend(a: seq<string>, b: seq<string>)
    requires a != [] && b != []
    ensures Join(a + b) == Join(a) + " " + Join(b)
    decreases |a|
  {
    if |a| == 1 {
      assert (a + b)[1..] == b;
    } else {
      assert (a + b)[1..] == a[1..] + b;
      JoinAppend(a[1..], b);
    }
  }

  lemma {:induction false} WordOfToken(w: string, rest: string)
    requires IsToken(w)
    requires rest == [] || IsSpace(rest[0])
    ensures Word(w + rest) == w
    decreases |w|
  {
    assert (w + rest)[0] == w[0];
    if |w| > 1 {
      assert (w + rest)[1..] == w[1..] + rest;
      WordOfToken(w[1..], rest);
    } else {
      assert (w + rest)[1..] == rest;
    }
  }

  /** Splitting undoes joining: a sequence of tokens comes back from its spelled-out form. */
  lemma {:induction false} TokenizeJoin(toks: seq<string>)
    requires forall i :: 0 <= i < |toks| ==> IsToken(toks[i])
    ensures Tokenize(Join(toks)) == toks
    decreases |toks|
  {
    if |toks| == 1 {
      var w := toks[0];
      WordOfToken(w, []);
      assert w + [] == w;
      assert w[|w|..] == [];
    } else if |toks| > 1 {
      var w, tail := toks[0], Join(toks[1..]);
      var s := w + " " + tail;
      WordOfToken(w, " " + tail);
      assert s == w + (" " + tail);
      assert s[|w|..] == " " + tail;
      assert (" " + tail)[1..] == tail;
      TokenizeJoin(toks[1..]);
    }
  }

  datatype Option<T> = None | Some(value: T)

  /** A token stream over a `std::stringstream`: the tokens of the expression, the index of the next one
      to extract, and the character put back in front of it, if any. */
  class TokenStream {
    const toks: seq<string>
    var pos: nat
    var back: Option<char>
    /** True right after a successful extraction: exactly one character may then be put back. */
    ghost var justRead: bool

    ghost predicate Valid()
      reads this
    {
      pos <= |toks| && (back.Some? ==> pos < |toks|) && (justRead ==> pos > 0 && back.None?)
    }

    /** `stringstream stream(expr)`. */
    constructor (expr: string)
      ensures toks == Tokenize(expr) && pos == 0 && back == None && !justRead
      ensures Valid()
    {
      toks := Tokenize(expr);
      pos := 0;
      back := None;
      justRead := false;
    }

    /** `stream >> token`: the next token, or failure once the tokens are used up. A character put back
        in front of a token is read alone, since the rest of that token was consumed before it. */
    method Read() returns (ok: bool, tok: string)
      requires Valid()
      modifies this
      ensures Valid() && back == None
      ensures ok <==> old(pos) < |toks|
      ensures ok ==> pos == old(pos) + 1 && justRead
      ensures ok ==> tok == (if old(back).Some? then [old(back).value] else toks[old(pos)])
      ensures !ok ==> pos == old(pos) && !justRead
    {
      ok := pos < |toks|;
      if ok {
        tok := if back.Some? then [back.value] else toks[pos];
        pos := pos + 1;
      } else {
        tok := "";
      }
      back := None;
      justRead := ok;
    }

    /** `stream.putback(c)` right after a token was extracted: the read position moves back one character
        and, as the buffer is writable, `c` overwrites the token's last character there, so the next
        extraction yields the one-character token `c`. */
    method PutBack(c: char)
      requires Valid() && justRead
      modifies this
      ensures Valid()
      ensures pos == old(pos) - 1 && back == Some(c) && !justRead
    {
      pos := pos - 1;
      back := Some(c);
      justRead := false;
    }
  }
}

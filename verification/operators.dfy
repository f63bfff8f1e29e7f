/** The operator-precedence table OPS, its initialisation and its lookups. */
module Operators {

  /** The entries that `init` writes into OPS. */
  const InitEntries: map<char, int> := map['+' := 1, '-' := 1, '*' := 2, '/' := 2, '^' := 3]

  /** Reading key `c` of a `std::map<char, int>` through `operator[]`: a missing key reads as 0. */
  function Lookup(m: map<char, int>, c: char): int {
    if c in m then m[c] else 0
  }

  /** The precedence OPS gives `c` once `init` has run. */
  function Prec(c: char): int {
    Lookup(InitEntries, c)
  }

  /** The five characters the table knows. */
  predicate IsOperatorChar(c: char) {
    c == '+' || c == '-' || c == '*' || c == '/' || c == '^'
  }

  /** `token[0]`: the first character of a token; `std::string` yields '\0' at index 0 of an empty string. */
  function First(tok: string): char {
    if |tok| == 0 then '\0' else tok[0]
  }

  /** The levels of the table: `+ -` lowest, `* /` in between, `^` highest, anything else 0. */
  lemma PrecedenceLevels(c: char)
    ensures Prec('+') == Prec('-') == 1
    ensures Prec('*') == Prec('/') == 2
    ensures Prec('^') == 3
    ensures Prec(c) >= 1 <==> IsOperatorChar(c)
    ensures !IsOperatorChar(c) ==> Prec(c) == 0
  {
  }

  /** The five assignments of `init`, one after another, merge the table with `InitEntries`. */
  lemma InitUpdates(m: map<char, int>)
    ensures m['+' := 1]['-' := 1]['*' := 2]['/' := 2]['^' := 3] == m + InitEntries
  {
    var u := m['+' := 1]['-' := 1]['*' := 2]['/' := 2]['^' := 3];
    assert u.Keys == m.Keys + InitEntries.Keys;
  }

  /** The process-wide map OPS: filled by `init`, read (and grown) by `OPS[c]`. */
  class OpTable {
    var entries: map<char, int>

    /** Every key reads as its precedence: the operators as `init` set them, anything else as 0. */
    ghost predicate Valid()
      reads this
    {
      forall c :: Lookup(entries, c) == Prec(c)
    }

    /** A static `std::map` starts out empty. */
    constructor ()
      ensures entries == map[]
    {
      entries := map[];
    }

    /** `init`: store the five precedences. */
    method Init()
      modifies this
      ensures entries == old(entries) + InitEntries
      ensures (forall c :: c in old(entries) ==> old(entries)[c] == 0) ==> Valid()
    {
      entries := entries['+' := 1];
      entries := entries['-' := 1];
      entries := entries['*' := 2];
      entries := entries['/' := 2];
      entries := entries['^' := 3];
      InitUpdates(old(entries));
    }

    /** `OPS[c]`: the stored value, after inserting 0 for a missing key. The insertion changes no later lookup. */
    method Index(c: char) returns (p: int)
      modifies this
      ensures p == Lookup(old(entries), c)
      ensures entries == old(entries)[c := p]
      ensures forall d :: Lookup(entries, d) == Lookup(old(entries), d)
      ensures old(Valid()) ==> Valid() && p == Prec(c)
    {
      if c !in entries {
        entries := entries[c := 0];
      }
      p := entries[c];
    }
  }
}

/** Small definitions that several modules share. */
module Basics {
  const U64_MAX: nat := 0xffff_ffff_ffff_ffff

  /** How an attempt ended. */
  datatype TerminalState = Complete | Error | Cancelled | Incomplete

  function Min(a: nat, b: nat): nat { if a <= b then a else b }

  function LowerChar(c: char): char { if 'A' <= c <= 'Z' then c + 32 as char else c }

  lemma {:induction false} SubsetSize<T>(a: set<T>, b: set<T>)
    requires a <= b
    ensures |a| <= |b|
  {
    assert b == a + (b - a);
  }
}

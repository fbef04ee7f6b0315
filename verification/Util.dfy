/** What several modules need: optional values, bytes, small numbers, and sequences and sets of numbers. */
module Util {

  datatype Option<+T> = None | Some(value: T)

  type byte = b: int | 0 <= b < 256

  function Min(a: int, b: int): int { if a < b then a else b }

  function Max(a: int, b: int): int { if a < b then b else a }

  predicate Distinct(s: seq<int>) {
    forall i, j :: 0 <= i < j < |s| ==> s[i] != s[j]
  }

  /** b with chunk laid over it from position `at` on. */
  function Overlaid(b: seq<byte>, at: nat, chunk: seq<byte>): (r: seq<byte>)
    requires at + |chunk| <= |b|
    ensures |r| == |b|
  { b[..at] + chunk + b[at + |chunk|..] }

  /** The n numbers from lo on. */
  function Range(lo: nat, n: nat): (r: set<nat>)
    ensures |r| == n
    ensures forall x :: x in r <==> lo <= x < lo + n
  { if n == 0 then {} else Range(lo, n - 1) + {lo + n - 1} }

  lemma {:induction false} SubsetSize(a: set<nat>, b: set<nat>)
    requires a <= b
    ensures |a| <= |b|
  {
    if a != {} {
      var x :| x in a;
      SubsetSize(a - {x}, b - {x});
    }
  }
}

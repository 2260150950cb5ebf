/** Small helpers shared by every module: an optional value, duplicate-free listings and division by a
    positive radix, the only non-linear arithmetic the address proofs need. */
module Basics {

  datatype Option<+T> = None | Some(value: T)

  function AtLeastZero(x: int): nat {
    if x < 0 then 0 else x
  }

  predicate Distinct(s: seq<nat>) {
    forall i, j | 0 <= i < j < |s| :: s[i] != s[j]
  }

  /** A number splits into quotient and remainder in exactly one way. */
  lemma DivModUnique(q: int, r: int, b: int)
    requires 0 <= r < b
    ensures (q * b + r) / b == q
    ensures (q * b + r) % b == r
  {
    var a := q * b + r;
    assert a == (a / b) * b + a % b;
    var k := q - a / b;
    assert k * b == a % b - r;
    assert k >= 1 ==> k * b >= b;
    assert k <= -1 ==> k * b <= -b;
  }

  /** A digit pair (q, r) in radix b stays below n * b. */
  lemma MixedRadixBound(q: int, r: int, n: int, b: int)
    requires 0 <= q < n && 0 <= r < b
    ensures 0 <= q * b + r < n * b
  {
    assert (n - 1 - q) * b >= 0;
    assert (n - 1 - q) * b == n * b - b - q * b;
  }

  /** The block after a block below n still ends at or before n blocks. */
  lemma NextMultiple(q: int, n: int, b: int)
    requires q < n && 0 <= b
    ensures q * b + b <= n * b
  {
    assert (n - q - 1) * b >= 0;
  }

  /** The quotient of a number below n * b is below n. */
  lemma QuotientBound(a: int, n: int, b: int)
    requires 0 < b && 0 <= a < n * b
    ensures 0 <= a / b < n
  {
    var k := a / b - n;
    assert a == (a / b) * b + a % b;
    assert k >= 0 ==> k * b >= 0;
  }
}

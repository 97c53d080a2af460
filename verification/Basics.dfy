/** Small value types shared by every component. */
module Basics {

  datatype Option<+T> = None | Some(value: T)

  function Min(a: int, b: int): int {
    if a <= b then a else b
  }

  function Max(a: int, b: int): int {
    if a <= b then b else a
  }

  /** `s` lists every element of `all` exactly once, in some order. */
  ghost predicate Enumerates<T(!new)>(s: seq<T>, all: set<T>) {
    && (forall x :: x in s <==> x in all)
    && (forall i, j :: 0 <= i < j < |s| ==> s[i] != s[j])
  }

  /** To the nearest integer, halves to even, as Python rounds. */
  function DividedAndRounded(a: int, n: int): (q: int)
    requires n > 0
    ensures 2 * a - n <= 2 * n * q <= 2 * a + n
  {
    var q, r := a / n, a % n;
    assert n * q == a - r && n * (q + 1) == a - r + n;
    if 2 * r > n || (2 * r == n && q % 2 != 0) then q + 1 else q
  }

  lemma Scaled(a: int, b: int, c: int)
    requires a <= b && 0 <= c
    ensures a * c <= b * c
  {
  }

  /** What lies halfway goes to the even side. */
  lemma HalvesToEven(a: int, n: int)
    requires n > 0 && 2 * (a % n) == n
    ensures DividedAndRounded(a, n) % 2 == 0
  {
  }
}

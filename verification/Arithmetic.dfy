/** Multiplication, division and remainder by a variable, one step at a time. */
module Arithmetic {
  lemma MulLe(d: int, a: int, b: int)
    requires d > 0 && a <= b
    ensures d * a <= d * b
  {}

  lemma MulLt(d: int, a: int, b: int)
    requires d > 0 && a < b
    ensures d * a < d * b
  {}

  lemma MulNext(d: int, q: int)
    ensures d * (q + 1) == d * q + d
  {}

  lemma MulPositive(a: int, b: int)
    requires a > 0 && b > 0
    ensures a * b > 0
  {}

  lemma MulAssoc(a: int, b: int, c: int)
    ensures a * b * c == a * (b * c)
  {}

  lemma Distribute(a: int, b: int, c: int)
    ensures a * (b + c) == a * b + a * c
  {}

  lemma DivMod(n: nat, d: nat) returns (q: nat, r: nat)
    requires d > 0
    ensures q == n / d && r == n % d && n == d * q + r && r < d
  {
    q, r := n / d, n % d;
  }

  /** Quotient and remainder are the only such numbers. */
  lemma DivUnique(a: int, d: int, q: int, r: int)
    requires d > 0 && a == d * q + r && 0 <= r < d
    ensures a / d == q && a % d == r
  {
    var q' := a / d;
    assert a == d * q' + a % d;
    if q' < q { MulLe(d, q' + 1, q); }
    if q < q' { MulLe(d, q + 1, q'); }
  }

  /** The place s steps after `start` on a ring of n. */
  function Wrap(start: int, s: int, n: int): (p: int)
    requires 0 <= start < n && 0 <= s <= n
    ensures 0 <= p < n
  {
    if start + s < n then start + s else start + s - n
  }

  lemma WrapIsMod(start: int, s: int, n: int)
    requires 0 <= start < n && 0 <= s <= n
    ensures (start + s) % n == Wrap(start, s, n)
  {
    if start + s < n { DivUnique(start + s, n, 0, start + s); } else { DivUnique(start + s, n, 1, start + s - n); }
  }

  /** One step further, and once round only after n steps. */
  lemma WrapStep(start: int, s: int, n: int)
    requires 0 <= start < n && 1 <= s <= n
    ensures (Wrap(start, s - 1, n) + 1) % n == Wrap(start, s, n)
    ensures Wrap(start, s, n) == start ==> s == n
  {
    var p := Wrap(start, s - 1, n) + 1;
    if p < n { DivUnique(p, n, 0, p); } else { DivUnique(p, n, 1, 0); }
  }

  /** The ring is covered. */
  lemma WrapCovers(start: int, p: int, n: int)
    requires 0 <= start < n && 0 <= p < n
    ensures exists s :: 0 <= s < n && Wrap(start, s, n) == p
  {
    var s := if start <= p then p - start else p - start + n;
    assert Wrap(start, s, n) == p;
  }
}

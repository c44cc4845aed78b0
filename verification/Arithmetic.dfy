/** Minima, maxima, and remainders and halves by counting down, so that proofs about tables need no division. */
module Arithmetic {

  function Min(a: nat, b: nat): nat { if a < b then a else b }

  function Max(a: nat, b: nat): nat { if a < b then b else a }

  /** `x % n`; masking with `n - 1` is this for a power of two. */
  function Remainder(x: nat, n: nat): (r: nat)
    requires n > 0
    ensures r < n
  {
    if x < n then x else Remainder(x - n, n)
  }

  lemma QuotientIsUnique(x: nat, n: nat, q: nat, r: nat)
    requires n > 0 && r < n && x == q * n + r
    ensures x % n == r && x / n == q
  {
    var p, s := x / n, x % n;
    assert x == p * n + s;
    assert p < q ==> (p + 1) * n <= q * n;
    assert q < p ==> (q + 1) * n <= p * n;
  }

  lemma {:induction false} RemainderIsModulo(x: nat, n: nat)
    requires n > 0
    ensures Remainder(x, n) == x % n
  {
    if x >= n {
      RemainderIsModulo(x - n, n);
      assert x % n == (x - n) % n by {
        assert x == (x - n) / n * n + (x - n) % n + n;
        assert x == ((x - n) / n + 1) * n + (x - n) % n;
        QuotientIsUnique(x, n, (x - n) / n + 1, (x - n) % n);
      }
    }
  }

  /** `n / 2` */
  function Half(n: nat): (h: nat)
    ensures 2 * h <= n <= 2 * h + 1
  {
    if n < 2 then 0 else 1 + Half(n - 2)
  }

  predicate IsPowerOfTwo(n: nat) {
    n == 1 || (n > 1 && 2 * Half(n) == n && IsPowerOfTwo(Half(n)))
  }
}

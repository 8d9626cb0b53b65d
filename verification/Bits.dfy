/** Masking and shifting by powers of two, on natural numbers. */
module Bits {

  function Pow2(k: nat): (p: nat)
    ensures p >= 1
  {
    if k == 0 then 1 else 2 * Pow2(k - 1)
  }

  ghost predicate IsPow2(n: nat)
  {
    exists k: nat :: n == Pow2(k)
  }

  /** Bitwise and. */
  function And(a: nat, b: nat): nat
    decreases a
  {
    if a == 0 || b == 0 then 0 else (a % 2) * (b % 2) + 2 * And(a / 2, b / 2)
  }

  /** Shift right. */
  function Shr(a: nat, k: nat): nat
  {
    var p := Pow2(k);
    QuotientIsNat(a, p);
    a / p
  }

  lemma QuotientIsNat(a: nat, m: nat)
    requires m > 0
    ensures a / m >= 0
  {
  }

  lemma ModDouble(a: nat, m: nat)
    requires m > 0
    ensures a % (2 * m) == a % 2 + 2 * ((a / 2) % m)
  {
    var q, r := (a / 2) / m, a % 2 + 2 * ((a / 2) % m);
    assert a / 2 == q * m + (a / 2) % m;
    assert a == q * (2 * m) + r;
    QuotientUnique(a, 2 * m, q, r);
  }

  lemma QuotientUnique(a: nat, m: nat, q: nat, r: nat)
    requires r < m && a == q * m + r
    ensures a / m == q && a % m == r
  {
    SameQuotient(m, q, r, a / m, a % m);
  }

  lemma SameQuotient(m: nat, q: int, r: int, q': int, r': int)
    requires 0 <= r < m && 0 <= r' < m && q * m + r == q' * m + r'
    ensures q == q' && r == r'
  {
    assert (q - q') * m == r' - r;
    Multiple(q - q', m);
  }

  lemma Multiple(d: int, m: nat)
    ensures d >= 1 ==> d * m >= m
    ensures d <= -1 ==> d * m + m <= 0
  {
  }

  /** The lowest bit of an odd mask lets the lowest bit through. */
  lemma AndOdd(a: nat, b: nat)
    ensures And(a, 2 * b + 1) == a % 2 + 2 * And(a / 2, b)
  {
    var mask := 2 * b + 1;
    assert mask % 2 == 1 && mask / 2 == b;
  }

  /** Masking with one less than a power of two takes the remainder. */
  lemma {:induction false} AndMask(a: nat, k: nat)
    ensures And(a, Pow2(k) - 1) == a % Pow2(k)
    decreases k
  {
    if k > 0 {
      var half := Pow2(k - 1);
      AndMask(a / 2, k - 1);
      AndOdd(a, half - 1);
      ModDouble(a, half);
    } else {
      assert Pow2(k) == 1;
    }
  }

  /** The bucket of hash value `h` in a table of `size` buckets is a valid index. */
  lemma MaskInRange(h: nat, size: nat)
    requires IsPow2(size)
    ensures And(h, size - 1) == h % size < size
  {
    var k: nat :| size == Pow2(k);
    AndMask(h, k);
  }

  lemma DoublePow2(n: nat)
    requires IsPow2(n)
    ensures IsPow2(2 * n)
  {
    var k: nat :| n == Pow2(k);
    assert 2 * n == Pow2(k + 1);
  }

  /** A mask bounds what it lets through. */
  lemma {:induction false} AndAtMost(a: nat, b: nat)
    ensures And(a, b) <= b
    decreases a
  {
    if a > 0 && b > 0 {
      AndAtMost(a / 2, b / 2);
      assert (a % 2) * (b % 2) <= b % 2 by {
        assert a % 2 == 0 || a % 2 == 1;
      }
    }
  }
}

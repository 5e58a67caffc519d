/** Machine integers and small wrappers shared by every component. */
module Types {
  const TWO_TO_THE_32: nat := 0x1_0000_0000
  const TWO_TO_THE_64: nat := 0x1_0000_0000_0000_0000

  type u64 = x: nat | x < TWO_TO_THE_64

  type byte = x: nat | x < 0x100

  type pos = x: nat | x > 0 witness 1

  datatype Option<+T> = None | Some(value: T)

  lemma LessFromProduct(a: int, b: int, d: nat)
    requires d > 0 && a * d < b * d
    ensures a < b
  {}

  lemma QuotientIs(n: nat, d: nat, q: nat, r: nat)
    requires d > 0 && n == q * d + r && r < d
    ensures n / d == q && n % d == r
  {
    assert n == (n / d) * d + n % d;
    assert (n / d) * d < (q + 1) * d;
    assert q * d < (n / d + 1) * d;
    LessFromProduct(n / d, q + 1, d);
    LessFromProduct(q, n / d + 1, d);
  }

  /** A multiple of the divisor does not change the remainder. */
  lemma ModAddMultiple(x: nat, q: nat, n: nat)
    requires n > 0
    ensures (x + q * n) % n == x % n
  {
    assert x + q * n == (x / n + q) * n + x % n by {
      assert x == (x / n) * n + x % n;
      assert (x / n + q) * n == (x / n) * n + q * n;
    }
    QuotientIs(x + q * n, n, x / n + q, x % n);
  }

  lemma AddMod(x: nat, y: nat, n: nat)
    requires n > 0
    ensures (x % n + y) % n == (x + y) % n
  {
    ModAddMultiple(x % n + y, x / n, n);
    assert x == (x / n) * n + x % n;
  }
}

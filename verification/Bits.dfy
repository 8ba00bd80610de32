/** C integers and their bit operations on natural numbers. A mask of k ones is `% Pow2(k)`,
    a left shift by k is `* Pow2(k)`, and `|` is the bitwise function Or below. */
module Bits {
  import opened CTypes

  /** Arithmetic on 64 bits. */
  function Wrap(v: nat): (r: u64) { v % TWO64 }

  /** A product under a name, for proofs to which its arithmetic does not matter. */
  function Product(a: nat, b: nat): nat { a * b }
  function Pow2(k: nat): (r: nat)
    ensures r > 0
  {
    if k == 0 then 1 else 2 * Pow2(k - 1)
  }

  /** The bitwise or of two non-negative integers. */
  function Or(a: nat, b: nat): nat
    decreases a + b
  {
    if a == 0 && b == 0 then 0
    else (if a % 2 == 1 || b % 2 == 1 then 1 else 0) + 2 * Or(a / 2, b / 2)
  }

  /** `(bits & mask) << pos` for a mask of `width` ones. */
  function BitsAtPos(bits: nat, width: nat, pos: nat): nat {
    (bits % Pow2(width)) * Pow2(pos)
  }

  lemma ScaleAtLeast(e: int, d: int)
    requires d >= 0
    ensures e >= 1 ==> e * d >= d
    ensures e <= -1 ==> e * d <= -d
  {
  }

  /** Quotient and remainder are unique. */
  lemma DivIs(x: int, d: int, q: int, r: int)
    requires 0 <= r < d && x == q * d + r
    ensures x / d == q && x % d == r
  {
    var e := x / d - q;
    assert x == (x / d) * d + x % d;
    assert (x / d) * d - q * d == e * d;
    assert e * d == r - x % d;
    ScaleAtLeast(e, d);
  }

  lemma DivDiv(x: nat, d: nat, e: nat)
    requires d > 0 && e > 0
    ensures d * e > 0 && x / (d * e) == x / d / e
  {
    var q := x / d / e;
    var r1, r2 := x % d, x / d % e;
    assert x == d * (e * q + r2) + r1;
    assert d * (e * q + r2) == q * (d * e) + d * r2;
    ScaleAtLeast(e - r2, d);
    assert (e - r2) * d == d * e - d * r2;
    DivIs(x, d * e, q, d * r2 + r1);
  }

  lemma Pow2Adds(a: nat, b: nat)
    ensures Pow2(a + b) == Pow2(a) * Pow2(b)
    decreases b
  {
    if b > 0 {
      Pow2Adds(a, b - 1);
      assert Pow2(a) * (2 * Pow2(b - 1)) == 2 * (Pow2(a) * Pow2(b - 1));
    }
  }

  lemma Pow2Of40()
    ensures Pow2(40) == 0x100_0000_0000
  {
    assert Pow2(10) == 1024;
    Pow2Adds(10, 10);
    Pow2Adds(20, 20);
  }

  lemma {:induction false} OrCommutes(a: nat, b: nat)
    ensures Or(a, b) == Or(b, a)
    decreases a + b
  {
    if a != 0 || b != 0 {
      OrCommutes(a / 2, b / 2);
    }
  }

  lemma {:induction false} OrZero(a: nat)
    ensures Or(a, 0) == a && Or(0, a) == a
  {
    if a != 0 {
      OrZero(a / 2);
    }
  }

  lemma DoubleScaled(a: nat, q: nat)
    ensures a * (2 * q) == 2 * (a * q)
  {
  }

  /** Bits above position k and bits below it do not interact. */
  lemma {:induction false} OrDisjoint(a: nat, b: nat, k: nat)
    requires b < Pow2(k)
    ensures Or(a * Pow2(k), b) == a * Pow2(k) + b
    ensures Or(b, a * Pow2(k)) == a * Pow2(k) + b
    decreases k
  {
    if k == 0 {
      OrZero(a);
    } else {
      var q := Pow2(k - 1);
      var hi := a * q;
      DoubleScaled(a, q);
      assert a * Pow2(k) == 2 * hi;
      OrDisjoint(a, b / 2, k - 1);
      if 2 * hi == 0 && b == 0 {
      } else {
        assert (2 * hi) / 2 == hi && (2 * hi) % 2 == 0;
      }
      OrCommutes(a * Pow2(k), b);
    }
  }

  lemma WrapIs(v: nat)
    ensures v < TWO64 ==> Wrap(v) == v
    ensures Wrap(Wrap(v) * 10) == Wrap(v * 10)
  {
    var q, r := v / TWO64, v % TWO64;
    assert v * 10 == 10 * q * TWO64 + r * 10;
    DivIs(v * 10, TWO64, 10 * q + r * 10 / TWO64, r * 10 % TWO64);
  }

  lemma WrapSum(v: nat, w: nat)
    ensures Wrap(Wrap(v) + w) == Wrap(v + w)
    ensures Wrap(v + Wrap(w)) == Wrap(v + w)
  {
    DivIs(v + w, TWO64, v / TWO64 + (v % TWO64 + w) / TWO64, (v % TWO64 + w) % TWO64);
    DivIs(v + w, TWO64, w / TWO64 + (v + w % TWO64) / TWO64, (v + w % TWO64) % TWO64);
  }

  lemma WrapMultiple(v: nat, k: nat)
    ensures Wrap(v + Product(k, TWO64)) == Wrap(v)
  {
    DivIs(v + k * TWO64, TWO64, v / TWO64 + k, v % TWO64);
  }

  lemma WrapProduct(v: nat, d: nat)
    ensures Wrap(Product(Wrap(v), d)) == Wrap(Product(v, d))
  {
    var q, r := v / TWO64, v % TWO64;
    SplitProduct(q, r, d);
    WrapMultiple(Product(r, d), Product(q, d));
  }

  lemma SplitProduct(q: nat, r: nat, d: nat)
    ensures Product(q * TWO64 + r, d) == Product(r, d) + Product(Product(q, d), TWO64)
  {
    assert (q * TWO64 + r) * d == r * d + q * d * TWO64;
  }
}

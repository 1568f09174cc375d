/** Powers of two, 32-bit ranges, and the uniqueness of quotient and remainder. */
module Arithmetic {

  const TWO_TO_31: int := 0x8000_0000
  const TWO_TO_32: int := 0x1_0000_0000

  predicate Int32(v: int)
  {
    -TWO_TO_31 <= v < TWO_TO_31
  }

  predicate AreBytes(b: seq<nat>)
  {
    forall i :: 0 <= i < |b| ==> b[i] < 256
  }

  function Pow2(k: nat): (p: nat)
    ensures p > 0
  {
    if k == 0 then 1 else 2 * Pow2(k - 1)
  }

  lemma {:induction false} Pow2Sum(a: nat, b: nat)
    ensures Pow2(a + b) == Pow2(a) * Pow2(b)
  {
    if a > 0 {
      Pow2Sum(a - 1, b);
      DoubleProduct(Pow2(a - 1), Pow2(b));
    }
  }

  lemma {:induction false} DoubleProduct(x: nat, y: nat)
    ensures (2 * x) * y == 2 * (x * y)
  {
  }

  lemma {:induction false} Pow2Monotone(a: nat, b: nat)
    requires a <= b
    ensures Pow2(a) <= Pow2(b)
  {
    if a < b {
      Pow2Monotone(a, b - 1);
    }
  }

  lemma {:induction false} Pow2Words()
    ensures Pow2(7) == 128 && Pow2(31) == TWO_TO_31 && Pow2(32) == TWO_TO_32
  {
    assert Pow2(8) == 256 && Pow2(7) == 128 by {
      assert Pow2(4) == 16;
    }
    Pow2Sum(8, 8);
    Pow2Sum(8, 7);
    Pow2Sum(16, 15);
    Pow2Sum(16, 16);
  }

  lemma {:induction false} AtLeastOnce(e: int, a: int)
    requires a > 0
    ensures (e > 0 ==> e * a >= a) && (e < 0 ==> e * a <= -a)
    decreases if e < 0 then -e else e
  {
    if e > 1 {
      AtLeastOnce(e - 1, a);
      assert e * a == (e - 1) * a + a;
    } else if e < -1 {
      AtLeastOnce(e + 1, a);
      assert e * a == (e + 1) * a - a;
    }
  }

  lemma {:induction false} RemainderIs(x: nat, a: nat, q: nat, r: nat)
    requires a > 0 && r < a && x == q * a + r
    ensures x % a == r && x / a == q
  {
    var d, m := x / a, x % a;
    assert x == d * a + m;
    var e := q - d;
    assert e * a == q * a - d * a;
    AtLeastOnce(e, a);
  }

  lemma {:induction false} QuotientAtMost(a: nat, n: nat, q: nat)
    requires n > 0 && a / n <= q
    ensures a < q * n + n
  {
    var d := a / n;
    assert a == d * n + a % n;
    assert (q - d) * n == q * n - d * n;
    assert (q - d) * n >= 0;
  }
}

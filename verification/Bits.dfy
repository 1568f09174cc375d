/**
 Bit operations on natural numbers, and what the masks of the ring buffer and of the hash tables and the smearing of
 NextPowerOfTwo (src/Common.cpp) compute.
 */
module Bits {
  import opened Arithmetic

  function And(x: nat, y: nat): nat
  {
    if x == 0 || y == 0 then 0
    else 2 * And(x / 2, y / 2) + if x % 2 == 1 && y % 2 == 1 then 1 else 0
  }

  function Or(x: nat, y: nat): nat
  {
    if x == 0 && y == 0 then 0
    else 2 * Or(x / 2, y / 2) + if x % 2 == 1 || y % 2 == 1 then 1 else 0
  }

  // x >> s
  function ShiftRight(x: nat, s: nat): nat
  {
    if s == 0 then x else ShiftRight(x / 2, s - 1)
  }

  // The difference of two 32-bit words.
  function WordMinus(x: nat, y: nat): nat
    requires x < TWO_TO_32 && y < TWO_TO_32
  {
    if x >= y then x - y else x + TWO_TO_32 - y
  }

  /* ---- Masks ---- */

  // Masking with a power of two less one is taking the remainder.
  lemma {:induction false} MaskIsRemainder(x: nat, k: nat)
    ensures And(x, Pow2(k) - 1) == x % Pow2(k)
    decreases k
  {
    if x == 0 {
      RemainderIs(0, Pow2(k), 0, 0);
    } else if k == 0 {
      RemainderIs(x, 1, x, 0);
    } else {
      var p := Pow2(k - 1);
      MaskIsRemainder(x / 2, k - 1);
      HalvedRemainder(x, p);
      AllOnes(x, p);
    }
  }

  lemma {:induction false} AllOnes(x: nat, p: nat)
    requires x > 0 && p > 0
    ensures And(x, 2 * p - 1) == 2 * And(x / 2, p - 1) + x % 2
  {
    assert (2 * p - 1) / 2 == p - 1 && (2 * p - 1) % 2 == 1;
  }

  lemma {:induction false} HalvedRemainder(x: nat, p: nat)
    requires p > 0
    ensures x % (2 * p) == 2 * (x / 2 % p) + x % 2
  {
    var q, r := x / 2 / p, x / 2 % p;
    assert x / 2 == q * p + r;
    assert q * (2 * p) == 2 * (q * p);
    RemainderIs(x, 2 * p, q, 2 * r + x % 2);
  }

  // (index + 1) & mask
  lemma {:induction false} MaskedIncrement(i: nat, k: nat)
    requires i < Pow2(k)
    ensures And(i + 1, Pow2(k) - 1) == if i + 1 == Pow2(k) then 0 else i + 1
  {
    MaskIsRemainder(i + 1, k);
    if i + 1 == Pow2(k) {
      RemainderIs(i + 1, Pow2(k), 1, 0);
    } else {
      RemainderIs(i + 1, Pow2(k), 0, i + 1);
    }
  }

  // (write - read) & mask, in 32-bit words: the distance from read to write around the ring.
  lemma {:induction false} MaskedDistance(w: nat, r: nat, k: nat)
    requires k <= 32 && w < Pow2(k) && r < Pow2(k) && Pow2(k) <= TWO_TO_32
    ensures And(WordMinus(w, r), Pow2(k) - 1) == if r <= w then w - r else w + Pow2(k) - r
  {
    var p, x := Pow2(k), WordMinus(w, r);
    MaskIsRemainder(x, k);
    if r <= w {
      RemainderIs(x, p, 0, w - r);
    } else {
      WrappedAround(w, r, k);
    }
  }

  lemma {:induction false} WrappedAround(w: nat, r: nat, k: nat)
    requires k <= 32 && w < r < Pow2(k) && Pow2(k) <= TWO_TO_32
    ensures (w + TWO_TO_32 - r) % Pow2(k) == w + Pow2(k) - r
  {
    Pow2Words();
    Pow2Sum(32 - k, k);
    OneFewer(Pow2(32 - k), Pow2(k), w + TWO_TO_32 - r, w + Pow2(k) - r);
  }

  lemma {:induction false} OneFewer(n: nat, p: nat, x: nat, d: nat)
    requires n > 0 && d < p && x == n * p + d - p
    ensures x % p == d
  {
    assert (n - 1) * p == n * p - p;
    RemainderIs(x, p, n - 1, d);
  }

  /* ---- Single bits ---- */

  predicate Bit(x: nat, j: nat)
  {
    if j == 0 then x % 2 == 1 else Bit(x / 2, j - 1)
  }

  lemma {:induction false} BitOfShift(x: nat, s: nat, j: nat)
    ensures Bit(ShiftRight(x, s), j) == Bit(x, j + s)
    decreases s
  {
    if s > 0 {
      BitOfShift(x / 2, s - 1, j);
    }
  }

  lemma {:induction false} BitOfZero(j: nat)
    ensures !Bit(0, j)
  {
    if j > 0 {
      BitOfZero(j - 1);
    }
  }

  lemma {:induction false} BitOfOr(x: nat, y: nat, j: nat)
    ensures Bit(Or(x, y), j) == (Bit(x, j) || Bit(y, j))
  {
    if x == 0 && y == 0 {
      BitOfZero(j);
    } else {
      assert Or(x, y) / 2 == Or(x / 2, y / 2);
      if j > 0 {
        BitOfOr(x / 2, y / 2, j - 1);
      }
    }
  }

  lemma {:induction false} SameBits(x: nat, y: nat)
    requires forall j: nat :: Bit(x, j) == Bit(y, j)
    ensures x == y
    decreases x + y
  {
    if x + y > 0 {
      assert Bit(x, 0) == Bit(y, 0);
      forall j: nat ensures Bit(x / 2, j) == Bit(y / 2, j) {
        assert Bit(x, j + 1) == Bit(y, j + 1);
      }
      SameBits(x / 2, y / 2);
    }
  }

  lemma {:induction false} BitsOfOnes(k: nat, j: nat)
    ensures Bit(Pow2(k) - 1, j) == (j < k)
    decreases j
  {
    if k == 0 {
      BitOfZero(j);
    } else if j > 0 {
      assert (2 * Pow2(k - 1) - 1) / 2 == Pow2(k - 1) - 1;
      BitsOfOnes(k - 1, j - 1);
    }
  }

  // The number of bits up to the highest one.
  function Length(x: nat): nat
  {
    if x == 0 then 0 else 1 + Length(x / 2)
  }

  lemma {:induction false} LengthBounds(x: nat)
    ensures x < Pow2(Length(x)) && (x > 0 ==> Pow2(Length(x) - 1) <= x)
  {
    if x > 0 {
      LengthBounds(x / 2);
    }
  }

  lemma {:induction false} TopBit(x: nat, j: nat)
    ensures j >= Length(x) ==> !Bit(x, j)
    ensures j + 1 == Length(x) ==> Bit(x, j)
  {
    if x == 0 {
      BitOfZero(j);
    } else if j > 0 {
      TopBit(x / 2, j - 1);
    }
  }

  lemma {:induction false} LengthBelow(x: nat, k: nat)
    requires x < Pow2(k)
    ensures Length(x) <= k
  {
    if x > 0 {
      LengthBelow(x / 2, k - 1);
    }
  }

  /* ---- Smearing ---- */

  // One of the n bits j, j + stride, j + 2 * stride, .. is set.
  ghost predicate SomeBit(x: nat, j: nat, n: nat, stride: nat)
  {
    exists a: nat :: a < n && Bit(x, j + a * stride)
  }

  // m has bit j set exactly when x has one of those bits set.
  ghost predicate Smeared(x: nat, m: nat, n: nat, stride: nat)
  {
    forall j: nat :: Bit(m, j) == SomeBit(x, j, n, stride)
  }

  // mask |= mask >> h halves the stride.
  lemma {:induction false} SmearStep(x: nat, m: nat, n: nat, h: nat)
    requires Smeared(x, m, n, 2 * h)
    ensures Smeared(x, Or(m, ShiftRight(m, h)), 2 * n, h)
  {
    forall j: nat ensures Bit(Or(m, ShiftRight(m, h)), j) == SomeBit(x, j, 2 * n, h) {
      BitOfOr(m, ShiftRight(m, h), j);
      BitOfShift(m, h, j);
      assert Bit(m, j) == SomeBit(x, j, n, 2 * h);
      assert Bit(m, j + h) == SomeBit(x, j + h, n, 2 * h);
      HalfStride(x, j, n, h);
    }
  }

  lemma {:induction false} StrideIndex(a: nat, h: nat)
    ensures (2 * a) * h == a * (2 * h) && (2 * a + 1) * h == h + a * (2 * h)
  {
    var d := a * h;
    assert (2 * a) * h == 2 * d && a * (2 * h) == 2 * d && (2 * a + 1) * h == 2 * d + h;
  }

  lemma {:induction false} HalfStride(x: nat, j: nat, n: nat, h: nat)
    ensures SomeBit(x, j, 2 * n, h) <==> SomeBit(x, j, n, 2 * h) || SomeBit(x, j + h, n, 2 * h)
  {
    if SomeBit(x, j, 2 * n, h) {
      ToCoarse(x, j, n, h);
    }
    if SomeBit(x, j, n, 2 * h) || SomeBit(x, j + h, n, 2 * h) {
      ToFine(x, j, n, h);
    }
  }

  lemma {:induction false} ToCoarse(x: nat, j: nat, n: nat, h: nat)
    requires SomeBit(x, j, 2 * n, h)
    ensures SomeBit(x, j, n, 2 * h) || SomeBit(x, j + h, n, 2 * h)
  {
    var a: nat :| a < 2 * n && Bit(x, j + a * h);
    FromFine(x, j, n, h, a);
  }

  lemma {:induction false} ToFine(x: nat, j: nat, n: nat, h: nat)
    requires SomeBit(x, j, n, 2 * h) || SomeBit(x, j + h, n, 2 * h)
    ensures SomeBit(x, j, 2 * n, h)
  {
    if SomeBit(x, j, n, 2 * h) {
      var a: nat :| a < n && Bit(x, j + a * (2 * h));
      EvenFine(x, j, n, h, a);
    } else {
      var a: nat :| a < n && Bit(x, (j + h) + a * (2 * h));
      OddFine(x, j, n, h, a);
    }
  }

  lemma {:induction false} EvenFine(x: nat, j: nat, n: nat, h: nat, a: nat)
    requires a < n && Bit(x, j + a * (2 * h))
    ensures SomeBit(x, j, 2 * n, h)
  {
    StrideIndex(a, h);
    BitFound(x, j, 2 * n, h, 2 * a, j + a * (2 * h));
  }

  lemma {:induction false} OddFine(x: nat, j: nat, n: nat, h: nat, a: nat)
    requires a < n && Bit(x, (j + h) + a * (2 * h))
    ensures SomeBit(x, j, 2 * n, h)
  {
    StrideIndex(a, h);
    BitFound(x, j, 2 * n, h, 2 * a + 1, (j + h) + a * (2 * h));
  }

  lemma {:induction false} BitFound(x: nat, j: nat, n: nat, stride: nat, a: nat, i: nat)
    requires a < n && i == j + a * stride && Bit(x, i)
    ensures SomeBit(x, j, n, stride)
  {
  }

  lemma {:induction false} FromFine(x: nat, j: nat, n: nat, h: nat, a: nat)
    requires a < 2 * n && Bit(x, j + a * h)
    ensures SomeBit(x, j, n, 2 * h) || SomeBit(x, j + h, n, 2 * h)
  {
    var b := a / 2;
    StrideIndex(b, h);
    if a % 2 == 0 {
      assert a == 2 * b;
      BitFound(x, j, n, 2 * h, b, j + a * h);
    } else {
      assert a == 2 * b + 1;
      BitFound(x, j + h, n, 2 * h, b, j + a * h);
    }
  }

  lemma {:induction false} SmearStart(x: nat)
    ensures Smeared(x, x, 1, 32)
  {
    forall j: nat ensures Bit(x, j) == SomeBit(x, j, 1, 32) {
      assert j + 0 * 32 == j;
    }
  }

  // Smeared over 32 neighbours, a word has all bits below its length set.
  lemma {:induction false} SmearedIsOnes(x: nat, m: nat)
    requires x < TWO_TO_32 && Smeared(x, m, 32, 1)
    ensures m == Pow2(Length(x)) - 1
  {
    var k := Length(x);
    Pow2Words();
    LengthBelow(x, 32);
    forall j: nat ensures Bit(m, j) == Bit(Pow2(k) - 1, j) {
      BitsOfOnes(k, j);
      assert Bit(m, j) == SomeBit(x, j, 32, 1);
      if j < k {
        TopBit(x, k - 1);
        assert Bit(x, j + (k - 1 - j) * 1);
      } else {
        forall a: nat ensures !Bit(x, j + a * 1) {
          TopBit(x, j + a * 1);
        }
      }
    }
    SameBits(m, Pow2(k) - 1);
  }

  // NextPowerOfTwo: the least power of two that is at least val.
  method NextPowerOfTwo(val: nat) returns (p: nat, ghost k: nat)
    requires 1 <= val <= TWO_TO_31
    ensures p == Pow2(k) && k <= 31 && val <= p
    ensures forall j: nat :: val <= Pow2(j) ==> p <= Pow2(j)
  {
    var x := val - 1;
    var mask := x;
    SmearStart(x);
    SmearStep(x, mask, 1, 16);
    mask := Or(mask, ShiftRight(mask, 16));
    SmearStep(x, mask, 2, 8);
    mask := Or(mask, ShiftRight(mask, 8));
    SmearStep(x, mask, 4, 4);
    mask := Or(mask, ShiftRight(mask, 4));
    SmearStep(x, mask, 8, 2);
    mask := Or(mask, ShiftRight(mask, 2));
    SmearStep(x, mask, 16, 1);
    mask := Or(mask, ShiftRight(mask, 1));
    SmearedIsOnes(x, mask);
    k := Length(x);
    LeastPower(val);
    p := mask + 1;
  }

  lemma {:induction false} LeastPower(val: nat)
    requires 1 <= val <= TWO_TO_31
    ensures var k := Length(val - 1);
            k <= 31 && val <= Pow2(k) && forall j: nat :: val <= Pow2(j) ==> Pow2(k) <= Pow2(j)
  {
    var x, k := val - 1, Length(val - 1);
    Pow2Words();
    LengthBounds(x);
    LengthBelow(x, 31);
    forall j: nat | val <= Pow2(j) ensures Pow2(k) <= Pow2(j) {
      LengthBelow(x, j);
      Pow2Monotone(k, j);
    }
  }

  // The least power of two above a power of two is its double, so NextPowerOfTwo(size + 1) doubles a table.
  lemma {:induction false} NextAfterPower(k: nat, j: nat)
    requires Pow2(k) + 1 <= Pow2(j)
    requires forall i: nat :: Pow2(k) + 1 <= Pow2(i) ==> Pow2(j) <= Pow2(i)
    ensures Pow2(j) == 2 * Pow2(k)
  {
    if j <= k {
      Pow2Monotone(j, k);
    } else {
      Pow2Monotone(k + 1, j);
    }
    assert Pow2(k) + 1 <= Pow2(k + 1);
  }
}

/** The size classes of the buffer pool: powers of two from 4 KB to 128 MB. */
module SizeClasses {
  const SIZE_CLASSES: nat := 16
  const POOL_MAX_SIZE: nat := 4096 * 32768

  function Pow2(k: nat): (p: nat)
    ensures p >= 1
  {
    if k == 0 then 1 else 2 * Pow2(k - 1)
  }

  /** The number of binary digits: the word size less the leading zeros. */
  function Bits(n: nat): nat
  {
    if n == 0 then 0 else 1 + Bits(n / 2)
  }

  function SizeToClass(size: nat): nat
  {
    Pow2Known();
    if size <= 4096 then 0
    else
      BitsAbove(size - 1, 12);
      var k := Bits(size - 1) - 12;
      if k >= SIZE_CLASSES then SIZE_CLASSES - 1 else k
  }

  function ClassToSize(k: nat): nat
  {
    4096 * Pow2(k)
  }

  lemma OneDigitMore(n: nat)
    ensures Bits(0) == 0 && (n > 0 ==> Bits(n) == 1 + Bits(n / 2))
  {
  }

  lemma Doubled(k: nat)
    ensures Pow2(0) == 1 && Pow2(k + 1) == 2 * Pow2(k)
  {
  }

  lemma {:induction false} BitsBound(n: nat)
    requires n > 0
    ensures Bits(n) >= 1 && Pow2(Bits(n) - 1) <= n < Pow2(Bits(n))
  {
    hide Bits, Pow2;
    OneDigitMore(n);
    OneDigitMore(n / 2);
    Doubled(0);
    if n > 1 {
      BitsBound(n / 2);
      Doubled(Bits(n / 2) - 1);
      Doubled(Bits(n / 2));
    }
  }

  lemma {:induction false} Pow2Grows(j: nat, k: nat)
    requires j < k
    ensures 2 * Pow2(j) <= Pow2(k)
  {
    if j < k - 1 { Pow2Grows(j, k - 1); }
  }

  lemma Pow2Known()
    ensures Pow2(12) == 4096 && Pow2(15) == 32768
  {
    assert Pow2(6) == 64;
    assert Pow2(10) == 1024;
  }

  lemma BitsAbove(n: nat, k: nat)
    requires n >= Pow2(k)
    ensures Bits(n) > k
  {
    BitsBound(n);
    if Bits(n) < k { Pow2Grows(Bits(n), k); }
  }

  lemma BitsBelow(n: nat, k: nat)
    requires 0 < n < Pow2(k)
    ensures Bits(n) <= k
  {
    BitsBound(n);
    var m: nat := Bits(n) - 1;
    if k < m { Pow2Grows(k, m); }
  }

  lemma {:induction false} Pow2Shift(k: nat)
    ensures Pow2(12 + k) == 4096 * Pow2(k)
  {
    Pow2Known();
    if k > 0 { Pow2Shift(k - 1); }
  }

  /** The power of two that has as many digits as a number holds it, and smaller
      ones do not. */
  lemma DigitsFit(n: nat, bits: nat)
    requires n > 0 && bits == Bits(n) && bits >= 12
    ensures n < 4096 * Pow2(bits - 12)
    ensures forall k: nat :: k < bits - 12 ==> 4096 * Pow2(k) <= n
  {
    BitsBound(n);
    Pow2Shift(bits - 12);
    hide Bits;
    forall k: nat | k < bits - 12
      ensures 4096 * Pow2(k) <= n
    {
      Pow2Shift(k);
      NotPastHalf(k, bits);
    }
  }

  lemma NotPastHalf(k: nat, bits: nat)
    requires k < bits - 12
    ensures Pow2(12 + k) <= Pow2(bits - 1)
  {
    if 12 + k < bits - 1 { Pow2Grows(12 + k, bits - 1); }
  }

  /** Between 4 KB and the maximum, the digits are those of a class. */
  lemma DigitsInRange(n: nat)
    requires 4096 <= n < POOL_MAX_SIZE
    ensures 12 < Bits(n) <= 27
  {
    Pow2Known();
    BitsAbove(n, 12);
    Pow2Shift(15);
    BitsBelow(n, 27);
  }

  /** For every size the pool accepts, the class is the smallest that holds it. */
  lemma SmallestClass(size: nat)
    requires 0 < size <= POOL_MAX_SIZE
    ensures SizeToClass(size) < SIZE_CLASSES
    ensures size <= ClassToSize(SizeToClass(size))
    ensures forall k: nat :: k < SizeToClass(size) ==> ClassToSize(k) < size
  {
    if size > 4096 {
      DigitsInRange(size - 1);
      DigitsFit(size - 1, Bits(size - 1));
    }
    hide Pow2, Bits;
    Pow2Known();
  }

  /** A tracked free looks the class up and passes its size on: that size has
      the same class again. */
  lemma ClassRoundTrip(k: nat)
    requires k < SIZE_CLASSES
    ensures 0 < ClassToSize(k) <= POOL_MAX_SIZE && SizeToClass(ClassToSize(k)) == k
  {
    Pow2Known();
    if k < 15 { Pow2Grows(k, 15); }
    SmallestClass(ClassToSize(k));
    var c := SizeToClass(ClassToSize(k));
    if c < k { Pow2Grows(c, k); }
  }
}

/** Bitwise "and" on unsigned integers and the mask identity that linear probing relies on. */
module BitMask {

  function Pow2(k: nat): (p: nat)
    ensures p >= 1
  {
    if k == 0 then 1 else 2 * Pow2(k - 1)
  }

  lemma {:induction false} Pow2Monotone(i: nat, k: nat)
    requires i <= k
    ensures Pow2(i) <= Pow2(k)
  {
    if i < k {
      Pow2Monotone(i, k - 1);
    }
  }

  lemma {:induction false} Pow2Sum(i: nat, k: nat)
    ensures Pow2(i + k) == Pow2(i) * Pow2(k)
  {
    if i > 0 {
      Pow2Sum(i - 1, k);
      assert 2 * (Pow2(i - 1) * Pow2(k)) == (2 * Pow2(i - 1)) * Pow2(k);
    }
  }

  lemma Pow2Doubles(k: nat, p: nat)
    requires Pow2(k) == p
    ensures Pow2(2 * k) == p * p
  {
    Pow2Sum(k, k);
  }

  lemma TopBit()
    ensures Pow2(63) == 0x8000_0000_0000_0000
  {
    assert Pow2(1) == 2;
    Pow2Doubles(1, 2);
    Pow2Doubles(2, 4);
    Pow2Doubles(4, 16);
    Pow2Doubles(8, 256);
    Pow2Doubles(16, 65536);
    Pow2Doubles(32, 65536 * 65536);
    assert Pow2(64) == 2 * Pow2(63);
  }

  /** The bitwise "and" of two unsigned integers, bit by bit. */
  function And(x: nat, y: nat): (r: nat)
    ensures r <= y
  {
    if x == 0 || y == 0 then 0
    else (x % 2) * (y % 2) + 2 * And(x / 2, y / 2)
  }

  lemma {:induction false} MaskIsRemainder(x: nat, k: nat)
    ensures And(x, Pow2(k) - 1) == x % Pow2(k)
    decreases k
  {
    if k > 0 {
      var p := Pow2(k - 1);
      MaskIsRemainder(x / 2, k - 1);
      assert (Pow2(k) - 1) / 2 == p - 1;
      HalvedRemainder(x, p);
    }
  }

  lemma HalvedRemainder(x: nat, p: nat)
    requires p >= 1
    ensures x % (2 * p) == x % 2 + 2 * ((x / 2) % p)
  {
    var q := (x / 2) / p;
    var r := x % 2 + 2 * ((x / 2) % p);
    assert x / 2 == q * p + (x / 2) % p;
    assert x == q * (2 * p) + r by {
      assert x == 2 * (x / 2) + x % 2;
      assert 2 * (q * p) == q * (2 * p);
    }
    QuotientRemainderUnique(x, 2 * p, q, r);
  }

  lemma QuotientRemainderUnique(x: int, d: nat, q: int, r: nat)
    requires d >= 1 && r < d && x == q * d + r
    ensures x % d == r
  {
    var q' := x / d;
    if q > q' {
      MultipleAtLeast(q - q', d);
    } else if q < q' {
      MultipleAtLeast(q' - q, d);
    }
  }

  lemma MultipleAtLeast(a: int, d: nat)
    requires a >= 1
    ensures a * d >= d
  {
  }
}

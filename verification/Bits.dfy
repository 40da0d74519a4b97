/** Shifts and masks of unsigned integers, as the driver uses them for division by powers of two. */
module Bits {
  /** What `uint32_t` arithmetic leaves of `x`. */
  function Wrap(x: int): nat { x % 0x1_0000_0000 }

  /** What is left of a `uint16_t` in an `int16_t`. */
  function Int16(n: nat): int
    requires n < 0x1_0000
  {
    if n < 0x8000 then n else n - 0x1_0000
  }


  function Pow2(k: nat): (r: nat)
    ensures r >= 1
  {
    if k == 0 then 1 else 2 * Pow2(k - 1)
  }

  /** The `k` of a power of two 2^k. */
  function Log2(n: nat): nat { if n < 2 then 0 else 1 + Log2(n / 2) }

  lemma {:induction false} Log2OfPow2(k: nat)
    ensures Log2(Pow2(k)) == k
  {
    if k > 0 {
      Log2OfPow2(k - 1);
    }
  }

  /** x << k */
  function Shl(x: nat, k: nat): nat
  {
    if k == 0 then x else 2 * Shl(x, k - 1)
  }

  /** x >> k */
  function Shr(x: nat, k: nat): nat
  {
    if k == 0 then x else Shr(x, k - 1) / 2
  }

  /** x & m */
  function And(x: nat, m: nat): nat
  {
    if x == 0 || m == 0 then 0
    else 2 * And(x / 2, m / 2) + (if x % 2 == 1 && m % 2 == 1 then 1 else 0)
  }

  /** The bits of `x` below bit `k`. */
  function Low(x: nat, k: nat): nat
  {
    if k == 0 then 0 else 2 * Low(x / 2, k - 1) + x % 2
  }

  /** Shifting right by k is division by 2^k. */
  lemma {:induction false} ShrStep(x: nat, k: nat)
    requires k > 0
    ensures Shr(x, k) == Shr(x / 2, k - 1)
  {
    if k > 1 {
      ShrStep(x, k - 1);
    }
  }

  /** Masking with 2^k - 1 keeps the bits below bit k. */
  lemma {:induction false} AndIsLow(x: nat, k: nat)
    ensures And(x, Pow2(k) - 1) == Low(x, k)
  {
    if k == 0 {
    } else if x == 0 {
      LowZero(k);
    } else {
      AndIsLow(x / 2, k - 1);
      assert (Pow2(k) - 1) / 2 == Pow2(k - 1) - 1;
    }
  }

  lemma {:induction false} LowZero(k: nat)
    ensures Low(0, k) == 0
  {
    if k > 0 {
      LowZero(k - 1);
    }
  }

  lemma {:induction false} ShrZero(k: nat)
    ensures Shr(0, k) == 0
  {
    if k > 0 {
      ShrZero(k - 1);
    }
  }

  /** A number is its high part shifted back plus its low part. */
  lemma {:induction false} Split(x: nat, k: nat)
    ensures x == Shl(Shr(x, k), k) + Low(x, k)
    ensures Low(x, k) < Pow2(k)
  {
    if k > 0 {
      ShrStep(x, k);
      Split(x / 2, k - 1);
    }
  }

  /** The split into high and low part is unique. */
  lemma {:induction false} Join(q: nat, r: nat, k: nat)
    requires r < Pow2(k)
    ensures Shr(Shl(q, k) + r, k) == q
    ensures Low(Shl(q, k) + r, k) == r
  {
    if k > 0 {
      var x := Shl(q, k) + r;
      assert x / 2 == Shl(q, k - 1) + r / 2;
      assert x % 2 == r % 2;
      Join(q, r / 2, k - 1);
      ShrStep(x, k);
    }
  }

  lemma {:induction false} ShlAdd(x: nat, y: nat, k: nat)
    ensures Shl(x + y, k) == Shl(x, k) + Shl(y, k)
  {
    if k > 0 {
      ShlAdd(x, y, k - 1);
    }
  }

  lemma {:induction false} ShlOne(k: nat)
    ensures Shl(1, k) == Pow2(k)
  {
    if k > 0 {
      ShlOne(k - 1);
    }
  }

  lemma {:induction false} ShlZero(k: nat)
    ensures Shl(0, k) == 0
  {
    if k > 0 {
      ShlZero(k - 1);
    }
  }

  /** Consecutive multiples of 2^k are 2^k apart. */
  lemma ShlNext(x: nat, k: nat)
    ensures Shl(x + 1, k) == Shl(x, k) + Pow2(k)
  {
    ShlAdd(x, 1, k);
    ShlOne(k);
  }

  lemma ShlMonotone(x: nat, y: nat, k: nat)
    requires x <= y
    ensures Shl(x, k) <= Shl(y, k)
  {
    ShlAdd(x, y - x, k);
  }

  lemma {:induction false} ShrMonotone(x: nat, y: nat, k: nat)
    requires x <= y
    ensures Shr(x, k) <= Shr(y, k)
  {
    if k > 0 {
      ShrMonotone(x, y, k - 1);
    }
  }

  /** x < (q << k) exactly when (x >> k) < q. */
  lemma ShrLess(x: nat, q: nat, k: nat)
    ensures x < Shl(q, k) <==> Shr(x, k) < q
  {
    Split(x, k);
    if Shr(x, k) < q {
      ShlNext(Shr(x, k), k);
      ShlMonotone(Shr(x, k) + 1, q, k);
    } else {
      ShlMonotone(q, Shr(x, k), k);
    }
  }

  lemma SameCoordinates(x: nat, y: nat, k: nat)
    requires Shr(x, k) == Shr(y, k) && Low(x, k) == Low(y, k)
    ensures x == y
  {
    Split(x, k);
    Split(y, k);
  }

  lemma {:induction false} ShrShr(x: nat, a: nat, b: nat)
    ensures Shr(x, a + b) == Shr(Shr(x, a), b)
  {
    if b > 0 {
      ShrShr(x, a, b - 1);
    }
  }

  lemma {:induction false} ShlTimes(x: nat, m: nat, k: nat)
    ensures Shl(m * x, k) == m * Shl(x, k)
  {
    if k > 0 {
      ShlTimes(x, m, k - 1);
      assert m * (2 * Shl(x, k - 1)) == 2 * (m * Shl(x, k - 1));
    }
  }

  /** How the coordinates move when a position is advanced by one. */
  lemma Advance(x: nat, k: nat)
    ensures Low(x, k) + 1 < Pow2(k) ==> Shr(x + 1, k) == Shr(x, k) && Low(x + 1, k) == Low(x, k) + 1
    ensures Low(x, k) + 1 == Pow2(k) ==> Shr(x + 1, k) == Shr(x, k) + 1 && Low(x + 1, k) == 0
  {
    Split(x, k);
    if Low(x, k) + 1 < Pow2(k) {
      Join(Shr(x, k), Low(x, k) + 1, k);
    } else {
      ShlNext(Shr(x, k), k);
      Join(Shr(x, k) + 1, 0, k);
    }
  }

  /** The high and low parts are quotient and remainder by the power of two. */
  lemma DivMod(x: nat, k: nat)
    ensures Shr(x, k) == x / Pow2(k) && Low(x, k) == x % Pow2(k)
  {
    var d, q, r := Pow2(k), Shr(x, k), Low(x, k);
    Split(x, k);
    ShlIsMul(q, k);
    Quotient(x, d, q, r);
  }

  lemma {:induction false} ShlIsMul(x: nat, k: nat)
    ensures Shl(x, k) == x * Pow2(k)
  {
    if k > 0 {
      ShlIsMul(x, k - 1);
      assert x * Pow2(k) == 2 * (x * Pow2(k - 1));
    }
  }

  /** Quotient and remainder are determined by their defining equation. */
  lemma Quotient(x: int, d: int, q: int, r: int)
    requires d > 0 && 0 <= r < d && x == q * d + r
    ensures x / d == q && x % d == r
  {
    var q', r' := x / d, x % d;
    assert x == d * q' + r' && 0 <= r' < d;
    if q >= q' + 1 {
      Scale(d, q' + 1, q);
    } else if q' >= q + 1 {
      Scale(d, q + 1, q');
    }
  }

  lemma Scale(a: nat, x: int, y: int)
    requires x <= y
    ensures a * x <= a * y
  {
  }
}

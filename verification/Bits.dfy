/** Bits of natural numbers. */
module Bits {

  /** Bitwise exclusive or. */
  function Xor(a: nat, b: nat): nat {
    if a == 0 && b == 0 then 0 else 2 * Xor(a / 2, b / 2) + if a % 2 != b % 2 then 1 else 0
  }

  function Bit(n: nat, k: nat): (b: nat)
    ensures b <= 1
  {
    if k == 0 then n % 2 else Bit(n / 2, k - 1)
  }

  function Two(m: nat): (p: nat)
    ensures p > 0
  {
    if m == 0 then 1 else 2 * Two(m - 1)
  }

  lemma {:induction false} NoBits(k: nat)
    ensures Bit(0, k) == 0
  {
    if k > 0 {
      NoBits(k - 1);
    }
  }

  /** A bit is set in the exclusive or if it is set in exactly one of the two. */
  lemma {:induction false} XorBits(a: nat, b: nat, k: nat)
    ensures Bit(Xor(a, b), k) == if Bit(a, k) != Bit(b, k) then 1 else 0
    decreases k
  {
    if a == 0 && b == 0 {
      NoBits(k);
    } else if k > 0 {
      XorBits(a / 2, b / 2, k - 1);
    }
  }

  /** A number is determined by its bits. */
  lemma {:induction false} BitsDetermine(a: nat, b: nat)
    requires forall k :: Bit(a, k) == Bit(b, k)
    ensures a == b
    decreases a + b
  {
    assert Bit(a, 0) == Bit(b, 0);
    if a > 0 || b > 0 {
      forall k: nat ensures Bit(a / 2, k) == Bit(b / 2, k) {
        assert Bit(a, k + 1) == Bit(b, k + 1);
      }
      BitsDetermine(a / 2, b / 2);
    }
  }

  lemma {:induction false} XorLaws(a: nat, b: nat)
    ensures Xor(a, b) == Xor(b, a) && Xor(a, 0) == a && Xor(a, a) == 0 && Xor(Xor(a, b), b) == a
    decreases a + b
  {
    if a > 0 || b > 0 {
      XorLaws(a / 2, b / 2);
    }
  }

  /** `n` cut above its low `m` bits: `high` are the bits above, `low` those below. */
  ghost predicate CutAt(n: nat, m: nat, high: nat, low: nat) {
    n == Two(m) * high + low && low < Two(m)
  }

  lemma CutHalf(n: nat, m: nat, high: nat, low: nat)
    requires m > 0 && CutAt(n, m, high, low)
    ensures CutAt(n / 2, m - 1, high, low / 2) && n % 2 == low % 2
  {
    var x := Two(m - 1) * high;
    assert Two(m) * high == 2 * x;
  }

  lemma {:induction false} BitCut(n: nat, m: nat, high: nat, low: nat, k: nat)
    requires CutAt(n, m, high, low)
    ensures Bit(high, k) == Bit(n, m + k)
    ensures Bit(low, k) == if k < m then Bit(n, k) else 0
    decreases m
  {
    if m == 0 {
      NoBits(k);
    } else {
      CutHalf(n, m, high, low);
      BitCut(n / 2, m - 1, high, low / 2, k);
      if k > 0 {
        BitCut(n / 2, m - 1, high, low / 2, k - 1);
      }
    }
  }

  /** The bits above the low `m`, left where they are. */
  lemma {:induction false} BitHigh(n: nat, m: nat, high: nat, low: nat, k: nat)
    requires CutAt(n, m, high, low)
    ensures low <= n && Bit(n - low, k) == if k < m then 0 else Bit(n, k)
    decreases m
  {
    if m > 0 {
      CutHalf(n, m, high, low);
      assert (n - low) / 2 == n / 2 - low / 2 && (n - low) % 2 == 0;
      if k > 0 {
        BitHigh(n / 2, m - 1, high, low / 2, k - 1);
      }
    }
  }
}

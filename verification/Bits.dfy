/** Bits of a cyclic distance, as the exchange tests them round by round. */
module Bits {
  import opened Text

  /** The value of `bit` and of `step` after k doublings. */
  function Pow2(k: nat): (p: nat)
    ensures p >= k + 1
  {
    if k == 0 then 1 else 2 * Pow2(k - 1)
  }

  /** `x & (1 << k)` is nonzero. */
  predicate Bit(x: nat, k: nat) {
    if k == 0 then x % 2 == 1 else Bit(x / 2, k - 1)
  }

  /** The low k bits of x. */
  function Low(x: nat, k: nat): (l: nat)
    ensures l <= x && l < Pow2(k)
  {
    if k == 0 then 0 else x % 2 + 2 * Low(x / 2, k - 1)
  }

  /** How many of the low k bits of x are set. */
  function PopCount(x: nat, k: nat): (c: nat)
    ensures c <= k
  {
    if k == 0 then 0 else PopCount(x, k - 1) + (if Bit(x, k - 1) then 1 else 0)
  }

  /** One more than the position of the highest set bit among the low k bits, 0 if none is set. */
  function Top(x: nat, k: nat): (t: nat)
    ensures t <= k
  {
    if k == 0 then 0 else if Bit(x, k - 1) then k else Top(x, k - 1)
  }

  /** Bit k is the one worth 2^k, and the low k bits are the remainder modulo 2^k. */
  lemma {:induction false} BitIsDigit(x: nat, k: nat)
    ensures Bit(x, k) <==> x / Pow2(k) % 2 == 1
    ensures Low(x, k) == x % Pow2(k)
  {
    if k > 0 {
      BitIsDigit(x / 2, k - 1);
      DivideTwice(x, 2, Pow2(k - 1));
      EuclidOf(x / 2, Pow2(k - 1));
      EuclidOf(x, Pow2(k));
      LowStaysLow(x, Pow2(k - 1));
    }
  }

  lemma LowStaysLow(x: nat, p: nat)
    requires p > 0
    ensures x % (2 * p) == x % 2 + 2 * (x / 2 % p)
  {
    DivideTwice(x, 2, p);
    EuclidOf(x, 2 * p);
    EuclidOf(x / 2, p);
    var q := x / 2 / p;
    assert q * (2 * p) == 2 * (q * p);
  }

  lemma {:induction false} LowStep(x: nat, k: nat)
    ensures Low(x, k + 1) == Low(x, k) + (if Bit(x, k) then Pow2(k) else 0)
  {
    if k > 0 {
      LowStep(x / 2, k - 1);
    }
  }

  /** Clearing the low k bits does not disturb bit k. */
  lemma {:induction false} BitAboveLow(x: nat, k: nat)
    ensures Bit(x - Low(x, k), k) == Bit(x, k)
  {
    if k > 0 {
      BitAboveLow(x / 2, k - 1);
      assert x - Low(x, k) == 2 * (x / 2 - Low(x / 2, k - 1));
    }
  }

  /** A number is its own low k bits exactly when it is below 2^k. */
  lemma {:induction false} LowIsAll(x: nat, k: nat)
    ensures Low(x, k) == x <==> x < Pow2(k)
  {
    if k > 0 {
      LowIsAll(x / 2, k - 1);
    }
  }

  lemma {:induction false} Pow2Mono(i: nat, j: nat)
    requires i <= j
    ensures Pow2(i) <= Pow2(j)
    decreases j
  {
    if i < j {
      Pow2Mono(i, j - 1);
    }
  }

  /** Bits at and above the top one are clear, so cutting there loses nothing. */
  lemma {:induction false} TopBounds(x: nat, k: nat)
    ensures Low(x, k) < Pow2(Top(x, k))
    ensures Top(x, k) > 0 ==> Low(x, k) >= Pow2(Top(x, k) - 1)
  {
    if k > 0 {
      LowStep(x, k - 1);
      TopBounds(x, k - 1);
    }
  }

  /** No bit is set above the number itself. */
  lemma {:induction false} PopCountSmall(x: nat, i: nat, j: nat)
    requires i <= j && x < Pow2(i)
    ensures PopCount(x, j) == PopCount(x, i)
    decreases j
  {
    if i < j {
      PopCountSmall(x, i, j - 1);
      Pow2Mono(i, j - 1);
      LowIsAll(x, j - 1);
      Pow2Mono(i, j);
      LowIsAll(x, j);
      LowStep(x, j - 1);
    }
  }

  /** The number of rounds of a full-length exchange among n ranks: ceil(log2 n). */
  function Rounds(n: nat): (k: nat)
    ensures Pow2(k) >= n
    ensures k > 0 ==> Pow2(k - 1) < n
  {
    RoundsFrom(n, 0)
  }

  function RoundsFrom(n: nat, j: nat): (k: nat)
    requires j > 0 ==> Pow2(j - 1) < n
    ensures k >= j && Pow2(k) >= n
    ensures k > 0 ==> Pow2(k - 1) < n
    decreases n - j
  {
    if Pow2(j) >= n then j else RoundsFrom(n, j + 1)
  }

  /** The loop guard `step < ranks` holds in exactly the first Rounds(n) rounds. */
  lemma {:induction false} RoundsIsGuard(n: nat, k: nat)
    ensures Pow2(k) < n <==> k < Rounds(n)
  {
    if k < Rounds(n) {
      Pow2Mono(k, Rounds(n) - 1);
    } else {
      Pow2Mono(Rounds(n), k);
    }
  }
}

/** `next_power_of_2`, by the bit length of the predecessor. */
module PowersOfTwo {

  function Pow2(k: nat): (p: int)
    ensures p >= 1
  {
    if k == 0 then 1 else 2 * Pow2(k - 1)
  }

  function BitLength(n: nat): nat {
    if n == 0 then 0 else 1 + BitLength(n / 2)
  }

  function NextPow2(n: int): int {
    if n > 0 then Pow2(BitLength(n - 1)) else 1
  }

  lemma {:induction false} BitLengthBounds(n: nat)
    ensures n < Pow2(BitLength(n))
    ensures n > 0 ==> BitLength(n) > 0 && Pow2(BitLength(n) - 1) <= n
  {
    if n > 0 {
      BitLengthBounds(n / 2);
    }
  }

  /** The least power of two that is at least `n`. */
  lemma NextPow2IsLeast(n: int, k: nat)
    requires n >= 1
    ensures n <= NextPow2(n)
    ensures n <= Pow2(k) ==> NextPow2(n) <= Pow2(k)
  {
    BitLengthBounds(n - 1);
    if BitLength(n - 1) > k {
      Pow2Monotone(k, BitLength(n - 1) - 1);
    } else {
      Pow2Monotone(BitLength(n - 1), k);
    }
  }

  lemma {:induction false} Pow2Monotone(j: nat, k: nat)
    requires j <= k
    ensures Pow2(j) <= Pow2(k)
  {
    if j < k {
      Pow2Monotone(j, k - 1);
    }
  }
}

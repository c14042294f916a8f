// Doubling delays with a ceiling, in milliseconds.

module Schedule {
  function Pow2(k: nat): (p: nat)
    ensures p >= 1
  {
    if k == 0 then 1 else 2 * Pow2(k - 1)
  }

  function Min(a: nat, b: nat): nat { if a <= b then a else b }

  // The k-th delay: base * 2^k, never over `cap`.
  function Capped(base: nat, cap: nat, k: nat): nat {
    Min(base * Pow2(k), cap)
  }

  function Doubled(delay: nat, cap: nat): nat {
    Min(delay * 2, cap)
  }

  // Doubling a capped delay gives the next capped delay.
  lemma DoubledIsNext(base: nat, cap: nat, k: nat)
    ensures Doubled(Capped(base, cap, k), cap) == Capped(base, cap, k + 1)
  {
    assert base * Pow2(k + 1) == 2 * (base * Pow2(k));
  }
}

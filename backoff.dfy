/** The capped doubling both streaming clients use between reconnects. */
module Backoff {

  function Min(a: int, b: int): int { if a <= b then a else b }
  function Max(a: int, b: int): int { if a >= b then a else b }

  /** `min(delay * 2, cap)`. */
  function Next(delay: nat, cap: nat): (r: nat)
    ensures r <= cap && r <= 2 * delay
  {
    Min(2 * delay, cap)
  }

  function Pow2(k: nat): (r: nat)
    ensures r >= 1
  {
    if k == 0 then 1 else 2 * Pow2(k - 1)
  }

  /** The delay reached from `initial` after `k` doublings: `initial` itself, then `min(initial * 2^k, cap)`. */
  function Doubled(initial: nat, cap: nat, k: nat): nat {
    if k == 0 then initial else Min(initial * Pow2(k), cap)
  }

  lemma MulTwo(a: nat, b: nat)
    ensures a * (2 * b) == 2 * (a * b)
  {
  }

  /** One more doubling of a capped delay is the capped doubled delay. */
  lemma DoubleStep(initial: nat, cap: nat, k: nat)
    ensures Next(Doubled(initial, cap, k), cap) == Doubled(initial, cap, k + 1)
  {
    var x := initial * Pow2(k);
    assert initial * Pow2(k + 1) == 2 * x by {
      MulTwo(initial, Pow2(k));
    }
  }

  /** With the defaults (start 1, cap 60) the delays run 1, 2, 4, 8, 16, 32, 60, 60. */
  lemma DefaultDoubling()
    ensures Doubled(1, 60, 0) == 1 && Doubled(1, 60, 1) == 2 && Doubled(1, 60, 2) == 4
    ensures Doubled(1, 60, 3) == 8 && Doubled(1, 60, 4) == 16 && Doubled(1, 60, 5) == 32
    ensures Doubled(1, 60, 6) == 60 && Doubled(1, 60, 7) == 60
  {
    assert Pow2(1) == 2 && Pow2(2) == 4 && Pow2(3) == 8 && Pow2(4) == 16;
    assert Pow2(5) == 32 && Pow2(6) == 64 && Pow2(7) == 128;
  }
}

/** Powers of two, and the number that two bytes make. */
module Numbers {
  function Pow2(n: nat): nat { if n == 0 then 1 else 2 * Pow2(n - 1) }

  function Pair(high: nat, low: nat): nat { high * 0x100 + low }
}

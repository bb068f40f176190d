module Numbers {
  function Max(a: int, b: int): (r: int)
    ensures r >= a && r >= b && r in {a, b}
  {
    if a > b then a else b
  }

  function Pow2(k: nat): nat {
    if k == 0 then 1 else 2 * Pow2(k - 1)
  }
}

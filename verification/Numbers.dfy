/** Machine numbers: the width the totals wrap or saturate at. */
module Numbers {
  const U64_RANGE := 0x1_0000_0000_0000_0000

  function Min(a: nat, b: nat): nat {
    if a < b then a else b
  }
}

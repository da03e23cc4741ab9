/** Sizes of the C integer types. */
module Words {
  const U8: nat := 0x100
  const U16: nat := 0x1_0000
  const U32: nat := 0x1_0000_0000
  const U64: nat := 0x1_0000_0000_0000_0000

  function Min(a: nat, b: nat): nat {
    if a < b then a else b
  }

  lemma Widths()
    ensures U8 == 256 && U16 == 65536 && U32 == 4294967296 && U64 == 18446744073709551616
  {
  }
}

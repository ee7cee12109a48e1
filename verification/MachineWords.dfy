/** The machine's number ranges, shared by the models that depend on them. */
module MachineWords {

  type Byte = n: int | 0 <= n < 256

  /** How many values a 32-bit and a 64-bit word has. */
  const WORD32: nat := 0x1_0000_0000
  const WORD64: nat := 0x1_0000_0000_0000_0000

  function Min(a: nat, b: nat): nat { if a < b then a else b }
}

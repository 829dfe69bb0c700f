module Words {

  /** Values of an unsigned 32-bit word. */
  const WORD: nat := 0x1_0000_0000
}

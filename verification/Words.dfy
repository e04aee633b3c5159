/** The sizes of the machine words of the source. */
module Words {
  const W32: nat := 0x1_0000_0000
  const W64: nat := 0x1_0000_0000_0000_0000
}

/** Bytes and 32-bit words. */
module Words {

  type byte = x: int | 0 <= x < 256

  /** One more than the largest word. */
  const WORD := 0x1_0000_0000
}

/** 32-bit words, the width of every counter and clock of the source. */
module Words {
  const WORD: nat := 0x1_0000_0000

  type U32 = n: int | 0 <= n < 0x1_0000_0000

  /** A wrapping counter stays the number of its steps mod 2^32. */
  lemma NextWord(n: nat)
    ensures (n % WORD + 1) % WORD == (n + 1) % WORD
  {}
}

/** Pointers and machine words, shared by the queues and rings. */
module Memory {

  /** Values are numbers here, and NULL is the one that says there is none. */
  const NULL: nat := 0

  /** Unsigned arithmetic is modulo 2^32. */
  const WORD: nat := 0x1_0000_0000

  /** The next pointer of a node. */
  datatype Link = Nil | To(node: nat)

  /** A counter that wraps counts up and down like one that does not. */
  lemma WordCount(x: int)
    ensures (x % WORD + 1) % WORD == (x + 1) % WORD && (x % WORD + WORD - 1) % WORD == (x - 1) % WORD
  {
  }
}

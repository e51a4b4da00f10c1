/** Chip memory as the DMA channels see it, and 32-bit pointer arithmetic.

    A DMA pointer is an unsigned 32-bit value.  A word access masks it with
    the chip memory mask (`span` is that mask plus one); an access past the
    fitted memory reads zero and writes nothing.  Pointers are always even. */
module ChipMemory {
  import opened Bits

  /** Truncation to an unsigned 32-bit pointer. */
  function Wrap(a: int): nat {
    a % 0x1_0000_0000
  }

  lemma WrapAdd(a: int, d: int)
    ensures Wrap(Wrap(a) + d) == Wrap(a + d)
  {
  }

  /** The word that a DMA read at address `a` returns. */
  function Get(mem: seq<Word>, span: nat, a: int): Word
    requires span > 0
  {
    var i := (a % span) / 2;
    if i < |mem| then mem[i] else ZERO
  }

  /** Memory after a DMA write of `w` at address `a`. */
  function Put(mem: seq<Word>, span: nat, a: int, w: Word): seq<Word>
    requires span > 0
  {
    var i := (a % span) / 2;
    if i < |mem| then mem[i := w] else mem
  }
}

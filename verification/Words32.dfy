/** Bytes in and out of 32-bit registers. */
module Words32 {
  import opened XorNat

  function WordOf(b: Byte): (w: bv32)
    ensures w <= 0xff
  {
    b as bv32
  }

  function NatOf(w: bv32): (b: Byte)
    requires w <= 0xff
  {
    w as nat
  }

  lemma RoundTrip(w: bv32)
    requires w <= 0xff
    ensures WordOf(NatOf(w)) == w
  {
  }

  /** The low byte of a register, and the register without it. */
  function Lo(c: bv32): (w: bv32)
    ensures w <= 0xff
  {
    c & 0xff
  }

  function Drop(c: bv32): bv32 { c >> 8 }

  /** The bytes of a register, low end first. */
  function BytesOf(v: bv32): (bs: seq<Byte>)
    ensures |bs| == 4
  {
    [NatOf(Lo(v)), NatOf(Lo(v >> 8)), NatOf(Lo(v >> 16)), NatOf(Lo(v >> 24))]
  }

  function Mix(c: bv32, b: Byte): bv32 { c ^ WordOf(b) }

  lemma MixKeepsHigh(c: bv32, b: Byte)
    ensures Drop(Mix(c, b)) == Drop(c)
  {
    hide WordOf;
  }

  lemma ShiftChain(v: bv32)
    ensures v >> 8 == Drop(v) && v >> 16 == Drop(Drop(v)) && v >> 24 == Drop(Drop(Drop(v)))
    ensures Drop(Drop(Drop(Drop(v)))) == 0
  {
  }

  lemma BytesDropped(v: bv32)
    ensures BytesOf(v) == [NatOf(Lo(v)), NatOf(Lo(Drop(v))), NatOf(Lo(Drop(Drop(v)))), NatOf(Lo(Drop(Drop(Drop(v)))))]
  {
    hide NatOf, Lo, Drop;
    ShiftChain(v);
  }

  /** The bytes of a register, high end first. */
  function PutBe(w: bv32): (bs: seq<Byte>)
    ensures |bs| == 4
  {
    [NatOf(Lo(w >> 24)), NatOf(Lo(w >> 16)), NatOf(Lo(w >> 8)), NatOf(Lo(w))]
  }
}

/** CD subchannel data (blkdev_cdimage.cpp): between a byte per sector column
    with one bit of each channel, and twelve bytes of each channel in a row. */
module Subchannel {
  import opened Bits

  type Byte = b: seq<bool> | |b| == 8 witness Zeros(8)

  /** 96 bytes, eight channels of 12. Bytes are bits, lowest first. */
  type Block = s: seq<Byte> | |s| == 96 witness seq(96, _ => Zeros(8))

  const ENTRY := 12

  /** A byte with one more bit, counted from the top, where `b` says so. */
  function OrBit(d: Byte, j: nat, b: bool): Byte
    requires j < 8
  {
    d[7 - j := d[7 - j] || b]
  }

  // ----- where every bit comes from

  /** Bit `k` of byte `i` of the interleaved block. */
  function InterleavedBit(s: Block, i: nat, k: nat): bool
    requires i < 96 && k < 8
  {
    s[i / 8 + (7 - k) * ENTRY][7 - i % 8]
  }

  /** Bit `k` of byte `i` of the deinterleaved block. */
  function DeinterleavedBit(s: Block, i: nat, k: nat): bool
    requires i < 96 && k < 8
  {
    s[i % ENTRY * 8 + (7 - k)][7 - i / ENTRY]
  }

  function InterleavedByte(s: Block, i: nat): (b: Byte)
    requires i < 96
    ensures forall k | 0 <= k < 8 :: b[k] == InterleavedBit(s, i, k)
  {
    seq(8, k requires 0 <= k < 8 => InterleavedBit(s, i, k))
  }

  function DeinterleavedByte(s: Block, i: nat): (b: Byte)
    requires i < 96
    ensures forall k | 0 <= k < 8 :: b[k] == DeinterleavedBit(s, i, k)
  {
    seq(8, k requires 0 <= k < 8 => DeinterleavedBit(s, i, k))
  }

  function Interleaved(s: Block): (d: Block)
    ensures forall i | 0 <= i < 96 :: d[i] == InterleavedByte(s, i)
  {
    seq(96, i requires 0 <= i < 96 => InterleavedByte(s, i))
  }

  function Deinterleaved(s: Block): (d: Block)
    ensures forall i | 0 <= i < 96 :: d[i] == DeinterleavedByte(s, i)
  {
    seq(96, i requires 0 <= i < 96 => DeinterleavedByte(s, i))
  }

  // ----- there and back

  lemma BackBit(s: Block, i: nat, k: nat)
    requires i < 96 && k < 8
    ensures DeinterleavedBit(Interleaved(s), i, k) == s[i][k]
  {
    hide Interleaved, InterleavedByte;
    var at, bit := i % ENTRY * 8 + (7 - k), 7 - i / ENTRY;
    assert Interleaved(s)[at] == InterleavedByte(s, at);
    assert at / 8 == i % ENTRY && at % 8 == 7 - k;
    assert at / 8 + (7 - bit) * ENTRY == i;
  }

  lemma ForthBit(s: Block, i: nat, k: nat)
    requires i < 96 && k < 8
    ensures InterleavedBit(Deinterleaved(s), i, k) == s[i][k]
  {
    hide Deinterleaved, DeinterleavedByte;
    var at, bit := i / 8 + (7 - k) * ENTRY, 7 - i % 8;
    assert Deinterleaved(s)[at] == DeinterleavedByte(s, at);
    assert at % ENTRY == i / 8 && at / ENTRY == 7 - k;
    assert at % ENTRY * 8 + (7 - bit) == i;
  }

  /** The two conversions undo each other on every block: each moves every bit
      to exactly one place. */
  lemma ThereAndBack(s: Block)
    ensures Deinterleaved(Interleaved(s)) == s && Interleaved(Deinterleaved(s)) == s
  {
    forall i | 0 <= i < 96
      ensures DeinterleavedByte(Interleaved(s), i) == s[i] && InterleavedByte(Deinterleaved(s), i) == s[i]
    {
      hide Interleaved, Deinterleaved, InterleavedBit, DeinterleavedBit;
      forall k | 0 <= k < 8
        ensures DeinterleavedByte(Interleaved(s), i)[k] == s[i][k]
        ensures InterleavedByte(Deinterleaved(s), i)[k] == s[i][k]
      {
        BackBit(s, i, k);
        ForthBit(s, i, k);
      }
    }
  }

  // ----- the routines

  lemma Places(i: nat, j: nat)
    requires i < 96 && j < 8
    ensures i / 8 + j * ENTRY < 96 && i % ENTRY * 8 + j < 96
  {
  }

  lemma InterleavedIs(s: Block, i: nat, k: nat)
    requires i < 96 && k < 8
    ensures i / 8 + (7 - k) * ENTRY < 96
    ensures InterleavedBit(s, i, k) == s[i / 8 + (7 - k) * ENTRY][7 - i % 8]
  {
  }

  lemma DeinterleavedIs(s: Block, i: nat, k: nat)
    requires i < 96 && k < 8
    ensures i % ENTRY * 8 + (7 - k) < 96
    ensures DeinterleavedBit(s, i, k) == s[i % ENTRY * 8 + (7 - k)][7 - i / ENTRY]
  {
  }

  /** One byte of the destination, from the top bit down. */
  method InterleaveByte(s: Block, i: nat) returns (b: Byte)
    requires i < 96
    ensures b == InterleavedByte(s, i)
  {
    hide InterleavedByte, InterleavedBit;
    b := Zeros(8);
    for j := 0 to 8
      invariant forall k | 0 <= k < 8 :: b[k] == (k >= 8 - j && InterleavedBit(s, i, k))
    {
      Places(i, j);
      InterleavedIs(s, i, 7 - j);
      b := OrBit(b, j, s[i / 8 + j * ENTRY][7 - i % 8]);
    }
  }

  method DeinterleaveByte(s: Block, i: nat) returns (b: Byte)
    requires i < 96
    ensures b == DeinterleavedByte(s, i)
  {
    hide DeinterleavedByte, DeinterleavedBit;
    b := Zeros(8);
    for j := 0 to 8
      invariant forall k | 0 <= k < 8 :: b[k] == (k >= 8 - j && DeinterleavedBit(s, i, k))
    {
      Places(i, j);
      DeinterleavedIs(s, i, 7 - j);
      b := OrBit(b, j, s[i % ENTRY * 8 + j][7 - i / ENTRY]);
    }
  }

  /** sub_to_interleaved */
  method SubToInterleaved(s: Block, d: array<Byte>)
    requires d.Length == 96
    modifies d
    ensures d[..] == Interleaved(s)
  {
    hide Interleaved, InterleavedByte;
    for i := 0 to 96
      invariant forall n | 0 <= n < i :: d[n] == InterleavedByte(s, n)
    {
      d[i] := InterleaveByte(s, i);
    }
  }

  /** sub_to_deinterleaved */
  method SubToDeinterleaved(s: Block, d: array<Byte>)
    requires d.Length == 96
    modifies d
    ensures d[..] == Deinterleaved(s)
  {
    hide Deinterleaved, DeinterleavedByte;
    for i := 0 to 96
      invariant forall n | 0 <= n < i :: d[n] == DeinterleavedByte(s, n)
    {
      d[i] := DeinterleaveByte(s, i);
    }
  }
}

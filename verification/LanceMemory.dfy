/** The A2065's board memory and the LANCE descriptors in it (a2065.cpp). */
module LanceMemory {
  import opened Modulo
  import opened Numbers
  import opened XorNat

  const RAM_SIZE := 0x8000

  type Word = n: nat | n < 0x1_0000

  /** The 32 KB of board memory. */
  type Ram = s: seq<Byte> | |s| == RAM_SIZE witness seq(RAM_SIZE, _ => 0)

  // ----- flags

  /** The high byte of the second descriptor word, highest bit first. The four
      bits in the middle are FRAM, OFLO, CRC and BUFF in a receive descriptor,
      ADD_FCS, MORE, ONE and DEF in a transmit descriptor. */
  datatype Flags = Flags(own: bool, err: bool, bit5: bool, bit4: bool, bit3: bool, bit2: bool, stp: bool, enp: bool)

  function Bit(b: bool, v: nat): nat { if b then v else 0 }

  /** Four bits in half a byte. */
  function Half(p: bool, q: bool, r: bool, s: bool): (h: nat)
    ensures h < 16
  {
    Bit(p, 8) + Bit(q, 4) + Bit(r, 2) + Bit(s, 1)
  }

  function FlagByte(f: Flags): Byte {
    16 * Half(f.own, f.err, f.bit5, f.bit4) + Half(f.bit3, f.bit2, f.stp, f.enp)
  }

  function ByteFlags(b: Byte): Flags {
    var h, l := b / 16, b % 16;
    Flags(h / 8 == 1, h / 4 % 2 == 1, h / 2 % 2 == 1, h % 2 == 1,
          l / 8 == 1, l / 4 % 2 == 1, l / 2 % 2 == 1, l % 2 == 1)
  }

  lemma HighHalf(b: Byte)
    ensures b / 0x80 == b / 16 / 8 && b / 0x40 == b / 16 / 4 && b / 0x20 == b / 16 / 2
    ensures b / 16 / 8 < 2
  {
  }

  lemma EightAbove(h: nat, l: nat)
    requires l < 16
    ensures (16 * h + l) / 8 % 2 == l / 8
  {
    Remainder(16 * h + l, 8, 2 * h + l / 8, l % 8);
    Remainder(2 * h + l / 8, 2, h, l / 8);
  }

  lemma FourAbove(h: nat, l: nat)
    requires l < 16
    ensures (16 * h + l) / 4 % 2 == l / 4 % 2
  {
    var q := l / 4;
    Remainder(16 * h + l, 4, 4 * h + q, l % 4);
    Remainder(4 * h + q, 2, 2 * h + q / 2, q % 2);
  }

  lemma TwoAbove(h: nat, l: nat)
    requires l < 16
    ensures (16 * h + l) / 2 % 2 == l / 2 % 2
  {
    var q := l / 2;
    Remainder(16 * h + l, 2, 8 * h + q, l % 2);
    Remainder(8 * h + q, 2, 4 * h + q / 2, q % 2);
  }

  lemma LowHalf(b: Byte)
    ensures b / 8 % 2 == b % 16 / 8 && b / 4 % 2 == b % 16 / 4 % 2 && b / 2 % 2 == b % 16 / 2 % 2 && b % 2 == b % 16 % 2
  {
    var h, l := b / 16, b % 16;
    EightAbove(h, l);
    FourAbove(h, l);
    TwoAbove(h, l);
  }

  /** The masks of the flags: 0x80, 0x40 and so on. */
  lemma FlagMasks(b: Byte)
    ensures var f := ByteFlags(b);
            && f.own == (b / 0x80 == 1) && f.err == (b / 0x40 % 2 == 1) && f.bit5 == (b / 0x20 % 2 == 1)
            && f.bit4 == (b / 0x10 % 2 == 1) && f.bit3 == (b / 8 % 2 == 1) && f.bit2 == (b / 4 % 2 == 1)
            && f.stp == (b / 2 % 2 == 1) && f.enp == (b % 2 == 1)
  {
    HighHalf(b);
    LowHalf(b);
  }

  lemma HalfOf(p: bool, q: bool, r: bool, s: bool)
    ensures var h := Half(p, q, r, s);
            (h / 8 == 1) == p && (h / 4 % 2 == 1) == q && (h / 2 % 2 == 1) == r && (h % 2 == 1) == s
  {
  }

  lemma FlagsRoundTrip(f: Flags)
    ensures ByteFlags(FlagByte(f)) == f
  {
    hide Half;
    HalfOf(f.own, f.err, f.bit5, f.bit4);
    HalfOf(f.bit3, f.bit2, f.stp, f.enp);
    var h, l := Half(f.own, f.err, f.bit5, f.bit4), Half(f.bit3, f.bit2, f.stp, f.enp);
    assert FlagByte(f) / 16 == h && FlagByte(f) % 16 == l;
  }

  // ----- words

  /** gword */
  function GetWord(ram: Ram, at: nat): Word
    requires at + 1 < RAM_SIZE
  {
    Pair(ram[at], ram[at + 1])
  }

  /** pword */
  function PutWord(ram: Ram, at: nat, w: Word): (r: Ram)
    requires at + 1 < RAM_SIZE
    ensures GetWord(r, at) == w
    ensures forall k | 0 <= k < RAM_SIZE && k != at && k != at + 1 :: r[k] == ram[k]
  {
    ram[at := w / 0x100][at + 1 := w % 0x100]
  }

  // ----- descriptors

  /** A descriptor: buffer address, flags and the rest of the address, two's
      complement of the buffer size, message length or status. */
  datatype Descriptor = Descriptor(d0: Word, flags: Flags, high: Byte, d2: Word, d3: Word)
  {
    /** The buffer starts here; only 15 bits of the address matter. */
    function Buffer(): (a: nat)
      ensures a < RAM_SIZE
    {
      (d0 + 0x1_0000 * (high as nat)) % RAM_SIZE
    }

    function Size(): (n: nat)
      ensures 0 < n <= 0x1_0000
    {
      0x1_0000 - d2
    }
  }

  /** A ring: it starts at 8 times `slot` and has `length` descriptors. */
  datatype Ring = Ring(slot: nat, length: nat)
  {
    predicate Valid() {
      slot < 0x1000 && 0 < length <= 128
    }

    /** The address of the descriptor at ring position `i`. */
    function Address(i: nat): (a: nat)
      requires Valid()
      ensures a % 8 == 0 && a + 8 <= RAM_SIZE
    {
      8 * ((slot + i % length) % 0x1000)
    }
  }

  /** The address as the card computes it, masked to the memory. */
  lemma MaskedAddress(ring: Ring, i: nat)
    requires ring.Valid()
    ensures (8 * ring.slot + 8 * (i % ring.length)) % RAM_SIZE == ring.Address(i)
  {
    var n := ring.slot + i % ring.length;
    assert 8 * n == RAM_SIZE * (n / 0x1000) + 8 * (n % 0x1000);
  }

  function GetDescriptor(ram: Ram, at: nat): Descriptor
    requires at + 8 <= RAM_SIZE
  {
    Descriptor(GetWord(ram, at), ByteFlags(ram[at + 2]), ram[at + 3], GetWord(ram, at + 4), GetWord(ram, at + 6))
  }

  /** Second and fourth word written back. */
  function PutStatus(ram: Ram, at: nat, flags: Flags, high: Byte, d3: Word): (r: Ram)
    requires at + 8 <= RAM_SIZE
    ensures GetDescriptor(r, at) == GetDescriptor(ram, at).(flags := flags, high := high, d3 := d3)
    ensures forall k | 0 <= k < RAM_SIZE && !(at <= k < at + 8) :: r[k] == ram[k]
  {
    FlagsRoundTrip(flags);
    PutWord(ram[at + 2 := FlagByte(flags)][at + 3 := high], at + 6, d3)
  }

  lemma SameByte(ram: Ram, r: Ram, at: nat, k: nat)
    requires at + 8 <= RAM_SIZE && ram[at..at + 8] == r[at..at + 8] && k < 8
    ensures ram[at + k] == r[at + k]
  {
    assert ram[at + k] == ram[at..at + 8][k] && r[at + k] == r[at..at + 8][k];
  }

  /** Unchanged bytes make an unchanged descriptor. */
  lemma SameDescriptor(ram: Ram, r: Ram, at: nat)
    requires at + 8 <= RAM_SIZE && ram[at..at + 8] == r[at..at + 8]
    ensures GetDescriptor(ram, at) == GetDescriptor(r, at)
  {
    hide ByteFlags;
    SameByte(ram, r, at, 0);
    SameByte(ram, r, at, 1);
    SameByte(ram, r, at, 2);
    SameByte(ram, r, at, 3);
    SameByte(ram, r, at, 4);
    SameByte(ram, r, at, 5);
    SameByte(ram, r, at, 6);
    SameByte(ram, r, at, 7);
  }

  // ----- stretches of memory that wrap around

  function Wrap(a: nat): (r: nat)
    ensures r < RAM_SIZE
  {
    a % RAM_SIZE
  }

  /** How far `a` lies behind `from`. */
  function Distance(from: nat, a: nat): (d: nat)
    ensures d < RAM_SIZE
  {
    (a - from) % RAM_SIZE
  }

  lemma DistanceWrap(from: nat, o: nat)
    requires o < RAM_SIZE
    ensures Distance(from, Wrap(from + o)) == o
  {
    var q := (from + o) / RAM_SIZE;
    assert Wrap(from + o) - from == o - RAM_SIZE * q;
  }

  lemma WrapDistance(from: nat, a: nat)
    requires a < RAM_SIZE
    ensures Wrap(from + Distance(from, a)) == a
  {
    var q := (a - from) / RAM_SIZE;
    assert from + Distance(from, a) == a - RAM_SIZE * q;
  }

  /** The first `n` bytes of `data` stored from `from` on. */
  function Copy(ram: Ram, from: nat, data: seq<Byte>, n: nat): Ram
    requires n <= |data|
  {
    if n == 0 then ram else Copy(ram, from, data, n - 1)[Wrap(from + n - 1) := data[n - 1]]
  }

  lemma {:induction false} CopyAt(ram: Ram, from: nat, data: seq<Byte>, n: nat, a: nat)
    requires n <= |data| && n <= RAM_SIZE && a < RAM_SIZE
    ensures Copy(ram, from, data, n)[a] == if Distance(from, a) < n then data[Distance(from, a)] else ram[a]
    decreases n
  {
    hide Distance, Wrap;
    if n > 0 {
      CopyAt(ram, from, data, n - 1, a);
      DistanceWrap(from, n - 1);
      WrapDistance(from, a);
    }
  }

  lemma SlotsApart(s: nat, a: nat, b: nat)
    requires s < 0x1000 && a < 128 && b < 128 && a != b
    ensures (s + a) % 0x1000 != (s + b) % 0x1000
  {
  }

  /** Ring positions of one lap lie apart. */
  lemma PositionsApart(ring: Ring, i: nat, j: nat)
    requires ring.Valid() && i % ring.length != j % ring.length
    ensures ring.Address(i) + 8 <= ring.Address(j) || ring.Address(j) + 8 <= ring.Address(i)
  {
    SlotsApart(ring.slot, i % ring.length, j % ring.length);
  }

  // ----- going round the ring

  /** The descriptor at the `j`-th position from `start`. */
  function Nth(ram: Ram, ring: Ring, start: nat, j: nat): Descriptor
    requires ring.Valid()
  {
    GetDescriptor(ram, ring.Address(start + j))
  }

  /** Address `a` lies in the `j`-th descriptor from `start`. */
  predicate InDescriptor(ring: Ring, start: nat, j: nat, a: nat)
    requires ring.Valid()
  {
    ring.Address(start + j) <= a < ring.Address(start + j) + 8
  }

  lemma PositionsDiffer(ring: Ring, start: nat, i: nat, j: nat)
    requires ring.Valid() && i < ring.length && j < ring.length && i != j
    ensures var a, b := ring.Address(start + i), ring.Address(start + j); a + 8 <= b || b + 8 <= a
  {
    LapDiffers(start, i, j, ring.length);
    PositionsApart(ring, start + i, start + j);
  }

  lemma SameNth(ram: Ram, r: Ram, ring: Ring, start: nat, i: nat)
    requires ring.Valid()
    requires forall a | 0 <= a < RAM_SIZE && InDescriptor(ring, start, i, a) :: ram[a] == r[a]
    ensures Nth(ram, ring, start, i) == Nth(r, ring, start, i)
  {
    hide GetDescriptor;
    var at := ring.Address(start + i);
    forall k | at <= k < at + 8
      ensures ram[k] == r[k]
    {
      assert InDescriptor(ring, start, i, k);
    }
    SameDescriptor(ram, r, at);
  }

  lemma ModuloTwice(a: nat, l: nat)
    requires l > 0
    ensures a % l % l == a % l
  {
    Remainder(a % l, l, 0, a % l);
  }

  lemma SamePlace(ring: Ring, a: nat, b: nat)
    requires ring.Valid() && a % ring.length == b % ring.length
    ensures ring.Address(a % ring.length) == ring.Address(a) == ring.Address(b)
  {
    ModuloTwice(a, ring.length);
  }

  lemma NextPosition(o: nat, s: nat, l: nat)
    requires l > 0 && o == s % l
    ensures (o + 1) % l == (s + 1) % l
  {
    AddModulo(s, 1, l);
  }
}

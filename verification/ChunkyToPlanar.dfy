/** Akiko's chunky-to-planar engine (akiko.cpp): the bit loop, the form with
    precomputed shifts, and the registers in front of them. */
module ChunkyToPlanar {
  import opened Bits

  /** Eight longs: 32 chunky pixels of eight bits, or eight planes of 32 bits. */
  type Eight = s: seq<Long> | |s| == 8 witness seq(8, _ => Zeros(32))

  // ----- where every bit goes

  function PlaneBit(b: Eight, p: nat, m: nat): bool
    requires p < 8 && m < 32
  {
    b[7 - m / 4][8 * (m % 4) + p]
  }

  function Plane(b: Eight, p: nat): (l: Long)
    requires p < 8
    ensures forall m | 0 <= m < 32 :: l[m] == PlaneBit(b, p, m)
  {
    seq(32, m requires 0 <= m < 32 => PlaneBit(b, p, m))
  }

  function Planes(b: Eight): (r: Eight)
    ensures forall p | 0 <= p < 8 :: r[p] == Plane(b, p)
  {
    seq(8, p requires 0 <= p < 8 => Plane(b, p))
  }

  /** Bit `p` of pixel `k`, the first pixel in the highest byte. */
  function PixelBit(b: Eight, k: nat, p: nat): bool
    requires k < 32 && p < 8
  {
    b[k / 4][8 * (3 - k % 4) + p]
  }

  /** What planar means: plane `p` holds bit `p` of every pixel, the first pixel
      in its highest bit. */
  lemma PlanesHoldPixels(b: Eight, k: nat, p: nat)
    requires k < 32 && p < 8
    ensures Planes(b)[p][31 - k] == PixelBit(b, k, p)
  {
    assert (31 - k) / 4 == 7 - k / 4 && (31 - k) % 4 == 3 - k % 4;
  }

  /** The way back. */
  function ChunkyBit(r: Eight, j: nat, x: nat): bool
    requires j < 8 && x < 32
  {
    r[x % 8][4 * (7 - j) + x / 8]
  }

  function ChunkyLong(r: Eight, j: nat): (l: Long)
    requires j < 8
    ensures forall x | 0 <= x < 32 :: l[x] == ChunkyBit(r, j, x)
  {
    seq(32, x requires 0 <= x < 32 => ChunkyBit(r, j, x))
  }

  function Chunky(r: Eight): (b: Eight)
    ensures forall j | 0 <= j < 8 :: b[j] == ChunkyLong(r, j)
  {
    seq(8, j requires 0 <= j < 8 => ChunkyLong(r, j))
  }

  lemma BackBit(b: Eight, j: nat, x: nat)
    requires j < 8 && x < 32
    ensures ChunkyBit(Planes(b), j, x) == b[j][x]
  {
    hide Planes, Plane;
    var p, m := x % 8, 4 * (7 - j) + x / 8;
    assert Planes(b)[p] == Plane(b, p);
    assert m / 4 == 7 - j && m % 4 == x / 8;
  }

  lemma ForthBit(r: Eight, p: nat, m: nat)
    requires p < 8 && m < 32
    ensures PlaneBit(Chunky(r), p, m) == r[p][m]
  {
    hide Chunky, ChunkyLong;
    var j, x := 7 - m / 4, 8 * (m % 4) + p;
    assert Chunky(r)[j] == ChunkyLong(r, j);
    assert x % 8 == p && x / 8 == m % 4;
  }

  /** The conversion is a bijection on the 256 bits. */
  lemma Bijection(b: Eight)
    ensures Chunky(Planes(b)) == b && Planes(Chunky(b)) == b
  {
    forall j | 0 <= j < 8
      ensures ChunkyLong(Planes(b), j) == b[j] && Plane(Chunky(b), j) == b[j]
    {
      hide Planes, Chunky, ChunkyBit, PlaneBit;
      forall x | 0 <= x < 32
        ensures ChunkyLong(Planes(b), j)[x] == b[j][x]
        ensures Plane(Chunky(b), j)[x] == b[j][x]
      {
        BackBit(b, j, x);
        ForthBit(b, j, x);
      }
    }
  }

  // ----- the two forms of akiko_c2p_do

  lemma BitNumber(i: nat)
    requires i < 256
    ensures i / 32 < 8 && i / 8 < 32 && i == 8 * (i / 8) + i % 8
  {
  }

  lemma SourceBit(b: Eight, i: nat)
    requires i < 256
    ensures i / 32 < 8 && i / 8 < 32 && PlaneBit(b, i % 8, i / 8) == b[7 - i / 32][i % 32]
  {
    assert i / 8 / 4 == i / 32 && 8 * (i / 8 % 4) + i % 8 == i % 32;
  }

  /** The simple form: bit after bit of the buffer, from its end. */
  method SimpleC2p(buffer: Eight, result: array<Long>)
    requires result.Length == 8
    modifies result
    ensures result[..] == Planes(buffer)
  {
    hide PlaneBit, Plane, Planes;
    for i := 0 to 8
      invariant forall p | 0 <= p < i :: result[p] == Zeros(32)
    {
      result[i] := Zeros(32);
    }
    for i := 0 to 256
      invariant forall p, m | 0 <= p < 8 && 0 <= m < 32 :: result[p][m] == (8 * m + p < i && PlaneBit(buffer, p, m))
    {
      BitNumber(i);
      SourceBit(buffer, i);
      if buffer[7 - i / 32][i % 32] {
        result[i % 8] := result[i % 8][i / 8 := true];
      }
    }
    forall p | 0 <= p < 8
      ensures result[p] == Plane(buffer, p)
    {
    }
  }

  /** 1 << i, and the test of a bit with such a mask. */
  function OneHot(i: nat): (l: Long)
    requires i < 32
  {
    Zeros(32)[i := true]
  }

  predicate Meets(a: Long, mask: Long) {
    exists k | 0 <= k < 32 :: a[k] && mask[k]
  }

  lemma MeetsOneHot(a: Long, i: nat)
    requires i < 32
    ensures Meets(a, OneHot(i)) == a[i]
  {
    if a[i] {
      assert OneHot(i)[i];
    }
  }

  lemma Term(b: Eight, i: nat, q: nat, j: nat)
    requires i < 8 && q < 4 && j < 8
    ensures (i + 8 * q) / 8 + 4 * (7 - j) == q + 4 * (7 - j) < 32
    ensures PlaneBit(b, i, q + 4 * (7 - j)) == b[j][i + 8 * q]
    ensures forall m | 0 <= m < 32 :: (m % 4 == q && m / 4 == 7 - j) == (m == q + 4 * (7 - j))
  {
    assert (q + 4 * (7 - j)) / 4 == 7 - j && (q + 4 * (7 - j)) % 4 == q;
  }

  /** The tables of akiko_precalculate. */
  class Tables {
    const shift: array<Long>
    const bytenum: array2<nat>

    ghost predicate Valid()
      reads this, shift, bytenum
    {
      shift.Length == 32 && bytenum.Length0 == 32 && bytenum.Length1 == 8
      && (forall i | 0 <= i < 32 :: shift[i] == OneHot(i))
      && forall i, j | 0 <= i < 32 && 0 <= j < 8 :: bytenum[i, j] == i / 8 + 4 * (7 - j)
    }

    /** akiko_precalculate */
    constructor ()
      ensures Valid() && fresh(shift) && fresh(bytenum)
    {
      shift := new Long[32](i requires 0 <= i < 32 => OneHot(i));
      bytenum := new nat[32, 8]((i, j) requires 0 <= i < 32 && 0 <= j < 8 => i / 8 + 4 * (7 - j));
    }

    /** One plane: the 32 terms of the expression, eight longs for each of the
        four bytes. */
    method FastPlane(buffer: Eight, i: nat) returns (l: Long)
      requires Valid() && i < 8
      ensures l == Plane(buffer, i)
    {
      hide Plane, PlaneBit, Meets, OneHot;
      l := Zeros(32);
      for q := 0 to 4
        invariant forall m | 0 <= m < 32 :: l[m] == (m % 4 < q && PlaneBit(buffer, i, m))
      {
        for j := 0 to 8
          invariant forall m | 0 <= m < 32 ::
              l[m] == ((m % 4 < q || (m % 4 == q && 7 - m / 4 < j)) && PlaneBit(buffer, i, m))
        {
          Term(buffer, i, q, j);
          var n := bytenum[i + 8 * q, j];
          MeetsOneHot(buffer[j], i + 8 * q);
          if Meets(buffer[j], shift[i + 8 * q]) {
            l := l[n := true];
          }
        }
      }
    }

    /** akiko_c2p_do */
    method C2pDo(buffer: Eight) returns (result: Eight)
      requires Valid()
      ensures result == Planes(buffer)
    {
      hide Plane, Planes;
      result := seq(8, _ => Zeros(32));
      for i := 0 to 8
        invariant forall p | 0 <= p < i :: result[p] == Plane(buffer, p)
      {
        var l := FastPlane(buffer, i);
        result := result[i := l];
      }
    }
  }

  // ----- the registers

  type Byte = b: seq<bool> | |b| == 8 witness Zeros(8)

  /** The engine: what was written, the planes, and where reading and writing
      stand; `readOffset` -1 asks for a new conversion. */
  datatype Chip = Chip(buffer: Eight, result: Eight, readOffset: int, writeOffset: nat)
  {
    predicate Valid() { -1 <= readOffset < 8 && writeOffset < 8 }
  }

  /** The bit position of byte `offset` of a long. */
  function Shift(offset: nat): (s: nat)
    requires offset < 4
    ensures s + 8 <= 32
  {
    8 * (3 - offset)
  }

  function OrByte(l: Long, at: nat, v: Byte): (r: Long)
    requires at + 8 <= 32
    ensures forall k | 0 <= k < 32 :: r[k] == (l[k] || (at <= k < at + 8 && v[k - at]))
  {
    seq(32, k requires 0 <= k < 32 => l[k] || (at <= k < at + 8 && v[k - at]))
  }

  /** akiko_c2p_write */
  function WriteByte(c: Chip, offset: nat, v: Byte): (d: Chip)
    requires c.Valid() && offset < 4
    ensures d.Valid()
  {
    var l := if offset == 3 then Zeros(32) else c.buffer[c.writeOffset];
    Chip(c.buffer[c.writeOffset := OrByte(l, Shift(offset), v)], c.result, -1,
         if offset == 0 then (c.writeOffset + 1) % 8 else c.writeOffset)
  }

  /** A read converts first if anything was written since the last one. */
  function Ready(c: Chip): (d: Chip)
    requires c.Valid()
    ensures d.Valid() && d.readOffset >= 0
  {
    if c.readOffset < 0 then Chip(c.buffer, Planes(c.buffer), 0, 0) else c.(writeOffset := 0)
  }

  /** akiko_c2p_read, as far as the byte of the bus goes */
  function ReadByte(c: Chip, offset: nat): Byte
    requires c.Valid() && offset < 4
  {
    var d := Ready(c);
    d.result[d.readOffset][Shift(offset)..Shift(offset) + 8]
  }

  /** akiko_lput: the four bytes from the low end. */
  function LongWrite(c: Chip, v: Long): (d: Chip)
    requires c.Valid()
    ensures d.Valid()
  {
    WriteByte(WriteByte(WriteByte(WriteByte(c, 3, v[0..8]), 2, v[8..16]), 1, v[16..24]), 0, v[24..32])
  }

  /** akiko_lget: the four bytes, and the step to the next plane. */
  function LongRead(c: Chip): (r: (Chip, Long))
    requires c.Valid()
    ensures r.0.Valid()
  {
    var d := Ready(c);
    (d.(readOffset := (d.readOffset + 1) % 8),
     ReadByte(c, 3) + ReadByte(Ready(c), 2) + ReadByte(Ready(c), 1) + ReadByte(Ready(c), 0))
  }

  /** Four bytes make up the long they were taken from. */
  lemma FourBytes(v: Long)
    ensures OrByte(OrByte(OrByte(OrByte(Zeros(32), 0, v[0..8]), 8, v[8..16]), 16, v[16..24]), 24, v[24..32]) == v
  {
    var l := OrByte(OrByte(OrByte(OrByte(Zeros(32), 0, v[0..8]), 8, v[8..16]), 16, v[16..24]), 24, v[24..32]);
    forall k | 0 <= k < 32
      ensures l[k] == v[k]
    {
      if k < 8 {
        assert v[k] == v[0..8][k];
      } else if k < 16 {
        assert v[k] == v[8..16][k - 8];
      } else if k < 24 {
        assert v[k] == v[16..24][k - 16];
      } else {
        assert v[k] == v[24..32][k - 24];
      }
    }
  }

  /** The chip while a long is written: `l` so far. */
  function Halfway(c: Chip, l: Long, next: nat): (d: Chip)
    requires c.Valid() && next < 8
    ensures d.Valid()
  {
    Chip(c.buffer[c.writeOffset := l], c.result, -1, next)
  }

  lemma FirstByteWritten(c: Chip, v: Byte)
    requires c.Valid()
    ensures WriteByte(c, 3, v) == Halfway(c, OrByte(Zeros(32), Shift(3), v), c.writeOffset)
  {
    hide OrByte;
  }

  lemma UpdateTwice(s: seq<Long>, i: nat, a: Long, b: Long)
    requires i < |s|
    ensures s[i := a][i := b] == s[i := b] && s[i := a][i] == a
  {
  }

  lemma ByteWritten(c: Chip, l: Long, offset: nat, v: Byte)
    requires c.Valid() && offset < 3
    ensures WriteByte(Halfway(c, l, c.writeOffset), offset, v)
         == Halfway(c, OrByte(l, Shift(offset), v), if offset == 0 then (c.writeOffset + 1) % 8 else c.writeOffset)
  {
    hide OrByte;
    UpdateTwice(c.buffer, c.writeOffset, l, OrByte(l, Shift(offset), v));
  }

  lemma LongWritten(c: Chip, v: Long)
    requires c.Valid()
    ensures LongWrite(c, v) == Chip(c.buffer[c.writeOffset := v], c.result, -1, (c.writeOffset + 1) % 8)
  {
    assert Shift(3) == 0 && Shift(2) == 8 && Shift(1) == 16 && Shift(0) == 24;
    hide OrByte, WriteByte;
    FourBytes(v);
    var l := OrByte(Zeros(32), 0, v[0..8]);
    var m := OrByte(l, 8, v[8..16]);
    var n := OrByte(m, 16, v[16..24]);
    FirstByteWritten(c, v[0..8]);
    ByteWritten(c, l, 2, v[8..16]);
    ByteWritten(c, m, 1, v[16..24]);
    ByteWritten(c, n, 0, v[24..32]);
  }

  lemma LongReadOut(c: Chip)
    requires c.Valid()
    ensures LongRead(c).1 == Ready(c).result[Ready(c).readOffset]
  {
    hide Planes;
    var d := Ready(c);
    assert Ready(d) == d;
    var l := d.result[d.readOffset];
    assert l == l[0..8] + l[8..16] + l[16..24] + l[24..32];
  }

  /** The first `n` of eight longs written, one after another. */
  function Written(c: Chip, vs: Eight, n: nat): (d: Chip)
    requires c.Valid() && n <= 8
    ensures d.Valid()
  {
    if n == 0 then c else LongWrite(Written(c, vs, n - 1), vs[n - 1])
  }

  lemma {:induction false} WrittenLongs(c: Chip, vs: Eight, n: nat)
    requires c.Valid() && c.writeOffset == 0 && 0 < n <= 8
    ensures var d := Written(c, vs, n);
            d.readOffset == -1 && d.writeOffset == n % 8 && d.buffer[..n] == vs[..n]
    decreases n
  {
    hide LongWrite;
    LongWritten(Written(c, vs, n - 1), vs[n - 1]);
    if n == 1 {
      assert Written(c, vs, 0) == c;
    } else {
      WrittenLongs(c, vs, n - 1);
    }
  }

  /** The chip after `n` long reads, and what they return. */
  function AfterReads(c: Chip, n: nat): (d: Chip)
    requires c.Valid()
    ensures d.Valid()
  {
    if n == 0 then c else LongRead(AfterReads(c, n - 1)).0
  }

  /** A read on a converted buffer, and one that converts. */
  lemma ReadSteps(d: Chip)
    requires d.Valid()
    ensures d.readOffset >= 0 ==>
              LongRead(d) == (Chip(d.buffer, d.result, (d.readOffset + 1) % 8, 0), d.result[d.readOffset])
    ensures d.readOffset < 0 ==>
              LongRead(d) == (Chip(d.buffer, Planes(d.buffer), 1, 0), Planes(d.buffer)[0])
  {
    hide Planes, ReadByte;
    LongReadOut(d);
  }

  lemma {:induction false} ReadsInOrder(c: Chip, n: nat)
    requires c.Valid() && c.readOffset == -1 && n < 8
    ensures LongRead(AfterReads(c, n)).1 == Planes(c.buffer)[n]
    ensures AfterReads(c, n + 1) == Chip(c.buffer, Planes(c.buffer), (n + 1) % 8, 0)
    decreases n
  {
    hide Planes, LongRead, Ready;
    assert AfterReads(c, n + 1) == LongRead(AfterReads(c, n)).0;
    if n == 0 {
      assert AfterReads(c, 0) == c;
    } else {
      ReadsInOrder(c, n - 1);
    }
    ReadSteps(AfterReads(c, n));
  }

  /** Eight long writes and eight long reads: the planes, in order. */
  lemma WriteThenRead(c: Chip, vs: Eight, n: nat)
    requires c.Valid() && c.writeOffset == 0 && n < 8
    ensures LongRead(AfterReads(Written(c, vs, 8), n)).1 == Planes(vs)[n]
    ensures AfterReads(Written(c, vs, 8), 8).writeOffset == 0
  {
    hide Planes, LongRead, AfterReads, Written;
    WrittenLongs(c, vs, 8);
    var d := Written(c, vs, 8);
    assert d.buffer[..8] == d.buffer && vs[..8] == vs;
    ReadsInOrder(d, n);
    ReadsInOrder(d, 7);
  }

  /** The registers in place. */
  class Engine {
    const tables: Tables
    var chip: Chip

    constructor ()
      ensures tables.Valid() && chip.Valid() && chip.writeOffset == 0 && fresh(tables) && fresh(tables.shift)
        && fresh(tables.bytenum)
    {
      tables := new Tables();
      chip := Chip(seq(8, _ => Zeros(32)), seq(8, _ => Zeros(32)), -1, 0);
    }

    method C2pWrite(offset: nat, v: Byte)
      requires chip.Valid() && offset < 4
      modifies this`chip
      ensures chip == WriteByte(old(chip), offset, v)
    {
      hide OrByte;
      var w := chip.writeOffset;
      if offset == 3 {
        chip := chip.(buffer := chip.buffer[w := Zeros(32)]);
      }
      chip := chip.(buffer := chip.buffer[w := OrByte(chip.buffer[w], Shift(offset), v)]);
      if offset == 0 {
        chip := chip.(writeOffset := (w + 1) % 8);
      }
      chip := chip.(readOffset := -1);
    }

    method C2pRead(offset: nat) returns (v: Byte)
      requires tables.Valid() && chip.Valid() && offset < 4
      modifies this`chip
      ensures chip == Ready(old(chip)) && v == ReadByte(old(chip), offset)
    {
      hide Planes;
      if chip.readOffset < 0 {
        var r := tables.C2pDo(chip.buffer);
        chip := chip.(result := r, readOffset := 0);
      }
      chip := chip.(writeOffset := 0);
      v := chip.result[chip.readOffset][Shift(offset)..Shift(offset) + 8];
    }

    /** akiko_lput */
    method LPut(v: Long)
      requires chip.Valid()
      modifies this`chip
      ensures chip == LongWrite(old(chip), v)
    {
      hide WriteByte;
      C2pWrite(3, v[0..8]);
      C2pWrite(2, v[8..16]);
      C2pWrite(1, v[16..24]);
      C2pWrite(0, v[24..32]);
    }

    /** akiko_lget */
    method LGet() returns (v: Long)
      requires tables.Valid() && chip.Valid()
      modifies this`chip
      ensures chip == LongRead(old(chip)).0 && v == LongRead(old(chip)).1
    {
      hide Planes;
      var b3: seq<bool> := C2pRead(3);
      var b2: seq<bool> := C2pRead(2);
      var b1: seq<bool> := C2pRead(1);
      var b0: seq<bool> := C2pRead(0);
      v := b3 + b2 + b1 + b0;
      chip := chip.(readOffset := (chip.readOffset + 1) % 8);
    }
  }
}

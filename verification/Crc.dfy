/** The table-driven checksums of crc32.cpp: get_crc32 (polynomial 0xedb88320,
    low bit first) and get_crc16 (0x1021, high bit first), against division
    one message bit at a time. */
module Crc {
  import opened XorNat
  import opened Words32

  // ----- 32 bits, low bit first

  function Mixed(a: bv32, b: bv32): bv32 { a ^ b }

  /** The message bit next in line, and the message without it. */
  function Front(w: bv32): bv32 { w & 1 }

  function Rest(w: bv32): bv32 { w >> 1 }

  function Step(c: bv32): bv32 {
    (c >> 1) ^ (if c & 1 != 0 then 0xedb8_8320 else 0)
  }

  function Steps(c: bv32, n: nat): bv32
    decreases n
  {
    if n == 0 then c else Steps(Step(c), n - 1)
  }

  /** Dividing the first `n` bits of a message word, one bit at a time: the bit
      is added to the low end of the register before it moves. */
  function Feed(c: bv32, w: bv32, n: nat): bv32
    decreases n
  {
    if n == 0 then c else Feed(Step(Mixed(c, Front(w))), Rest(w), n - 1)
  }

  lemma StepIsLinear(c: bv32, w: bv32)
    ensures Step(c ^ w) == Step(c ^ (w & 1)) ^ (w >> 1)
  {
  }

  lemma MixedFront(c: bv32, w: bv32)
    ensures Mixed(c, Front(w)) == c ^ (w & 1)
  {
  }

  lemma MixedRest(c: bv32, w: bv32)
    ensures Mixed(c, Rest(w)) == c ^ (w >> 1)
  {
  }

  lemma MixedIs(c: bv32, w: bv32)
    ensures Mixed(c, w) == c ^ w
  {
  }

  /** A register takes in a message word bit by bit. */
  lemma PeelBit(c: bv32, w: bv32)
    ensures Step(Mixed(c, w)) == Mixed(Step(Mixed(c, Front(w))), Rest(w))
  {
    hide Step, Mixed, Front, Rest;
    MixedIs(c, w);
    StepIsLinear(c, w);
    MixedFront(c, w);
    MixedRest(Step(c ^ (w & 1)), w);
  }

  lemma MixedZero(c: bv32)
    ensures Mixed(c, 0) == c
  {
  }

  lemma StepSplits(c: bv32, w: bv32)
    requires Front(w) == 0
    ensures Step(Mixed(c, w)) == Mixed(Step(c), Rest(w))
  {
    hide Step, Mixed, Rest, Front;
    PeelBit(c, w);
    MixedZero(c);
  }

  /** `w` has no bits behind its first `n`. */
  predicate Fits(w: bv32, n: nat)
    decreases n
  {
    if n == 0 then w == 0 else Fits(Rest(w), n - 1)
  }

  lemma {:induction false} StepsFeed(c: bv32, w: bv32, n: nat)
    requires Fits(w, n)
    ensures Steps(Mixed(c, w), n) == Feed(c, w, n)
    decreases n
  {
    hide Step, Mixed, Front, Rest;
    if n == 0 {
      MixedZero(c);
    } else {
      PeelBit(c, w);
      StepsFeed(Step(Mixed(c, Front(w))), Rest(w), n - 1);
    }
  }

  /** The first `n` bits of `w` are zero, and `y` is what follows them. */
  predicate Behind(w: bv32, n: nat, y: bv32)
    decreases n
  {
    if n == 0 then w == y else Front(w) == 0 && Behind(Rest(w), n - 1, y)
  }

  lemma {:induction false} StepsSplit(c: bv32, w: bv32, n: nat, y: bv32)
    requires Behind(w, n, y)
    ensures Steps(Mixed(c, w), n) == Mixed(Steps(c, n), y)
    decreases n
  {
    hide Step, Mixed, Front, Rest;
    if n > 0 {
      StepSplits(c, w);
      StepsSplit(Step(c), Rest(w), n - 1, y);
    }
  }

  lemma ByteFits(w: bv32)
    requires w <= 0xff
    ensures Fits(w, 8)
  {
    assert Fits(w >> 1 >> 1 >> 1 >> 1 >> 1 >> 1 >> 1 >> 1, 0);
    assert Fits(w >> 1 >> 1 >> 1 >> 1 >> 1 >> 1 >> 1, 1);
    assert Fits(w >> 1 >> 1 >> 1 >> 1 >> 1 >> 1, 2);
    assert Fits(w >> 1 >> 1 >> 1 >> 1 >> 1, 3);
    assert Fits(w >> 1 >> 1 >> 1 >> 1, 4);
    assert Fits(w >> 1 >> 1 >> 1, 5);
    assert Fits(w >> 1 >> 1, 6);
    assert Fits(w >> 1, 7);
  }

  lemma ByteBehind(w: bv32)
    requires w & 0xff == 0
    ensures Behind(w, 8, w >> 8)
  {
    assert Behind(w >> 1 >> 1 >> 1 >> 1 >> 1 >> 1 >> 1 >> 1, 0, w >> 8);
    assert Behind(w >> 1 >> 1 >> 1 >> 1 >> 1 >> 1 >> 1, 1, w >> 8);
    assert Behind(w >> 1 >> 1 >> 1 >> 1 >> 1 >> 1, 2, w >> 8);
    assert Behind(w >> 1 >> 1 >> 1 >> 1 >> 1, 3, w >> 8);
    assert Behind(w >> 1 >> 1 >> 1 >> 1, 4, w >> 8);
    assert Behind(w >> 1 >> 1 >> 1, 5, w >> 8);
    assert Behind(w >> 1 >> 1, 6, w >> 8);
    assert Behind(w >> 1, 7, w >> 8);
  }

  // ----- 16 bits, high bit first

  function Mixed16(a: bv16, b: bv16): bv16 { a ^ b }

  /** The message bit next in line, and the message without it. */
  function Front16(w: bv16): bv16 { w & 0x8000 }

  function Rest16(w: bv16): bv16 { w << 1 }

  function Step16(c: bv16): bv16 {
    (c << 1) ^ (if c & 0x8000 != 0 then 0x1021 else 0)
  }

  function Steps16(c: bv16, n: nat): bv16
    decreases n
  {
    if n == 0 then c else Steps16(Step16(c), n - 1)
  }

  /** Dividing the first `n` bits of a message word, one bit at a time: the bit
      is added to the high end of the register before it moves. */
  function Feed16(c: bv16, w: bv16, n: nat): bv16
    decreases n
  {
    if n == 0 then c else Feed16(Step16(Mixed16(c, Front16(w))), Rest16(w), n - 1)
  }

  lemma StepIsLinear16(c: bv16, w: bv16)
    ensures Step16(c ^ w) == Step16(c ^ (w & 0x8000)) ^ (w << 1)
  {
  }

  lemma MixedFront16(c: bv16, w: bv16)
    ensures Mixed16(c, Front16(w)) == c ^ (w & 0x8000)
  {
  }

  lemma MixedRest16(c: bv16, w: bv16)
    ensures Mixed16(c, Rest16(w)) == c ^ (w << 1)
  {
  }

  lemma MixedIs16(c: bv16, w: bv16)
    ensures Mixed16(c, w) == c ^ w
  {
  }

  /** A register takes in a message word bit by bit. */
  lemma PeelBit16(c: bv16, w: bv16)
    ensures Step16(Mixed16(c, w)) == Mixed16(Step16(Mixed16(c, Front16(w))), Rest16(w))
  {
    hide Step16, Mixed16, Front16, Rest16;
    MixedIs16(c, w);
    StepIsLinear16(c, w);
    MixedFront16(c, w);
    MixedRest16(Step16(c ^ (w & 0x8000)), w);
  }

  lemma MixedZero16(c: bv16)
    ensures Mixed16(c, 0) == c
  {
  }

  lemma StepSplits16(c: bv16, w: bv16)
    requires Front16(w) == 0
    ensures Step16(Mixed16(c, w)) == Mixed16(Step16(c), Rest16(w))
  {
    hide Step16, Mixed16, Rest16, Front16;
    PeelBit16(c, w);
    MixedZero16(c);
  }

  /** `w` has no bits behind its first `n`. */
  predicate Fits16(w: bv16, n: nat)
    decreases n
  {
    if n == 0 then w == 0 else Fits16(Rest16(w), n - 1)
  }

  lemma {:induction false} StepsFeed16(c: bv16, w: bv16, n: nat)
    requires Fits16(w, n)
    ensures Steps16(Mixed16(c, w), n) == Feed16(c, w, n)
    decreases n
  {
    hide Step16, Mixed16, Front16, Rest16;
    if n == 0 {
      MixedZero16(c);
    } else {
      PeelBit16(c, w);
      StepsFeed16(Step16(Mixed16(c, Front16(w))), Rest16(w), n - 1);
    }
  }

  /** The first `n` bits of `w` are zero, and `y` is what follows them. */
  predicate Behind16(w: bv16, n: nat, y: bv16)
    decreases n
  {
    if n == 0 then w == y else Front16(w) == 0 && Behind16(Rest16(w), n - 1, y)
  }

  lemma {:induction false} StepsSplit16(c: bv16, w: bv16, n: nat, y: bv16)
    requires Behind16(w, n, y)
    ensures Steps16(Mixed16(c, w), n) == Mixed16(Steps16(c, n), y)
    decreases n
  {
    hide Step16, Mixed16, Front16, Rest16;
    if n > 0 {
      StepSplits16(c, w);
      StepsSplit16(Step16(c), Rest16(w), n - 1, y);
    }
  }

  lemma ByteFits16(w: bv16)
    requires w & 0xff == 0
    ensures Fits16(w, 8)
  {
    assert Fits16(w << 1 << 1 << 1 << 1 << 1 << 1 << 1 << 1, 0);
    assert Fits16(w << 1 << 1 << 1 << 1 << 1 << 1 << 1, 1);
    assert Fits16(w << 1 << 1 << 1 << 1 << 1 << 1, 2);
    assert Fits16(w << 1 << 1 << 1 << 1 << 1, 3);
    assert Fits16(w << 1 << 1 << 1 << 1, 4);
    assert Fits16(w << 1 << 1 << 1, 5);
    assert Fits16(w << 1 << 1, 6);
    assert Fits16(w << 1, 7);
  }

  lemma ByteBehind16(w: bv16)
    requires w <= 0xff
    ensures Behind16(w, 8, w << 8)
  {
    assert Behind16(w << 1 << 1 << 1 << 1 << 1 << 1 << 1 << 1, 0, w << 8);
    assert Behind16(w << 1 << 1 << 1 << 1 << 1 << 1 << 1, 1, w << 8);
    assert Behind16(w << 1 << 1 << 1 << 1 << 1 << 1, 2, w << 8);
    assert Behind16(w << 1 << 1 << 1 << 1 << 1, 3, w << 8);
    assert Behind16(w << 1 << 1 << 1 << 1, 4, w << 8);
    assert Behind16(w << 1 << 1 << 1, 5, w << 8);
    assert Behind16(w << 1 << 1, 6, w << 8);
    assert Behind16(w << 1, 7, w << 8);
  }

  // ----- tables

  /** What make_crc_table stores for byte `n`. */
  function Entry(n: Byte): bv32 { Steps(WordOf(n), 8) }

  function Byte16(b: Byte): (w: bv16)
    ensures w <= 0xff
  {
    b as bv16
  }

  function Up8(w: bv16): bv16 { w << 8 }

  /** A byte at the high end of a 16-bit register. */
  function High(b: Byte): (w: bv16) { Up8(Byte16(b)) }

  function Entry16(n: Byte): bv16 { Steps16(High(n), 8) }

  function Nat16(w: bv16): (b: Byte)
    requires w <= 0xff
  {
    w as nat
  }

  lemma RoundTrip16(w: bv16)
    requires w <= 0xff
    ensures Byte16(Nat16(w)) == w
  {
  }

  function Top(c: bv16): (w: bv16)
    ensures w <= 0xff
  {
    c >> 8
  }

  /** The part of a register that does not leave it in eight steps. */
  function Stays(c: bv32): bv32 { c & 0xffff_ff00 }

  function Stays16(c: bv16): (w: bv16)
    ensures w <= 0xff
  {
    c & 0xff
  }

  lemma Rejoined(c: bv32)
    ensures Mixed(Lo(c), Stays(c)) == c
  {
  }

  lemma StaysBehind(c: bv32)
    ensures Behind(Stays(c), 8, Drop(c))
  {
    hide Behind;
    ByteBehind(Stays(c));
  }

  lemma Halves(c: bv32)
    ensures Mixed(Lo(c), Stays(c)) == c && Behind(Stays(c), 8, Drop(c))
  {
    hide Behind, Mixed, Lo;
    StaysBehind(c);
    Rejoined(c);
  }

  lemma Rejoined16(c: bv16)
    ensures Mixed16(Up8(Top(c)), Stays16(c)) == c
  {
  }

  lemma StaysBehind16(c: bv16)
    ensures Behind16(Stays16(c), 8, Up8(c))
  {
    hide Behind16;
    ByteBehind16(Stays16(c));
    assert Up8(Stays16(c)) == Up8(c);
  }

  lemma Halves16(c: bv16)
    ensures Mixed16(Up8(Top(c)), Stays16(c)) == c && Behind16(Stays16(c), 8, Up8(c))
  {
    hide Behind16, Mixed16, Top;
    StaysBehind16(c);
    Rejoined16(c);
  }

  /** One trip of the loop of get_crc32 and of get_crc16. */
  function Update(c: bv32, b: Byte): bv32 {
    Mixed(Entry(NatOf(Lo(Mixed(c, WordOf(b))))), Drop(c))
  }

  function Update16(c: bv16, b: Byte): bv16 {
    Mixed16(Up8(c), Entry16(Nat16(Stays16(Mixed16(Top(c), Byte16(b))))))
  }

  lemma MixedKeepsHigh(c: bv32, b: Byte)
    ensures Drop(Mixed(c, WordOf(b))) == Drop(c)
  {
    hide WordOf;
  }

  lemma MixedKeepsLow16(c: bv16, w: bv16)
    ensures Up8(Mixed16(c, Up8(w))) == Up8(c)
  {
    assert (c ^ (w << 8)) << 8 == c << 8;
  }

  lemma MixedTop16(c: bv16, w: bv16)
    requires w <= 0xff
    ensures Top(Mixed16(c, Up8(w))) == Stays16(Mixed16(Top(c), w))
  {
    assert (c ^ (w << 8)) >> 8 == ((c >> 8) ^ w) & 0xff;
  }

  lemma Mixed16Commutes(a: bv16, b: bv16)
    ensures Mixed16(a, b) == Mixed16(b, a)
  {
  }

  /** A table lookup divides the eight bits of a byte. */
  lemma UpdateFeeds(c: bv32, b: Byte)
    ensures Update(c, b) == Feed(c, WordOf(b), 8)
  {
    hide Mixed, Step, Steps, Feed, Fits, Behind, Drop, Lo, WordOf, NatOf, Stays;
    var m := Mixed(c, WordOf(b));
    ByteFits(WordOf(b));
    StepsFeed(c, WordOf(b), 8);
    Halves(m);
    StepsSplit(Lo(m), Stays(m), 8, Drop(m));
    MixedKeepsHigh(c, b);
    RoundTrip(Lo(m));
  }

  lemma HighFits(w: bv16)
    requires w <= 0xff
    ensures Fits16(Up8(w), 8)
  {
    hide Fits16;
    ByteFits16(Up8(w));
  }

  lemma Update16Feeds(c: bv16, b: Byte)
    ensures Update16(c, b) == Feed16(c, High(b), 8)
  {
    hide Mixed16, Step16, Steps16, Feed16, Fits16, Behind16, Up8, Top, Byte16, Nat16, Stays16;
    var m := Mixed16(c, High(b));
    HighFits(Byte16(b));
    StepsFeed16(c, High(b), 8);
    Halves16(m);
    StepsSplit16(Up8(Top(m)), Stays16(m), 8, Up8(m));
    MixedKeepsLow16(c, Byte16(b));
    MixedTop16(c, Byte16(b));
    RoundTrip16(Top(m));
    Mixed16Commutes(Up8(c), Entry16(Nat16(Top(m))));
  }

  // ----- division of byte sequences

  /** Division of a byte sequence, one bit at a time. */
  function Serial(c: bv32, bs: seq<Byte>): bv32 {
    if bs == [] then c else Feed(Serial(c, bs[..|bs| - 1]), WordOf(bs[|bs| - 1]), 8)
  }

  function Serial16(c: bv16, bs: seq<Byte>): bv16 {
    if bs == [] then c else Feed16(Serial16(c, bs[..|bs| - 1]), High(bs[|bs| - 1]), 8)
  }

  function Flip(c: bv32): bv32 { c ^ 0xffff_ffff }

  lemma FlipTwice(c: bv32)
    ensures Flip(Flip(c)) == c
  {
  }

  /** CRC-32 of a byte sequence, and CRC-16. */
  function Crc32(bs: seq<Byte>): bv32 { Flip(Serial(0xffff_ffff, bs)) }

  function Crc16(bs: seq<Byte>): bv16 { Serial16(0xffff, bs) }

  /** What get_crc32_val makes of a checksum and one more byte. */
  function Extend(crc: bv32, v: Byte): bv32 {
    Flip(Update(Flip(crc), v))
  }

  function ExtendAll(crc: bv32, bs: seq<Byte>): bv32 {
    if bs == [] then crc else Extend(ExtendAll(crc, bs[..|bs| - 1]), bs[|bs| - 1])
  }

  /** get_crc32 is get_crc32_val folded over the bytes from 0, and it can be
      resumed after any prefix. */
  lemma {:induction false} CrcResumes(as_: seq<Byte>, bs: seq<Byte>)
    ensures Crc32(as_ + bs) == ExtendAll(Crc32(as_), bs)
    decreases |bs|
  {
    hide Feed, Flip, Update;
    if bs == [] {
      assert as_ + bs == as_;
    } else {
      var n := |bs| - 1;
      assert (as_ + bs)[..|as_ + bs| - 1] == as_ + bs[..n];
      CrcResumes(as_, bs[..n]);
      var c := Serial(0xffff_ffff, as_ + bs[..n]);
      FlipTwice(c);
      UpdateFeeds(c, bs[n]);
    }
  }

  lemma CrcIsFold(bs: seq<Byte>)
    ensures Crc32(bs) == ExtendAll(0, bs)
  {
    hide Feed, Update, ExtendAll;
    CrcResumes([], bs);
    assert [] + bs == bs;
    assert Crc32([]) == Flip(0xffff_ffff) == 0;
  }

  lemma EightSteps(c: bv32)
    ensures Steps(c, 8) == Step(Step(Step(Step(Step(Step(Step(Step(c))))))))
  {
    hide Step;
    var d := Step(Step(Step(Step(c))));
    assert Steps(d, 4) == Step(Step(Step(Step(d)))) by {
      assert Steps(Step(Step(Step(Step(d)))), 0) == Step(Step(Step(Step(d))));
    }
  }

  lemma EntryOne()
    ensures Entry(1) == 0x7707_3096
  {
    hide Steps;
    EightSteps(WordOf(1));
  }

  // ----- the routines

  /** The inner loop of make_crc_table. */
  method MakeEntries(n: Byte) returns (c: bv32, w: bv16)
    ensures c == Entry(n) && w == Entry16(n)
  {
    hide Step, Step16, WordOf, High;
    c, w := WordOf(n), High(n);
    var k := 0;
    while k < 8
      invariant k <= 8
      invariant Steps(c, 8 - k) == Entry(n) && Steps16(w, 8 - k) == Entry16(n)
    {
      c, w := Step(c), Step16(w);
      k := k + 1;
    }
  }

  /** The two tables, filled on first use. */
  class Tables {
    const table32: array<bv32>
    const table16: array<bv16>

    ghost predicate Filled(n: nat)
      requires table32.Length == table16.Length == 256
      reads this, table32, table16
    {
      forall k: Byte | k < n :: k < 256 && table32[k] == Entry(k) && table16[k] == Entry16(k)
    }

    /** The guard of every routine: entry 1 tells whether the tables are there. */
    ghost predicate Valid()
      reads this, table32, table16
    {
      table32.Length == table16.Length == 256 && (table32[1] == 0 || Filled(256))
    }

    constructor ()
      ensures Valid() && fresh(table32) && fresh(table16)
    {
      table32 := new bv32[256](_ => 0);
      table16 := new bv16[256](_ => 0);
    }

    method MakeCrcTable()
      requires table32.Length == table16.Length == 256
      modifies table32, table16
      ensures Filled(256) && Valid()
    {
      hide Entry, Entry16;
      for n := 0 to 256
        invariant Filled(n)
      {
        var c, w := MakeEntries(n);
        table32[n], table16[n] := c, w;
      }
    }

    /** crc_table32[1] is not zero once filled: the guard never fails again. */
    method Prepare()
      requires Valid()
      modifies table32, table16
      ensures Filled(256) && Valid() && table32[1] != 0
    {
      hide Entry, Entry16;
      EntryOne();
      if table32[1] == 0 {
        MakeCrcTable();
      }
    }

    method GetCrc32Val(v: Byte, crc: bv32) returns (r: bv32)
      requires Valid()
      modifies table32, table16
      ensures Valid() && r == Extend(crc, v)
    {
      hide Entry, Entry16, Mixed, Flip, Lo, NatOf, WordOf;
      Prepare();
      var c := Flip(crc);
      c := Mixed(table32[NatOf(Lo(Mixed(c, WordOf(v))))], Drop(c));
      r := Flip(c);
    }

    method GetCrc32(buf: seq<Byte>, len: int) returns (r: bv32)
      requires Valid() && len <= |buf|
      modifies table32, table16
      ensures Valid() && r == Crc32(buf[..if len < 0 then 0 else len])
    {
      hide Entry, Entry16, Mixed, Flip, Lo, NatOf, WordOf, Feed;
      Prepare();
      var crc, k := 0xffff_ffff, 0;
      while k < len
        invariant 0 <= k && (k <= len || k == 0)
        invariant Filled(256)
        invariant crc == Serial(0xffff_ffff, buf[..k])
      {
        UpdateFeeds(crc, buf[k]);
        assert buf[..k + 1][..k] == buf[..k];
        crc := Mixed(table32[NatOf(Lo(Mixed(crc, WordOf(buf[k]))))], Drop(crc));
        k := k + 1;
      }
      r := Flip(crc);
    }

    method GetCrc16(buf: seq<Byte>, len: int) returns (crc: bv16)
      requires Valid() && len <= |buf|
      modifies table32, table16
      ensures Valid() && crc == Crc16(buf[..if len < 0 then 0 else len])
    {
      hide Entry, Entry16, Mixed16, Top, Stays16, Nat16, Byte16, High, Feed16;
      Prepare();
      crc := 0xffff;
      var k := 0;
      while k < len
        invariant 0 <= k && (k <= len || k == 0)
        invariant Filled(256)
        invariant crc == Serial16(0xffff, buf[..k])
      {
        Update16Feeds(crc, buf[k]);
        assert buf[..k + 1][..k] == buf[..k];
        crc := Mixed16(Up8(crc), table16[Nat16(Stays16(Mixed16(Top(crc), Byte16(buf[k]))))]);
        k := k + 1;
      }
    }
  }
}

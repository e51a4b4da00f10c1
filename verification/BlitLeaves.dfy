/** The memory that a block blit leaves, in both forms, where the D words have
    cells of their own and no source word is overwritten before it is read. */
module BlitLeaves {
  import opened Bits
  import opened BlitConfig
  import F = BlitFast
  import W = BlitWords
  import opened BlitFunc
  import opened BlitRegisters
  import opened BlitFields
  import opened BlitExact
  import opened BlitImmediate
  import opened BlitRefine
  import opened BlitTheorem
  import opened BlitOnlyD
  import opened BlitChannels
  import opened BlitResult
  import opened BlitBits
  import opened Modulo

  /** Row `p`, column `q` comes before row `j`, column `i`, with another word
      between them. */
  predicate LongBefore(r: Registers, p: nat, q: nat, j: nat, i: nat) {
    if p == j then q + 1 < i else p < j && !(p + 1 == j && q + 1 == r.hsize && i == 0)
  }

  /** No word of the source rectangle that starts at `b` is overwritten before
      it is read. */
  ghost predicate InTime(r: Registers, d: Data, b: nat, mod: int)
    requires r.span > 0
  {
    forall j: nat, i: nat, p: nat, q: nat ::
      j < r.vsize && i < r.hsize && p < r.vsize && q < r.hsize && LongBefore(r, p, q, j, i)
      ==> CellAt(r, b, mod, j, i) != CellAt(r, d.dpt, r.dmod, p, q)
  }

  /** The D rectangle lies in fitted memory, and its words have cells of their
      own; every source that is on is read in time. */
  ghost predicate Laid(r: Registers, d: Data)
    requires r.span > 0
  {
    && (forall j: nat, i: nat :: j < r.vsize && i < r.hsize ==> CellAt(r, d.dpt, r.dmod, j, i) < |d.mem|)
    && (forall j: nat, i: nat, p: nat, q: nat ::
          j < r.vsize && i < r.hsize && p < r.vsize && q < r.hsize
          && CellAt(r, d.dpt, r.dmod, j, i) == CellAt(r, d.dpt, r.dmod, p, q)
          ==> j == p && i == q)
    && (Flag(r.con0, 0x800) ==> InTime(r, d, d.src.apt, r.amod))
    && (Flag(r.con0, 0x400) ==> InTime(r, d, d.src.bpt, r.bmod))
    && (Flag(r.con0, 0x200) ==> InTime(r, d, d.src.cpt, r.cmod))
  }

  /** Cell `x` is not one of the D rectangle. */
  ghost predicate Outside(r: Registers, d: Data, x: nat)
    requires r.span > 0
  {
    forall j: nat, i: nat :: j < r.vsize && i < r.hsize ==> CellAt(r, d.dpt, r.dmod, j, i) != x
  }

  /** What a blit leaves: every D word in its cell, all other cells as they
      were, and blitzero if no bit was set. */
  ghost predicate Left(r: Registers, d: Data, on: bool, m: seq<Word>, zero: bool)
    requires r.Valid()
  {
    && |m| == |d.mem|
    && (forall j: nat, i: nat, k: nat :: j < r.vsize && i < r.hsize && k < 16 ==>
          var x := CellAt(r, d.dpt, r.dmod, j, i); x < |m| && m[x][k] == DBit(r, d, on, j, i, k))
    && (forall x: nat :: x < |m| && Outside(r, d, x) ==> m[x] == d.mem[x])
    && (zero <==> forall j: nat, i: nat, k: nat :: j < r.vsize && i < r.hsize && k < 16 ==> !DBit(r, d, on, j, i, k))
  }

  lemma CellIs(r: Registers, d: Data, j: nat, i: nat)
    requires r.Valid()
    ensures Cell(Configure(r), d, j, i) == CellAt(r, d.dpt, r.dmod, j, i)
    ensures forall ch: Channel ::
              Spot(Configure(r), d, ch, j, i)
              == CellAt(r, Base(d, ch), match ch case A => r.amod case B => r.bmod case C => r.cmod case D => r.dmod,
                        j, i)
  {
    hide Configure, At, Place;
    SizesAre(r);
    forall p: nat, mod: int
      ensures At(Configure(r), p, mod, j, i) == Place(r, p, mod, j, i)
    {
      AtIs(r, p, mod, j, i);
    }
  }

  lemma LongBeforeIs(r: Registers, p: nat, q: nat, j: nat, i: nat)
    requires r.Valid() && q < r.hsize && i < r.hsize
    ensures Behind(Configure(r), p, q, j, i) == LongBefore(r, p, q, j, i)
  {
    hide Configure;
    SizesAre(r);
  }

  lemma LaidReads(r: Registers, d: Data)
    requires r.Valid() && Laid(r, d) && Flag(r.con0, 0x100)
    ensures ReadsFirst(Configure(r), d) && Separate(Configure(r), d)
  {
    hide Configure, CellAt, Spot, Cell, Behind, LongBefore, Flag;
    SizesAre(r);
    FieldsAre(r);
    var c := Configure(r);
    forall j: nat, i: nat
      ensures Cell(c, d, j, i) == CellAt(r, d.dpt, r.dmod, j, i)
    {
      CellIs(r, d, j, i);
    }
    forall ch: Channel, j: nat, i: nat, p: nat, q: nat |
      Used(c, ch) && ch != D && j < c.vsize && i < c.hsize && p < c.vsize && q < c.hsize && Behind(c, p, q, j, i)
      ensures Spot(c, d, ch, j, i) != Cell(c, d, p, q)
    {
      CellIs(r, d, j, i);
      LongBeforeIs(r, p, q, j, i);
    }
  }

  lemma {:induction false} OutsideStays(r: Registers, d: Data, on: bool, x: nat)
    requires r.Valid() && Flag(r.con0, 0x100) && x < |d.mem|
    requires Outside(r, d, x)
    ensures Writes(Configure(r), d, on, r.vsize, 0)[x] == d.mem[x]
  {
    hide Configure, CellAt, Cell, Flag, Writes;
    SizesAre(r);
    FieldsAre(r);
    forall p: nat, q: nat | q < r.hsize && p < r.vsize
      ensures Cell(Configure(r), d, p, q) != x
    {
      CellIs(r, d, p, q);
    }
    StaysPut(Configure(r), d, on, x, r.vsize, 0);
  }

  lemma NoBits(r: Registers, d: Data, on: bool)
    requires r.Valid()
    ensures AllZero(Configure(r), d, on)
       <==> forall j: nat, i: nat, k: nat :: j < r.vsize && i < r.hsize && k < 16 ==> !DBit(r, d, on, j, i, k)
  {
    hide Configure, DWord, DBit;
    SizesAre(r);
    var c := Configure(r);
    forall j: nat, i: nat, k: nat | j < r.vsize && i < r.hsize && k < 16
      ensures DWord(c, d, on, j, i)[k] == DBit(r, d, on, j, i, k)
    {
      WordIs(r, d, on, j, i, k);
    }
    if forall j: nat, i: nat, k: nat :: j < r.vsize && i < r.hsize && k < 16 ==> !DBit(r, d, on, j, i, k) {
      forall j: nat, i: nat | j < r.vsize && i < r.hsize
        ensures DWord(c, d, on, j, i) == ZERO
      {
        assert forall k: nat :: k < 16 ==> !DBit(r, d, on, j, i, k);
      }
    }
  }

  lemma LeftIs(r: Registers, d: Data, on: bool)
    requires r.Valid() && Laid(r, d) && Flag(r.con0, 0x100)
    ensures Left(r, d, on, Writes(Configure(r), d, on, r.vsize, 0), Zeroes(Configure(r), d, on, r.vsize, 0))
  {
    hide Configure, CellAt, Cell, Flag, Writes, Zeroes, DWord, DBit, Outside;
    SizesAre(r);
    FieldsAre(r);
    LaidReads(r, d);
    var c := Configure(r);
    var m := Writes(c, d, on, r.vsize, 0);
    forall j: nat, i: nat, k: nat | j < r.vsize && i < r.hsize && k < 16
      ensures var x := CellAt(r, d.dpt, r.dmod, j, i); x < |m| && m[x][k] == DBit(r, d, on, j, i, k)
    {
      CellIs(r, d, j, i);
      CellHolds(c, d, on, j, i);
      WordIs(r, d, on, j, i, k);
    }
    forall x: nat | x < |m| && Outside(r, d, x)
      ensures m[x] == d.mem[x]
    {
      OutsideStays(r, d, on, x);
    }
    BlitZero(c, d, on);
    NoBits(r, d, on);
  }

  lemma Results(r: Registers, d: Data, copper: bool, stale: bool, gs: seq<Grant>)
    requires r.Valid() && Pointers(d) && ReadsFirst(Configure(r), d) && (HasSource(Configure(r)) || Configure(r).useD)
    ensures var c := Configure(r); var t := Run(c, Start(c, d, copper, stale), gs); var f := F.Blit(c, FastStart(c, d));
            && (AllClear(c, d) ==> f.mem == Writes(c, d, false, r.vsize, 0)
                                   && f.alu.zero == Zeroes(c, d, false, r.vsize, 0))
            && (t.done ==> t.d.mem == Writes(c, d, !HasSource(c), r.vsize, 0)
                           && t.d.alu.zero == Zeroes(c, d, !HasSource(c), r.vsize, 0))
  {
    hide Configure, Run, Start, TotalSlots, FastStart, AllClear, Bitwise, W.Blit, F.Blit, EndPointer, Low, Flag,
         Writes, Zeroes, Previous, Serial, ReadsFirst;
    SizesAre(r);
    SerialIs(r);
    var c := Configure(r);
    var inclusive := Flag(r.con1, 8) && !Flag(r.con1, 0x10);
    BlitIs(c, d, false, inclusive);
    BlitIs(c, d, !HasSource(c), inclusive);
    if AllClear(c, d) {
      ImmediateIsWords(c, d);
    }
    if HasSource(c) {
      ExactRefinesWords(c, d, copper, stale, gs);
    } else {
      ExactWithDAlone(c, d, copper, stale, gs);
    }
  }

  /** For every sequence of grants: what a completed cycle-exact blit leaves,
      and with all pointers clear the immediate one, from the registers and the
      memory at the start, bit by bit. */
  lemma Leaves(r: Registers, d: Data, copper: bool, stale: bool, gs: seq<Grant>)
    requires r.Valid() && Pointers(d) && Laid(r, d) && Flag(r.con0, 0x100)
    ensures var c := Configure(r); var t := Run(c, Start(c, d, copper, stale), gs); var f := F.Blit(c, FastStart(c, d));
            var alone := !Flag(r.con0, 0x800) && !Flag(r.con0, 0x400) && !Flag(r.con0, 0x200);
            && (AllClear(c, d) ==> Left(r, d, false, f.mem, f.alu.zero))
            && (t.done ==> Left(r, d, alone, t.d.mem, t.d.alu.zero))
  {
    hide Configure, Run, Start, FastStart, AllClear, F.Blit, Flag, Writes, Zeroes, ReadsFirst, Left, Laid, Separate;
    FieldsAre(r);
    LaidReads(r, d);
    LeftIs(r, d, false);
    LeftIs(r, d, true);
    Results(r, d, copper, stale, gs);
  }

  lemma NothingWritten(r: Registers, d: Data)
    requires r.Valid() && !Configure(r).useD
    ensures ReadsFirst(Configure(r), d)
    ensures forall on: bool :: Writes(Configure(r), d, on, r.vsize, 0) == d.mem
  {
    hide Configure;
    SizesAre(r);
  }

  /** Without D the memory stays, and blitzero tells whether a bit would have
      been set. */
  lemma LeavesWithoutD(r: Registers, d: Data, copper: bool, stale: bool, gs: seq<Grant>)
    requires r.Valid() && Pointers(d) && !Flag(r.con0, 0x100)
    requires Flag(r.con0, 0x800) || Flag(r.con0, 0x400) || Flag(r.con0, 0x200)
    ensures var c := Configure(r); var t := Run(c, Start(c, d, copper, stale), gs); var f := F.Blit(c, FastStart(c, d));
            var zero := forall j: nat, i: nat, k: nat ::
                          j < r.vsize && i < r.hsize && k < 16 ==> !DBit(r, d, false, j, i, k);
            && (AllClear(c, d) ==> f.mem == d.mem && f.alu.zero == zero)
            && (t.done ==> t.d.mem == d.mem && t.d.alu.zero == zero)
  {
    hide Configure, Run, Start, FastStart, AllClear, F.Blit, Flag, Writes, Zeroes, ReadsFirst, DBit, AllZero;
    FieldsAre(r);
    SizesAre(r);
    SerialIs(r);
    NothingWritten(r, d);
    Results(r, d, copper, stale, gs);
    BlitZero(Configure(r), d, false);
    NoBits(r, d, false);
  }

  // ----- moving

  /** How far the word in row `j`, column `i` lies from the first one. */
  function Reach(r: Registers, mod: int, j: nat, i: nat): int { j * (2 * r.hsize + mod) + 2 * i }

  lemma RowsApart(n: nat, p: nat, j: nat)
    requires p < j
    ensures j * n >= p * n + n && (p + 1 < j ==> j * n >= p * n + 2 * n)
  {
    Distributes(n, p, j - p);
    AtLeast(n, j - p);
    if p + 1 < j {
      Distributes(n, 1, j - p - 1);
      AtLeast(n, j - p - 1);
    }
  }

  lemma ReachIs(r: Registers, mod: int, n: nat, j: nat, i: nat)
    requires n == 2 * r.hsize + mod
    ensures Reach(r, mod, j, i) == j * n + 2 * i
  {
  }

  /** Words that are not neighbours lie four bytes apart, or more. */
  lemma FarApart(r: Registers, mod: int, p: nat, q: nat, j: nat, i: nat)
    requires mod >= 0 && q < r.hsize && i < r.hsize && LongBefore(r, p, q, j, i)
    ensures Reach(r, mod, j, i) >= Reach(r, mod, p, q) + 4
  {
    hide Reach;
    var n := 2 * r.hsize + mod;
    if p < j {
      RowsApart(n, p, j);
    }
    ReachIs(r, mod, n, j, i);
    ReachIs(r, mod, n, p, q);
  }

  /** The last word lies farthest. */
  lemma WithinReach(r: Registers, mod: int, j: nat, i: nat)
    requires mod >= 0 && j < r.vsize && i < r.hsize
    ensures 0 <= Reach(r, mod, j, i) <= Reach(r, mod, r.vsize - 1, r.hsize - 1)
  {
    var n := 2 * r.hsize + mod;
    Distributes(n, j, r.vsize - 1 - j);
    assert n * (r.vsize - 1 - j) >= 0;
    assert j * n >= 0;
  }

  lemma NoWrap(r: Registers, b: nat, mod: int, j: nat, i: nat)
    requires r.Valid() && r.span <= 0x1_0000_0000
    requires var x := if Flag(r.con1, 2) then b - Reach(r, mod, j, i) else b + Reach(r, mod, j, i); 0 <= x < r.span
    ensures CellAt(r, b, mod, j, i)
         == (if Flag(r.con1, 2) then b - Reach(r, mod, j, i) else b + Reach(r, mod, j, i)) / 2
  {
    hide Flag;
    var x := if Flag(r.con1, 2) then b - Reach(r, mod, j, i) else b + Reach(r, mod, j, i);
    assert Place(r, b, mod, j, i) == x % 0x1_0000_0000 == x;
    Remainder(x, r.span, 0, x);
  }

  /** A rectangle that moves within its own rows is read in time: downwards, if
      it moves to higher addresses, upwards, if it moves to lower ones, however
      little. */
  lemma MovesInTime(r: Registers, d: Data, b: nat, mod: int)
    requires r.Valid() && r.span <= 0x1_0000_0000 && mod == r.dmod && mod >= 0
    requires var last := Reach(r, mod, r.vsize - 1, r.hsize - 1);
             if Flag(r.con1, 2) then last <= b <= d.dpt < r.span else d.dpt <= b && b + last < r.span
    ensures InTime(r, d, b, mod)
  {
    hide Flag, Reach;
    forall j: nat, i: nat, p: nat, q: nat |
      j < r.vsize && i < r.hsize && p < r.vsize && q < r.hsize && LongBefore(r, p, q, j, i)
      ensures CellAt(r, b, mod, j, i) != CellAt(r, d.dpt, r.dmod, p, q)
    {
      WithinReach(r, mod, j, i);
      WithinReach(r, mod, p, q);
      FarApart(r, mod, p, q, j, i);
      NoWrap(r, b, mod, j, i);
      NoWrap(r, d.dpt, mod, p, q);
    }
  }

  // ----- copying

  /** A rectangle is copied: every cell of D holds the word that lay in the same
      row and column of the rectangle that starts at `b`. */
  ghost predicate Copied(r: Registers, d: Data, b: nat, mod: int, m: seq<Word>)
    requires r.Valid()
  {
    && |m| == |d.mem|
    && (forall j: nat, i: nat :: j < r.vsize && i < r.hsize ==>
          var x := CellAt(r, d.dpt, r.dmod, j, i); x < |m| && m[x] == Lying(r, d, b, mod, j, i))
    && (forall x: nat :: x < |m| && Outside(r, d, x) ==> m[x] == d.mem[x])
  }

  /** BLTCON0 for copying from A, B or C to D without a shift. */
  function CopyCon0(ch: Channel): nat
    requires ch != D
  {
    match ch case A => 0x09F0 case B => 0x05CC case C => 0x03AA
  }

  /** Full masks, no shift, no fill, upwards or downwards. */
  ghost predicate Copies(r: Registers, ch: Channel)
    requires ch != D
  {
    Value(r.con0) == CopyCon0(ch) && (Value(r.con1) == 0 || Value(r.con1) == 2)
    && r.afwm == ONES && r.alwm == ONES
  }

  /** Where a copy comes from: pointer and modulo. */
  function CopyFrom(r: Registers, d: Data, ch: Channel): (nat, int)
    requires ch != D
  {
    match ch case A => (d.src.apt, r.amod) case B => (d.src.bpt, r.bmod) case C => (d.src.cpt, r.cmod)
  }

  lemma CopyMinterms(a: bool, b: bool, w: bool)
    ensures Selected(0xF0, a, b, w) == a && Selected(0xCC, a, b, w) == b && Selected(0xAA, a, b, w) == w
  {
  }

  lemma PlainA(r: Registers, d: Data, j: nat, i: nat, k: nat)
    requires r.Valid() && Value(r.con0) == CopyCon0(A) && r.afwm == ONES && r.alwm == ONES && k < 16
    ensures ABit(r, d, j, i, k) == Lying(r, d, d.src.apt, r.amod, j, i)[k]
  {
    hide Lying, Value, RowBefore, ColumnBefore;
  }

  lemma PlainB(r: Registers, d: Data, j: nat, i: nat, k: nat)
    requires r.Valid() && Value(r.con0) == CopyCon0(B) && (Value(r.con1) == 0 || Value(r.con1) == 2) && k < 16
    ensures BBit(r, d, j, i, k) == Lying(r, d, d.src.bpt, r.bmod, j, i)[k]
  {
    hide Lying, Value, RowBefore, ColumnBefore;
  }

  lemma PlainC(r: Registers, d: Data, j: nat, i: nat)
    requires r.Valid() && Value(r.con0) == CopyCon0(C)
    ensures CWord(r, d, j, i) == Lying(r, d, d.src.cpt, r.cmod, j, i)
  {
    hide Lying, Value;
  }

  lemma PlainRaw(r: Registers, d: Data, j: nat, i: nat, k: nat)
    requires r.Valid() && (Value(r.con1) == 0 || Value(r.con1) == 2) && k < 16
    ensures DBit(r, d, false, j, i, k) == RawBit(r, d, j, i, k)
  {
    hide Value, RawBit, OddBefore;
  }

  lemma CopyBit(r: Registers, d: Data, ch: Channel, j: nat, i: nat, k: nat)
    requires r.Valid() && ch != D && Copies(r, ch) && k < 16
    ensures var (b, mod) := CopyFrom(r, d, ch); DBit(r, d, false, j, i, k) == Lying(r, d, b, mod, j, i)[k]
  {
    hide Lying, Value, DBit, ABit, BBit, CWord, Selected;
    PlainRaw(r, d, j, i, k);
    CopyMinterms(ABit(r, d, j, i, k), BBit(r, d, j, i, k), CWord(r, d, j, i)[k]);
    match ch
    case A => PlainA(r, d, j, i, k);
    case B => PlainB(r, d, j, i, k);
    case C => PlainC(r, d, j, i);
  }

  lemma CopyChannels(r: Registers, ch: Channel)
    requires ch != D && Copies(r, ch)
    ensures Flag(r.con0, 0x100) && (Flag(r.con0, 0x800) || Flag(r.con0, 0x400) || Flag(r.con0, 0x200))
  {
    hide Value;
  }

  lemma LeftCopied(r: Registers, d: Data, ch: Channel, m: seq<Word>, zero: bool)
    requires r.Valid() && ch != D && Copies(r, ch) && Left(r, d, false, m, zero)
    ensures var (b, mod) := CopyFrom(r, d, ch); Copied(r, d, b, mod, m)
  {
    hide Copies, DBit, Lying, Outside, CellAt;
    var (b, mod) := CopyFrom(r, d, ch);
    forall j: nat, i: nat | j < r.vsize && i < r.hsize
      ensures var x := CellAt(r, d.dpt, r.dmod, j, i); x < |m| && m[x] == Lying(r, d, b, mod, j, i)
    {
      var x := CellAt(r, d.dpt, r.dmod, j, i);
      assert DBit(r, d, false, j, i, 0) ==> x < |m|;
      forall k: nat | k < 16
        ensures x < |m| && m[x][k] == Lying(r, d, b, mod, j, i)[k]
      {
        CopyBit(r, d, ch, j, i, k);
        assert m[x][k] == DBit(r, d, false, j, i, k);
      }
      assert m[x] == Lying(r, d, b, mod, j, i);
    }
  }

  /** For every sequence of grants, both directions, any size and modulos, and
      source and destination as they like as long as no word is overwritten
      before it is read: 0x09F0 copies A, 0x05CC copies B, 0x03AA copies C. */
  lemma CopyLeaves(r: Registers, d: Data, ch: Channel, copper: bool, stale: bool, gs: seq<Grant>)
    requires r.Valid() && Pointers(d) && Laid(r, d) && ch != D && Copies(r, ch)
    ensures var c := Configure(r); var t := Run(c, Start(c, d, copper, stale), gs); var f := F.Blit(c, FastStart(c, d));
            var (b, mod) := CopyFrom(r, d, ch);
            && (AllClear(c, d) ==> Copied(r, d, b, mod, f.mem))
            && (t.done ==> Copied(r, d, b, mod, t.d.mem))
  {
    hide Configure, Run, Start, FastStart, AllClear, F.Blit, Laid, Left, Copied, Copies, Flag, CopyFrom, Serial,
         Bitwise;
    CopyChannels(r, ch);
    SerialIs(r);
    Leaves(r, d, copper, stale, gs);
    var c := Configure(r);
    var t := Run(c, Start(c, d, copper, stale), gs);
    var f := F.Blit(c, FastStart(c, d));
    if AllClear(c, d) {
      LeftCopied(r, d, ch, f.mem, f.alu.zero);
    }
    if t.done {
      LeftCopied(r, d, ch, t.d.mem, t.d.alu.zero);
    }
  }

  // ----- moving a rectangle over itself

  lemma NextReach(r: Registers, mod: int, p: nat, q: nat, j: nat, i: nat)
    requires mod >= 0 && ((p == j && q + 1 == i) || (p + 1 == j && q + 1 == r.hsize && i == 0))
    ensures Reach(r, mod, j, i) >= Reach(r, mod, p, q) + 2
  {
    if p < j {
      Distributes(2 * r.hsize + mod, p, 1);
    }
  }

  /** Every word lies two bytes behind the one before it, or more. */
  lemma FartherOn(r: Registers, mod: int, p: nat, q: nat, j: nat, i: nat)
    requires mod >= 0 && q < r.hsize && i < r.hsize && (p < j || (p == j && q < i))
    ensures Reach(r, mod, j, i) >= Reach(r, mod, p, q) + 2
  {
    hide Reach;
    if LongBefore(r, p, q, j, i) {
      FarApart(r, mod, p, q, j, i);
    } else {
      NextReach(r, mod, p, q, j, i);
    }
  }

  lemma OwnCell(r: Registers, d: Data, j: nat, i: nat, p: nat, q: nat)
    requires r.Valid() && r.span <= 0x1_0000_0000 && r.dmod >= 0
    requires j < r.vsize && i < r.hsize && p < r.vsize && q < r.hsize && (p < j || (p == j && q < i))
    requires var last := Reach(r, r.dmod, r.vsize - 1, r.hsize - 1);
             if Flag(r.con1, 2) then last <= d.dpt < r.span else d.dpt + last < r.span
    ensures CellAt(r, d.dpt, r.dmod, j, i) != CellAt(r, d.dpt, r.dmod, p, q)
  {
    hide Flag, Reach;
    WithinReach(r, r.dmod, j, i);
    WithinReach(r, r.dmod, p, q);
    FartherOn(r, r.dmod, p, q, j, i);
    NoWrap(r, d.dpt, r.dmod, j, i);
    NoWrap(r, d.dpt, r.dmod, p, q);
  }

  /** The rectangle lies in fitted memory. */
  ghost predicate Fitted(r: Registers, d: Data, b: nat)
    requires r.Valid()
  {
    var last := Reach(r, r.dmod, r.vsize - 1, r.hsize - 1);
    r.span <= 0x1_0000_0000 && r.span <= 2 * |d.mem| && r.dmod >= 0
    && if Flag(r.con1, 2) then last <= b < r.span else b + last < r.span
  }

  lemma FitsIn(r: Registers, d: Data, j: nat, i: nat)
    requires r.Valid() && Fitted(r, d, d.dpt) && j < r.vsize && i < r.hsize
    ensures CellAt(r, d.dpt, r.dmod, j, i) < |d.mem|
  {
    hide Flag, Reach;
    WithinReach(r, r.dmod, j, i);
    NoWrap(r, d.dpt, r.dmod, j, i);
  }

  lemma OnlyA(r: Registers)
    requires Copies(r, A)
    ensures !Flag(r.con0, 0x400) && !Flag(r.con0, 0x200) && Flag(r.con1, 2) == (Value(r.con1) == 2)
  {
    hide Value;
  }

  /** Source and destination of a copy from A may overlap in any way if it runs
      downwards to higher addresses, upwards to lower ones: then every word
      arrives, as `CopyLeaves` says. */
  lemma MoveIsLaid(r: Registers, d: Data)
    requires r.Valid() && Copies(r, A) && r.amod == r.dmod
    requires Fitted(r, d, d.src.apt) && Fitted(r, d, d.dpt)
    requires if Value(r.con1) == 2 then d.src.apt <= d.dpt else d.dpt <= d.src.apt
    ensures Laid(r, d)
  {
    hide CellAt, Value, Reach, InTime;
    OnlyA(r);
    MovesInTime(r, d, d.src.apt, r.amod);
    forall j: nat, i: nat | j < r.vsize && i < r.hsize
      ensures CellAt(r, d.dpt, r.dmod, j, i) < |d.mem|
    {
      FitsIn(r, d, j, i);
    }
    forall j: nat, i: nat, p: nat, q: nat |
      j < r.vsize && i < r.hsize && p < r.vsize && q < r.hsize
      && CellAt(r, d.dpt, r.dmod, j, i) == CellAt(r, d.dpt, r.dmod, p, q)
      ensures j == p && i == q
    {
      if p < j || (p == j && q < i) {
        OwnCell(r, d, j, i, p, q);
      } else if j < p || (p == j && i < q) {
        OwnCell(r, d, p, q, j, i);
      }
    }
  }
}
